/** All interleavings of submitters and the worker of the job queue
    (internal/jobs/queue.go): order, exclusiveness, retention and wake-ups. */
module JobRuns {
  import opened Common
  import opened JobQueue

  /** Where the worker is: waiting for a token, about to pick, running the job it
      picked, about to signal, or returned. */
  datatype Worker = Idle | Picking | Busy(index: nat) | Signalling | Stopped

  /** `signalling` counts submitters between append and signal; `submitted` and
      `started` record the jobs' functions in order. */
  datatype State = State(
    jobs: seq<Job>,
    token: bool,
    worker: Worker,
    signalling: nat,
    submitted: seq<nat>,
    started: seq<nat>)

  const INITIAL := State([], false, Idle, 0, [], [])

  datatype Action =
    | Append(id: string, fn: nat)
    | SubmitterSignal
    | Wake
    | Pick
    | Finish(failed: bool)
    | WorkerSignal
    | Cancel

  predicate Enabled(q: State, a: Action) {
    match a
    case Append(_, _) => true
    case SubmitterSignal => q.signalling > 0
    case Wake => q.worker.Idle? && q.token
    case Pick => q.worker.Picking?
    case Finish(_) => q.worker.Busy? && q.worker.index < |q.jobs|
    case WorkerSignal => q.worker.Signalling?
    case Cancel => q.worker.Idle?
  }

  function Next(maxHistory: nat, q: State, a: Action): State
    requires Enabled(q, a)
  {
    match a
    case Append(id, fn) =>
      q.(jobs := Submitted(q.jobs, id, fn), signalling := q.signalling + 1, submitted := q.submitted + [fn])
    case SubmitterSignal => q.(signalling := q.signalling - 1, token := true)
    case Wake => q.(worker := Picking, token := false)
    case Pick =>
      var i := FirstPending(q.jobs);
      if i == |q.jobs| then q.(worker := Idle)
      else q.(jobs := Started(q.jobs, i), worker := Busy(i), started := q.started + [FnOf(q.jobs[i])])
    case Finish(failed) =>
      q.(jobs := Pruned(maxHistory, Ended(q.jobs, q.worker.index, failed)), worker := if failed then Idle else Signalling)
    case WorkerSignal => q.(token := true, worker := Idle)
    case Cancel => q.(worker := Stopped)
  }

  function FnOf(j: Job): nat {
    if j.fn.Some? then j.fn.value else 0
  }

  function IsPending(): Job -> bool {
    (j: Job) => j.status == Pending
  }

  function Fns(jobs: seq<Job>): (r: seq<nat>)
    ensures |r| == |jobs|
  {
    if jobs == [] then [] else Fns(jobs[..|jobs| - 1]) + [FnOf(jobs[|jobs| - 1])]
  }

  /** The work still to do, in list order. */
  function Waiting(jobs: seq<Job>): seq<nat> {
    Fns(Filter(IsPending(), jobs))
  }

  /** Kept by every step: the submitted work is the started work followed by the
      waiting work, and only the job the worker points at is running. */
  ghost predicate Inv(q: State) {
    && q.submitted == q.started + Waiting(q.jobs)
    && (forall i :: 0 <= i < |q.jobs| && q.jobs[i].status == Running ==> q.worker == Busy(i))
    && (q.worker.Busy? ==>
          q.worker.index < |q.jobs| && q.jobs[q.worker.index].status == Running
          && q.started != [] && FnOf(q.jobs[q.worker.index]) == q.started[|q.started| - 1])
  }

  lemma {:induction false} FnsConcat(a: seq<Job>, b: seq<Job>)
    ensures Fns(a + b) == Fns(a) + Fns(b)
  {
    if b == [] {
      assert a + b == a;
    } else {
      FnsConcat(a, b[..|b| - 1]);
      assert (a + b)[..|a + b| - 1] == a + b[..|b| - 1];
    }
  }

  lemma WaitingConcat(a: seq<Job>, b: seq<Job>)
    ensures Waiting(a + b) == Waiting(a) + Waiting(b)
  {
    FilterConcat(IsPending(), a, b);
    FnsConcat(Filter(IsPending(), a), Filter(IsPending(), b));
  }

  lemma WaitingOne(j: Job)
    ensures Waiting([j]) == if j.status == Pending then [FnOf(j)] else []
  {
    assert [j] == [] + [j];
    FilterSnoc(IsPending(), [], j);
    if j.status == Pending {
      assert [j][..0] == [];
      assert Filter(IsPending(), [j]) == [j];
    }
  }

  lemma WaitingUpdate(jobs: seq<Job>, i: nat, j: Job)
    requires i < |jobs|
    ensures Waiting(jobs) == Waiting(jobs[..i]) + Waiting([jobs[i]]) + Waiting(jobs[i + 1..])
    ensures Waiting(jobs[i := j]) == Waiting(jobs[..i]) + Waiting([j]) + Waiting(jobs[i + 1..])
  {
    assert jobs == jobs[..i] + [jobs[i]] + jobs[i + 1..];
    assert jobs[i := j] == jobs[..i] + [j] + jobs[i + 1..];
    WaitingConcat(jobs[..i] + [jobs[i]], jobs[i + 1..]);
    WaitingConcat(jobs[..i], [jobs[i]]);
    WaitingConcat(jobs[..i] + [j], jobs[i + 1..]);
    WaitingConcat(jobs[..i], [j]);
  }

  /** Pruning drops no waiting work and reorders none. */
  lemma WaitingPruned(maxHistory: nat, jobs: seq<Job>)
    ensures Waiting(Pruned(maxHistory, jobs)) == Waiting(jobs)
  {
    if |jobs| > maxHistory {
      var active := Filter(ActiveJob(), jobs);
      var rest := Take(Filter(FinishedJob(), jobs), Room(maxHistory, jobs));
      WaitingConcat(active, rest);
      FilterAbsorb(IsPending(), ActiveJob(), jobs);
      FilterMembers(FinishedJob(), jobs);
      assert forall x :: x in rest ==> x in Filter(FinishedJob(), jobs);
      FilterNone(IsPending(), rest);
    }
  }

  lemma NoneBeforeFirst(jobs: seq<Job>)
    ensures Waiting(jobs[..FirstPending(jobs)]) == []
  {
    FilterNone(IsPending(), jobs[..FirstPending(jobs)]);
  }

  /** Picking takes the head of the waiting work. */
  lemma WaitingPicked(jobs: seq<Job>, i: nat)
    requires i < |jobs| && jobs[i].status == Pending && Waiting(jobs[..i]) == []
    ensures Waiting(jobs) == [FnOf(jobs[i])] + Waiting(Started(jobs, i))
  {
    var j := jobs[i].(status := Running);
    var fn, back := FnOf(jobs[i]), Waiting(jobs[i + 1..]);
    WaitingUpdate(jobs, i, j);
    WaitingOne(jobs[i]);
    WaitingOne(j);
    assert [] + [fn] + back == [fn] + ([] + [] + back);
  }

  lemma WaitingSubmitted(jobs: seq<Job>, id: string, fn: nat)
    ensures Waiting(Submitted(jobs, id, fn)) == Waiting(jobs) + [fn]
  {
    WaitingConcat(jobs, [Job(id, Pending, Some(fn))]);
    WaitingOne(Job(id, Pending, Some(fn)));
  }

  lemma Associates(a: seq<nat>, b: seq<nat>, c: seq<nat>)
    ensures a + (b + c) == a + b + c
  {
  }

  lemma PickKeepsInv(maxHistory: nat, q: State)
    requires Inv(q) && Enabled(q, Pick)
    ensures Inv(Next(maxHistory, q, Pick))
  {
    var i := FirstPending(q.jobs);
    if i < |q.jobs| {
      NoneBeforeFirst(q.jobs);
      WaitingPicked(q.jobs, i);
      Associates(q.started, [FnOf(q.jobs[i])], Waiting(Started(q.jobs, i)));
    }
  }

  /** Ending a running job and pruning leave the waiting work as it is. */
  lemma WaitingEnded(maxHistory: nat, jobs: seq<Job>, i: nat, failed: bool)
    requires i < |jobs| && jobs[i].status == Running
    ensures Waiting(Pruned(maxHistory, Ended(jobs, i, failed))) == Waiting(jobs)
  {
    var ended := Ended(jobs, i, failed);
    WaitingUpdate(jobs, i, ended[i]);
    WaitingOne(jobs[i]);
    WaitingOne(ended[i]);
    WaitingPruned(maxHistory, ended);
  }

  lemma PrunedIsPart(maxHistory: nat, jobs: seq<Job>, j: Job)
    requires j in Pruned(maxHistory, jobs)
    ensures j in jobs
  {
    FilterMembers(ActiveJob(), jobs);
    FilterMembers(FinishedJob(), jobs);
  }

  lemma FinishKeepsInv(maxHistory: nat, q: State, failed: bool)
    requires Inv(q) && Enabled(q, Finish(failed))
    ensures Inv(Next(maxHistory, q, Finish(failed)))
  {
    var ended := Ended(q.jobs, q.worker.index, failed);
    WaitingEnded(maxHistory, q.jobs, q.worker.index, failed);
    forall k | 0 <= k < |Pruned(maxHistory, ended)|
      ensures Pruned(maxHistory, ended)[k].status != Running
    {
      PrunedIsPart(maxHistory, ended, Pruned(maxHistory, ended)[k]);
    }
  }

  lemma AppendKeepsInv(maxHistory: nat, q: State, id: string, fn: nat)
    requires Inv(q)
    ensures Inv(Next(maxHistory, q, Append(id, fn)))
  {
    WaitingSubmitted(q.jobs, id, fn);
    Associates(q.started, Waiting(q.jobs), [fn]);
  }

  /** Every step of a submitter or the worker keeps the invariant. */
  lemma StepKeepsInv(maxHistory: nat, q: State, a: Action)
    requires Inv(q) && Enabled(q, a)
    ensures Inv(Next(maxHistory, q, a))
  {
    match a {
      case Append(id, fn) => AppendKeepsInv(maxHistory, q, id, fn);
      case Pick => PickKeepsInv(maxHistory, q);
      case Finish(failed) => FinishKeepsInv(maxHistory, q, failed);
      case _ =>
    }
  }

  ghost predicate Takes(maxHistory: nat, q: State, a: Action, q': State) {
    Enabled(q, a) && q' == Next(maxHistory, q, a)
  }

  /** A run: states[i] becomes states[i + 1] by actions[i]. */
  ghost predicate Run(maxHistory: nat, states: seq<State>, actions: seq<Action>) {
    && |states| == |actions| + 1
    && states[0] == INITIAL
    && forall i, j :: 0 <= i < |actions| && j == i + 1 ==> Takes(maxHistory, states[i], actions[i], states[j])
  }

  lemma Extended(maxHistory: nat, states0: seq<State>, actions0: seq<Action>, a: Action)
    returns (states: seq<State>, actions: seq<Action>)
    requires Run(maxHistory, states0, actions0) && Enabled(states0[|actions0|], a)
    ensures Run(maxHistory, states, actions) && states0 <= states && |states| == |actions| + 1
    ensures actions == actions0 + [a] && states[|actions|] == Next(maxHistory, states0[|actions0|], a)
  {
    states, actions := states0 + [Next(maxHistory, states0[|actions0|], a)], actions0 + [a];
    forall i, j | 0 <= i < |actions| && j == i + 1
      ensures Takes(maxHistory, states[i], actions[i], states[j])
    {
      assert i < |actions0| ==> Takes(maxHistory, states0[i], actions0[i], states0[j]);
    }
  }

  /** In every run jobs start in submission order, each at most once, none is
      lost, and at most one runs: the one at the index the worker saved, however
      many were submitted meanwhile. */
  lemma {:induction false} QueueHistory(maxHistory: nat, states: seq<State>, actions: seq<Action>, i: nat)
    requires Run(maxHistory, states, actions) && i < |states|
    ensures Inv(states[i])
    ensures states[i].started <= states[i].submitted
  {
    if i == 0 {
      assert Waiting([]) == [];
    } else {
      QueueHistory(maxHistory, states, actions, i - 1);
      assert Takes(maxHistory, states[i - 1], actions[i - 1], states[i]);
      StepKeepsInv(maxHistory, states[i - 1], actions[i - 1]);
    }
  }

  // -------------------------------------------------------------- retention

  lemma {:induction false} PrunedActive(maxHistory: nat, jobs: seq<Job>)
    ensures Filter(ActiveJob(), Pruned(maxHistory, jobs)) == Filter(ActiveJob(), jobs)
  {
    if |jobs| > maxHistory {
      var active := Filter(ActiveJob(), jobs);
      var rest := Take(Filter(FinishedJob(), jobs), Room(maxHistory, jobs));
      FilterMembers(ActiveJob(), jobs);
      FilterMembers(FinishedJob(), jobs);
      FilterAll(ActiveJob(), active);
      assert forall x :: x in rest ==> x in Filter(FinishedJob(), jobs);
      FilterNone(ActiveJob(), rest);
      FilterConcat(ActiveJob(), active, rest);
    }
  }

  /** After each completion all jobs are still listed, or the list has exactly the
      length of the history limit or the number of active jobs, whichever is
      larger: a finished job is dropped only from a full list. */
  lemma RetentionBound(maxHistory: nat, q: State, failed: bool)
    requires Enabled(q, Finish(failed))
    ensures var jobs := Next(maxHistory, q, Finish(failed)).jobs;
      |jobs| == Min(|q.jobs|, Max(maxHistory, |Filter(ActiveJob(), jobs)|))
  {
    var ended := Ended(q.jobs, q.worker.index, failed);
    PrunedActive(maxHistory, ended);
    PrunedRetains(maxHistory, ended);
  }

  // --------------------------------------------------------------- wake-ups

  /** Work is waiting and nothing under way will wake the worker. */
  ghost predicate Stalled(q: State) {
    q.worker.Idle? && q.signalling == 0 && !q.token && Waiting(q.jobs) != []
  }

  /** Exactly one kind of step stalls the queue: a failing job that ends with
      work waiting while no wake-up is on its way. */
  lemma OnlyFailureStalls(maxHistory: nat, q: State, a: Action)
    requires Inv(q) && Enabled(q, a) && !Stalled(q)
    ensures Stalled(Next(maxHistory, q, a)) <==>
      a == Finish(true) && !q.token && q.signalling == 0 && Waiting(q.jobs) != []
  {
    match a {
      case Pick =>
        NoneBeforeFirst(q.jobs);
        assert FirstPending(q.jobs) == |q.jobs| ==> q.jobs[..FirstPending(q.jobs)] == q.jobs;
      case Finish(failed) =>
        WaitingEnded(maxHistory, q.jobs, q.worker.index, failed);
      case _ =>
    }
  }

  /** It does happen: two jobs are submitted while the worker is idle, their two
      wake-ups make one token, the first job fails, and the second is stuck. */
  lemma StallIsReached(maxHistory: nat) returns (states: seq<State>, actions: seq<Action>)
    ensures Run(maxHistory, states, actions) && Stalled(states[|actions|])
    ensures actions == [Append("a", 0), Append("b", 1), SubmitterSignal, SubmitterSignal, Wake, Pick, Finish(true)]
  {
    hide Run, Inv, Waiting, Pruned;
    var a, b := Job("a", Pending, Some(0)), Job("b", Pending, Some(1));
    states, actions := TwoSubmitted(maxHistory);
    states, actions := Extended(maxHistory, states, actions, Wake);
    assert FirstPending([a, b]) == 0;
    states, actions := Extended(maxHistory, states, actions, Pick);
    var q := states[|actions|];
    assert q == State([a.(status := Running), b], false, Busy(0), 0, [0, 1], [0]);
    WaitingTwo(a.(status := Running), b);
    QueueHistory(maxHistory, states, actions, 6);
    OnlyFailureStalls(maxHistory, q, Finish(true));
    states, actions := Extended(maxHistory, states, actions, Finish(true));
  }

  lemma WaitingTwo(x: Job, y: Job)
    ensures Waiting([x, y])
      == (if x.status == Pending then [FnOf(x)] else []) + (if y.status == Pending then [FnOf(y)] else [])
  {
    assert [x, y] == [x] + [y];
    WaitingConcat([x], [y]);
    WaitingOne(x);
    WaitingOne(y);
  }

  lemma TwoSubmitted(maxHistory: nat) returns (states: seq<State>, actions: seq<Action>)
    ensures Run(maxHistory, states, actions) && |states| == 5
    ensures actions == [Append("a", 0), Append("b", 1), SubmitterSignal, SubmitterSignal]
    ensures states[4] == State([Job("a", Pending, Some(0)), Job("b", Pending, Some(1))], true, Idle, 0, [0, 1], [])
  {
    states, actions := [INITIAL], [];
    states, actions := Extended(maxHistory, states, actions, Append("a", 0));
    states, actions := Extended(maxHistory, states, actions, Append("b", 1));
    states, actions := Extended(maxHistory, states, actions, SubmitterSignal);
    states, actions := Extended(maxHistory, states, actions, SubmitterSignal);
  }

  /** No lost wake-up in runs in which no job fails: the worker is never idle
      without a token while work waits and no submitter is about to signal. */
  lemma {:induction false} NoLostWakeup(maxHistory: nat, states: seq<State>, actions: seq<Action>, i: nat)
    requires Run(maxHistory, states, actions) && i < |states|
    requires forall k :: 0 <= k < |actions| ==> actions[k] != Finish(true)
    ensures !Stalled(states[i])
  {
    if i == 0 {
      assert Waiting([]) == [];
    } else {
      QueueHistory(maxHistory, states, actions, i - 1);
      assert Takes(maxHistory, states[i - 1], actions[i - 1], states[i]);
      NoLostWakeup(maxHistory, states, actions, i - 1);
      OnlyFailureStalls(maxHistory, states[i - 1], actions[i - 1]);
    }
  }

  /** A stalled queue waits for the next submission (or for the end). */
  lemma StallEndsBySubmit(maxHistory: nat, q: State, a: Action)
    requires Stalled(q) && Enabled(q, a)
    ensures a.Append? || a.Cancel?
    ensures a.Append? ==> !Stalled(Next(maxHistory, q, a)) && Next(maxHistory, q, a).signalling == 1
  {
  }

  // --------------------------------------------------------------- progress

  /** Steps that need nothing from outside: no submission, failure or
      cancellation. */
  predicate Internal(a: Action) {
    a == SubmitterSignal || a == Wake || a == Pick || a == Finish(false) || a == WorkerSignal
  }

  function Rank(w: Worker): nat {
    match w
    case Idle => 0
    case Picking => 1
    case Signalling => 3
    case Busy(_) => 4
    case Stopped => 0
  }

  /** A bound on the internal steps still to come. */
  function Effort(q: State): nat {
    4 * |Waiting(q.jobs)| + 3 * q.signalling + (if q.token then 2 else 0) + Rank(q.worker)
  }

  /** Nobody can go on without a submission, a failure or a cancellation. */
  ghost predicate Quiet(q: State) {
    forall a :: Internal(a) ==> !Enabled(q, a)
  }

  lemma StepCostsEffort(maxHistory: nat, q: State, a: Action)
    requires Inv(q) && Enabled(q, a) && Internal(a)
    ensures Effort(Next(maxHistory, q, a)) < Effort(q)
  {
    match a {
      case Pick =>
        var i := FirstPending(q.jobs);
        if i < |q.jobs| {
          NoneBeforeFirst(q.jobs);
          WaitingPicked(q.jobs, i);
        }
      case Finish(failed) => WaitingEnded(maxHistory, q.jobs, q.worker.index, failed);
      case _ =>
    }
  }

  /** In a run, and neither stalled nor stopped. */
  ghost predicate Live(q: State) {
    Inv(q) && !Stalled(q) && !q.worker.Stopped?
  }

  /** All that was submitted has been started and has ended. */
  ghost predicate AllRun(q: State) {
    q.worker.Idle? && q.started == q.submitted && forall i :: 0 <= i < |q.jobs| ==> !IsActive(q.jobs[i])
  }

  lemma InternalStep(maxHistory: nat, q: State, a: Action)
    requires Live(q) && Enabled(q, a) && Internal(a)
    ensures var q' := Next(maxHistory, q, a);
      Live(q') && q'.submitted == q.submitted && Effort(q') < Effort(q)
  {
    StepCostsEffort(maxHistory, q, a);
    StepKeepsInv(maxHistory, q, a);
    OnlyFailureStalls(maxHistory, q, a);
  }

  /** A queue that is neither stalled nor stopped falls quiet only when all that
      was submitted has been started and has ended. */
  lemma QuietMeansDone(q: State)
    requires Live(q) && Quiet(q)
    ensures AllRun(q)
  {
    assert Internal(SubmitterSignal) && Internal(Wake) && Internal(Pick) && Internal(Finish(false)) && Internal(WorkerSignal);
    assert !Enabled(q, SubmitterSignal) && !Enabled(q, Wake) && !Enabled(q, Pick);
    assert !Enabled(q, Finish(false)) && !Enabled(q, WorkerSignal);
    assert Filter(IsPending(), q.jobs) == [];
    FilterMembers(IsPending(), q.jobs);
    forall i | 0 <= i < |q.jobs|
      ensures !IsActive(q.jobs[i])
    {
      assert q.jobs[i] in q.jobs && !IsPending()(q.jobs[i]);
    }
  }

  /** Any stretch of internal steps. */
  ghost predicate Segment(maxHistory: nat, states: seq<State>, actions: seq<Action>) {
    && |states| == |actions| + 1
    && (forall i :: 0 <= i < |actions| ==> Internal(actions[i]))
    && (forall i, j :: 0 <= i < |actions| && j == i + 1 ==> Takes(maxHistory, states[i], actions[i], states[j]))
  }

  lemma SegmentFront(maxHistory: nat, states: seq<State>, actions: seq<Action>)
    requires Segment(maxHistory, states, actions) && actions != []
    ensures Segment(maxHistory, states[..|actions|], actions[..|actions| - 1])
  {
    var n := |actions| - 1;
    var front, earlier := actions[..n], states[..n + 1];
    forall i, j | 0 <= i < |front| && j == i + 1
      ensures Takes(maxHistory, earlier[i], front[i], earlier[j])
    {
      assert Takes(maxHistory, states[i], actions[i], states[j]);
    }
  }

  /** Left alone, the queue drains: from any state of a run that is neither
      stalled nor stopped, no more than Effort internal steps can follow, and
      when none is left all submitted jobs have been run. */
  lemma {:induction false} QueueDrains(maxHistory: nat, states: seq<State>, actions: seq<Action>)
    requires Segment(maxHistory, states, actions)
    requires Live(states[0])
    ensures var last := states[|actions|];
      && Live(last) && last.submitted == states[0].submitted
      && |actions| + Effort(last) <= Effort(states[0])
      && (Quiet(last) ==> AllRun(last))
    decreases |actions|
  {
    var n := |actions|;
    if n > 0 {
      var before, a := states[n - 1], actions[n - 1];
      assert Takes(maxHistory, before, a, states[n]);
      SegmentFront(maxHistory, states, actions);
      QueueDrains(maxHistory, states[..n], actions[..n - 1]);
      InternalStep(maxHistory, before, a);
    }
    if Quiet(states[n]) {
      QuietMeansDone(states[n]);
    }
  }
}
