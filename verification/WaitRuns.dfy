/** What Wait finds, over whole runs of the job queue (internal/jobs/queue.go):
    between the end of a job and the look of a waiter further jobs may end, and
    each time the list is pruned. */
module WaitRuns {
  import opened Common
  import opened JobQueue
  import opened JobRuns

  // ---------------------------------------------------------------- pruning

  /** Whether pruning spares the finished job at position i: fewer than
      `maxHistory` jobs are active or have a finished entry before it. */
  predicate Spared(maxHistory: nat, jobs: seq<Job>, i: nat)
    requires i < |jobs|
  {
    |Filter(ActiveJob(), jobs)| + |Filter(FinishedJob(), jobs[..i])| < maxHistory
  }

  /** Where pruning puts the finished job at position i, if it keeps it. */
  function PlaceAfterPrune(maxHistory: nat, jobs: seq<Job>, i: nat): Option<nat>
    requires i < |jobs|
  {
    if !Spared(maxHistory, jobs, i) then None
    else if |jobs| <= maxHistory then Some(i)
    else Some(|Filter(ActiveJob(), jobs)| + |Filter(FinishedJob(), jobs[..i])|)
  }

  /** The finished jobs around position i. */
  lemma FinishedAround(jobs: seq<Job>, i: nat)
    requires i < |jobs| && !IsActive(jobs[i])
    ensures Filter(FinishedJob(), jobs)
      == Filter(FinishedJob(), jobs[..i]) + [jobs[i]] + Filter(FinishedJob(), jobs[i + 1..])
  {
    assert jobs == jobs[..i] + [jobs[i]] + jobs[i + 1..];
    FilterConcat(FinishedJob(), jobs[..i] + [jobs[i]], jobs[i + 1..]);
    FilterSnoc(FinishedJob(), jobs[..i], jobs[i]);
  }

  /** Among no more jobs than the limit every finished one is spared. */
  lemma ShortListSpares(maxHistory: nat, jobs: seq<Job>, i: nat)
    requires i < |jobs| <= maxHistory && !IsActive(jobs[i])
    ensures Spared(maxHistory, jobs, i)
  {
    TwoKinds(jobs);
    FinishedAround(jobs, i);
  }

  lemma PlacedByPrune(maxHistory: nat, jobs: seq<Job>, i: nat, p: nat)
    requires i < |jobs| && !IsActive(jobs[i]) && PlaceAfterPrune(maxHistory, jobs, i) == Some(p)
    ensures p < |Pruned(maxHistory, jobs)| && Pruned(maxHistory, jobs)[p] == jobs[i]
  {
    FinishedAround(jobs, i);
  }

  lemma {:induction false} NthFinished(jobs: seq<Job>, r: nat) returns (i: nat)
    requires r < |Filter(FinishedJob(), jobs)|
    ensures i < |jobs| && !IsActive(jobs[i]) && |Filter(FinishedJob(), jobs[..i])| == r
  {
    var n := |jobs| - 1;
    if r < |Filter(FinishedJob(), jobs[..n])| {
      i := NthFinished(jobs[..n], r);
      assert jobs[..n][..i] == jobs[..i];
    } else {
      i := n;
    }
  }

  /** Every finished job that pruning leaves was put there. */
  lemma PrunedFromPlace(maxHistory: nat, jobs: seq<Job>, p: nat) returns (i: nat)
    requires p < |Pruned(maxHistory, jobs)| && !IsActive(Pruned(maxHistory, jobs)[p])
    ensures i < |jobs| && !IsActive(jobs[i]) && PlaceAfterPrune(maxHistory, jobs, i) == Some(p)
    ensures jobs[i] == Pruned(maxHistory, jobs)[p]
  {
    i := p;
    if |jobs| <= maxHistory {
      ShortListSpares(maxHistory, jobs, i);
    } else {
      var active := Filter(ActiveJob(), jobs);
      if p < |active| { FilterKeeps(ActiveJob(), jobs, p); }
      i := NthFinished(jobs, p - |active|);
      PlacedByPrune(maxHistory, jobs, i, p);
    }
  }

  // ------------------------------------------------------------------ steps

  /** The list just before pruning when a job ends. */
  function EndedList(q: State, failed: bool): seq<Job>
    requires Enabled(q, Finish(failed))
  {
    Ended(q.jobs, q.worker.index, failed)
  }

  /** Where a step moves the job at position i: finished, or ending now. */
  function Moved(maxHistory: nat, q: State, a: Action, i: nat): Option<nat>
    requires Enabled(q, a) && i < |q.jobs|
  {
    if a.Finish? then PlaceAfterPrune(maxHistory, EndedList(q, a.failed), i) else Some(i)
  }

  predicate Terminal(q: State, a: Action, i: nat)
    requires i < |q.jobs|
  {
    !IsActive(q.jobs[i]) || (a.Finish? && q.worker == Busy(i))
  }

  /** A finished job stays what it is wherever it goes. */
  lemma StepMoves(maxHistory: nat, q: State, a: Action, i: nat, p: nat)
    requires Inv(q) && Enabled(q, a) && i < |q.jobs| && Terminal(q, a, i)
    requires Moved(maxHistory, q, a, i) == Some(p)
    ensures var jobs := Next(maxHistory, q, a).jobs;
      && p < |jobs| && !IsActive(jobs[p]) && jobs[p].id == q.jobs[i].id
      && (IsActive(q.jobs[i]) ==> jobs[p].status == if a.failed then Failed else Done)
      && (!IsActive(q.jobs[i]) ==> jobs[p].status == q.jobs[i].status)
  {
    if a.Finish? {
      PlacedByPrune(maxHistory, EndedList(q, a.failed), i, p);
    }
  }

  /** Every finished job listed after a step was moved there by it. */
  lemma StepMovedFrom(maxHistory: nat, q: State, a: Action, p: nat) returns (i: nat)
    requires Inv(q) && Enabled(q, a)
    requires p < |Next(maxHistory, q, a).jobs| && !IsActive(Next(maxHistory, q, a).jobs[p])
    ensures i < |q.jobs| && Terminal(q, a, i) && Moved(maxHistory, q, a, i) == Some(p)
    ensures q.jobs[i].id == Next(maxHistory, q, a).jobs[p].id
  {
    i := p;
    if a.Finish? {
      i := PrunedFromPlace(maxHistory, EndedList(q, a.failed), p);
    }
  }

  // ------------------------------------------------------------------- runs

  /** Step k ends a job of that id. */
  ghost predicate Ends(states: seq<State>, actions: seq<Action>, k: nat, id: string) {
    && k < |actions| < |states| && actions[k].Finish?
    && Enabled(states[k], actions[k]) && states[k].jobs[states[k].worker.index].id == id
  }

  /** Where the job that step k ends is listed in states[m], if it is. */
  ghost function Place(maxHistory: nat, states: seq<State>, actions: seq<Action>, k: nat, m: nat): Option<nat>
    requires Run(maxHistory, states, actions) && k <= m < |states|
    requires k < |actions| && actions[k].Finish?
    decreases m
  {
    assert m > 0 ==> Takes(maxHistory, states[m - 1], actions[m - 1], states[m]);
    assert Takes(maxHistory, states[k], actions[k], states[k + 1]);
    if m == k then Some(states[k].worker.index)
    else
      match Place(maxHistory, states, actions, k, m - 1)
      case None => None
      case Some(i) => if i < |states[m - 1].jobs| then Moved(maxHistory, states[m - 1], actions[m - 1], i) else None
  }

  /** At step j, which ends some job, the job that step k ended is among the
      finished entries that fit. */
  ghost predicate SparedAt(maxHistory: nat, states: seq<State>, actions: seq<Action>, k: nat, j: nat)
    requires Run(maxHistory, states, actions) && k <= j < |actions| && actions[k].Finish? && actions[j].Finish?
  {
    assert Takes(maxHistory, states[j], actions[j], states[j + 1]);
    var place := Place(maxHistory, states, actions, k, j);
    && place.Some? && place.value < |states[j].jobs|
    && Spared(maxHistory, EndedList(states[j], actions[j].failed), place.value)
  }

  /** The place of an ended job holds a job of its id with its outcome. */
  lemma {:induction false} PlaceHolds(maxHistory: nat, states: seq<State>, actions: seq<Action>, k: nat, m: nat)
    requires Run(maxHistory, states, actions) && k <= m < |states| && k < |actions| && actions[k].Finish?
    ensures Enabled(states[k], actions[k])
    ensures Place(maxHistory, states, actions, k, m).Some? ==>
      var p := Place(maxHistory, states, actions, k, m).value;
      && p < |states[m].jobs| && states[m].jobs[p].id == states[k].jobs[states[k].worker.index].id
      && (m > k ==> states[m].jobs[p].status == if actions[k].failed then Failed else Done)
  {
    hide Next, Moved, Waiting;
    assert Takes(maxHistory, states[k], actions[k], states[k + 1]);
    if m > k {
      PlaceHolds(maxHistory, states, actions, k, m - 1);
      assert Takes(maxHistory, states[m - 1], actions[m - 1], states[m]);
      QueueHistory(maxHistory, states, actions, m - 1);
      var before := Place(maxHistory, states, actions, k, m - 1);
      if before.Some? {
        var moved := Moved(maxHistory, states[m - 1], actions[m - 1], before.value);
        if moved.Some? {
          StepMoves(maxHistory, states[m - 1], actions[m - 1], before.value, moved.value);
        }
      }
    }
  }

  /** Each time a job ended since step k, the job it ended was among the entries
      that fit. */
  ghost predicate SparedSince(maxHistory: nat, states: seq<State>, actions: seq<Action>, k: nat, m: nat)
    requires Run(maxHistory, states, actions) && k < m < |states| && actions[k].Finish?
  {
    forall j :: k <= j < m && actions[j].Finish? ==> SparedAt(maxHistory, states, actions, k, j)
  }

  lemma PlaceStep(maxHistory: nat, states: seq<State>, actions: seq<Action>, k: nat, m: nat)
    requires Run(maxHistory, states, actions) && k <= m < |actions| && actions[k].Finish?
    ensures Place(maxHistory, states, actions, k, m + 1).Some?
      <==> Place(maxHistory, states, actions, k, m).Some?
           && (actions[m].Finish? ==> SparedAt(maxHistory, states, actions, k, m))
  {
    assert Takes(maxHistory, states[m], actions[m], states[m + 1]);
    PlaceHolds(maxHistory, states, actions, k, m);
  }

  /** Only pruning loses a finished job: it is listed exactly as long as it has
      been spared. */
  lemma {:induction false} ListedWhileSpared(maxHistory: nat, states: seq<State>, actions: seq<Action>, k: nat, m: nat)
    requires Run(maxHistory, states, actions) && k < m < |states| && actions[k].Finish?
    ensures Place(maxHistory, states, actions, k, m).Some? <==> SparedSince(maxHistory, states, actions, k, m)
  {
    hide Place, SparedAt;
    PlaceStep(maxHistory, states, actions, k, m - 1);
    if m - 1 > k {
      ListedWhileSpared(maxHistory, states, actions, k, m - 1);
    } else {
      PlaceStarts(maxHistory, states, actions, k);
    }
  }

  lemma PlaceStarts(maxHistory: nat, states: seq<State>, actions: seq<Action>, k: nat)
    requires Run(maxHistory, states, actions) && k < |actions| && actions[k].Finish?
    ensures Place(maxHistory, states, actions, k, k).Some?
  {
  }

  /** Every finished job listed has been ended by some step. */
  lemma {:induction false} ListedHasEnded(maxHistory: nat, states: seq<State>, actions: seq<Action>, m: nat, p: nat)
    returns (k: nat)
    requires Run(maxHistory, states, actions) && m < |states|
    requires p < |states[m].jobs| && !IsActive(states[m].jobs[p])
    ensures k < m && Ends(states, actions, k, states[m].jobs[p].id)
    ensures Place(maxHistory, states, actions, k, m) == Some(p)
  {
    hide Next, Moved, Waiting;
    assert m > 0;
    assert Takes(maxHistory, states[m - 1], actions[m - 1], states[m]);
    QueueHistory(maxHistory, states, actions, m - 1);
    var i := StepMovedFrom(maxHistory, states[m - 1], actions[m - 1], p);
    if IsActive(states[m - 1].jobs[i]) {
      k := m - 1;
    } else {
      k := ListedHasEnded(maxHistory, states, actions, m - 1, i);
    }
  }

  // ------------------------------------------------------------------- Wait

  /** The first job of that id decides. */
  lemma {:induction false} WaitAnswerMeaning(jobs: seq<Job>, id: string)
    ensures WaitAnswer(jobs, id) == Some(true) <==> exists p :: FirstFinished(jobs, id, p)
    ensures WaitAnswer(jobs, id) == Some(false) <==> forall p :: 0 <= p < |jobs| ==> jobs[p].id != id
  {
    if p :| 0 <= p < |jobs| && jobs[p].id == id {
      var first := FirstOf(jobs, id, p);
      FirstWith(jobs, id, first);
      if !IsActive(jobs[first]) {
        assert FirstFinished(jobs, id, first);
      }
    } else {
      NoneWith(jobs, id);
    }
  }

  lemma {:induction false} FirstOf(jobs: seq<Job>, id: string, p: nat) returns (first: nat)
    requires p < |jobs| && jobs[p].id == id
    ensures first <= p && jobs[first].id == id && forall k :: 0 <= k < first ==> jobs[k].id != id
  {
    if k: nat :| k < p && jobs[k].id == id {
      first := FirstOf(jobs, id, k);
    } else {
      first := p;
    }
  }

  /** A finished job of that id with no active one of that id before it. */
  ghost predicate FirstFinished(jobs: seq<Job>, id: string, p: nat) {
    && p < |jobs| && jobs[p].id == id && !IsActive(jobs[p])
    && forall k :: 0 <= k < p && jobs[k].id == id ==> !IsActive(jobs[k])
  }

  /** The job that step k ends bears the id and is listed in states[m], with no
      active job of that id before it. */
  ghost predicate Answering(maxHistory: nat, states: seq<State>, actions: seq<Action>, m: nat, id: string, k: nat)
    requires Run(maxHistory, states, actions) && m < |states|
  {
    && k < m && Ends(states, actions, k, id)
    && Place(maxHistory, states, actions, k, m).Some?
    && FirstFinished(states[m].jobs, id, Place(maxHistory, states, actions, k, m).value)
  }

  ghost predicate Gone(maxHistory: nat, states: seq<State>, actions: seq<Action>, m: nat, k: nat)
    requires Run(maxHistory, states, actions) && k < m < |states| && actions[k].Finish?
  {
    Place(maxHistory, states, actions, k, m).None?
  }

  /** A look of Wait at any moment of any run, identifiers repeated or not. It
      answers true exactly when a job of that id has ended and is still listed,
      with no active one of that id before it; and it answers false, not found,
      exactly when every job of that id that has ended has been pruned away and
      no active one is listed. */
  lemma WaitOverRun(maxHistory: nat, states: seq<State>, actions: seq<Action>, m: nat, id: string)
    requires Run(maxHistory, states, actions) && m < |states|
    ensures WaitAnswer(states[m].jobs, id) == Some(true)
      <==> exists k :: Answering(maxHistory, states, actions, m, id, k)
    ensures WaitAnswer(states[m].jobs, id) == Some(false)
      <==> && (forall k :: 0 <= k < m && Ends(states, actions, k, id) ==> Gone(maxHistory, states, actions, m, k))
           && (forall p :: 0 <= p < |states[m].jobs| && IsActive(states[m].jobs[p]) ==> states[m].jobs[p].id != id)
  {
    var jobs := states[m].jobs;
    WaitAnswerMeaning(jobs, id);
    if p: nat :| FirstFinished(jobs, id, p) {
      var k := ListedHasEnded(maxHistory, states, actions, m, p);
      assert Answering(maxHistory, states, actions, m, id, k);
    }
    if k: nat :| k < m && Ends(states, actions, k, id) && !Gone(maxHistory, states, actions, m, k) {
      PlaceHolds(maxHistory, states, actions, k, m);
      assert jobs[Place(maxHistory, states, actions, k, m).value].id == id;
    }
    if p: nat :| p < |jobs| && jobs[p].id == id && !IsActive(jobs[p]) {
      var k := ListedHasEnded(maxHistory, states, actions, m, p);
      assert !Gone(maxHistory, states, actions, m, k);
    }
  }

  /** For a job that step k ends and whose id no other listed job bears: Wait
      answers true exactly as long as the job has been among the finished
      entries that fit, each time a job ended since; then it answers false. */
  lemma WaitForEnded(maxHistory: nat, states: seq<State>, actions: seq<Action>, k: nat, m: nat, id: string)
    requires Run(maxHistory, states, actions) && k < m < |states| && Ends(states, actions, k, id)
    requires forall p :: 0 <= p < |states[m].jobs| && states[m].jobs[p].id == id ==>
      Place(maxHistory, states, actions, k, m) == Some(p)
    ensures WaitAnswer(states[m].jobs, id)
      == Some(SparedSince(maxHistory, states, actions, k, m))
  {
    ListedWhileSpared(maxHistory, states, actions, k, m);
    PlaceHolds(maxHistory, states, actions, k, m);
    WaitAnswerMeaning(states[m].jobs, id);
    var place := Place(maxHistory, states, actions, k, m);
    if place.Some? {
      assert FirstFinished(states[m].jobs, id, place.value);
    }
  }

  // -------------------------------------------------------- it does happen

  /** With a history of one, Wait misses the second job right after it has run. */
  lemma FinishedJobCanBeMissed() returns (states: seq<State>, actions: seq<Action>)
    ensures Run(1, states, actions) && |actions| > 0 && Ends(states, actions, |actions| - 1, "b")
    ensures WaitAnswer(states[|actions|].jobs, "b") == Some(false)
  {
    hide Run, Pruned;
    states, actions := FirstJobRun(1);
    states, actions := JobAppended(1, states, actions, "b", 1);
    states, actions := NextJobPicked(1, states, actions, 1);
    var q := states[|actions|];
    var ended := EndedList(q, false);
    assert ended == [Job("a", Done, None), Job("b", Done, None)];
    states, actions := Extended(1, states, actions, Finish(false));
    TwoFinished(ended);
    NoneWith(states[|actions|].jobs, "b");
  }

  /** With a history of two, Wait would find the first job right after it has
      run, and misses it once another job has ended while two more wait. */
  lemma FinishedJobMissedLater() returns (states: seq<State>, actions: seq<Action>, k: nat)
    ensures Run(2, states, actions) && k < |actions| && Ends(states, actions, k, "a")
    ensures WaitAnswer(states[k + 1].jobs, "a") == Some(true)
    ensures WaitAnswer(states[|actions|].jobs, "a") == Some(false)
  {
    hide Run, Pruned;
    states, actions := FirstJobRun(2);
    k := 4;
    FirstWith(states[5].jobs, "a", 0);
    states, actions := JobAppended(2, states, actions, "b", 1);
    states, actions := Extended(2, states, actions, Append("c", 2));
    states, actions := Extended(2, states, actions, Append("d", 3));
    states, actions := NextJobPicked(2, states, actions, 1);
    var ended := EndedList(states[|actions|], false);
    var a, b, c, d := Job("a", Done, None), Job("b", Done, None), Job("c", Pending, Some(2)), Job("d", Pending, Some(3));
    assert ended == [a, b, c, d];
    states, actions := Extended(2, states, actions, Finish(false));
    TwoAndTwo(ended);
    NoneWith(states[|actions|].jobs, "a");
  }

  lemma TwoFinished(jobs: seq<Job>)
    requires |jobs| == 2 && !IsActive(jobs[0]) && !IsActive(jobs[1])
    ensures Pruned(1, jobs) == [jobs[0]]
  {
    FilterNone(ActiveJob(), jobs);
    FilterAll(FinishedJob(), jobs);
  }

  lemma TwoAndTwo(jobs: seq<Job>)
    requires |jobs| == 4
    requires !IsActive(jobs[0]) && !IsActive(jobs[1]) && IsActive(jobs[2]) && IsActive(jobs[3])
    ensures Pruned(2, jobs) == [jobs[2], jobs[3]]
  {
    assert jobs == jobs[..2] + jobs[2..];
    FilterConcat(ActiveJob(), jobs[..2], jobs[2..]);
    FilterNone(ActiveJob(), jobs[..2]);
    FilterAll(ActiveJob(), jobs[2..]);
  }

  /** One job, submitted and run. */
  lemma FirstJobRun(maxHistory: nat) returns (states: seq<State>, actions: seq<Action>)
    requires maxHistory >= 1
    ensures Run(maxHistory, states, actions) && |states| == 6 && |actions| == 5 && Ends(states, actions, 4, "a")
    ensures states[5] == State([Job("a", Done, None)], false, Signalling, 0, [0], [0])
  {
    states, actions := [INITIAL], [];
    states, actions := Extended(maxHistory, states, actions, Append("a", 0));
    states, actions := Extended(maxHistory, states, actions, SubmitterSignal);
    states, actions := Extended(maxHistory, states, actions, Wake);
    states, actions := Extended(maxHistory, states, actions, Pick);
    assert states[4] == State([Job("a", Running, Some(0))], false, Busy(0), 0, [0], [0]);
    states, actions := Extended(maxHistory, states, actions, Finish(false));
  }

  /** After a job has ended the worker signals, and another job is submitted. */
  lemma JobAppended(maxHistory: nat, states0: seq<State>, actions0: seq<Action>, id: string, fn: nat)
    returns (states: seq<State>, actions: seq<Action>)
    requires Run(maxHistory, states0, actions0) && states0[|actions0|].worker == Signalling
    ensures Run(maxHistory, states, actions) && |states| == |actions| + 1 && states0 <= states && actions0 <= actions
    ensures var q, q' := states0[|actions0|], states[|actions|];
      q' == q.(jobs := Submitted(q.jobs, id, fn), token := true, worker := Idle, signalling := q.signalling + 1,
               submitted := q.submitted + [fn])
  {
    states, actions := Extended(maxHistory, states0, actions0, WorkerSignal);
    states, actions := Extended(maxHistory, states, actions, Append(id, fn));
  }

  /** The token wakes the worker, which picks the first pending job. */
  lemma NextJobPicked(maxHistory: nat, states0: seq<State>, actions0: seq<Action>, i: nat)
    returns (states: seq<State>, actions: seq<Action>)
    requires Run(maxHistory, states0, actions0)
    requires states0[|actions0|].worker == Idle && states0[|actions0|].token
    requires i < |states0[|actions0|].jobs| && states0[|actions0|].jobs[i].status == Pending
    requires forall k :: 0 <= k < i ==> states0[|actions0|].jobs[k].status != Pending
    ensures Run(maxHistory, states, actions) && |states| == |actions| + 1 && states0 <= states && actions0 <= actions
    ensures states[|actions|].jobs == Started(states0[|actions0|].jobs, i) && states[|actions|].worker == Busy(i)
  {
    states, actions := Extended(maxHistory, states0, actions0, Wake);
    assert FirstPending(states[|actions|].jobs) == i;
    states, actions := Extended(maxHistory, states, actions, Pick);
  }
}
