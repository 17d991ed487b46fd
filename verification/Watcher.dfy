/** The debounced file watcher (internal/watcher/watcher.go): its locked sections
    and every interleaving of them with timers and deliveries. */
module Watcher {
  import opened Common

  /** The watcher's fields and the runtime's timers: `armed` will fire unless
      stopped, `fired` counts flushes started but not yet in their locked section. */
  datatype Core = Core(
    running: bool,
    pending: set<string>,
    timer: Option<nat>,
    armed: set<nat>,
    fired: nat,
    nextTimer: nat)

  /** timer.Stop(): no effect on a timer that has already fired. */
  function Disarmed(c: Core): set<nat> {
    if c.timer.Some? then c.armed - {c.timer.value} else c.armed
  }

  function Handled(c: Core, path: string, watched: bool): Core {
    if !c.running || !watched then c
    else
      c.(pending := c.pending + {path}, timer := Some(c.nextTimer), armed := Disarmed(c) + {c.nextTimer},
         nextTimer := c.nextTimer + 1)
  }

  /** The locked part of Stop and of Start. */
  function Cleared(c: Core): Core {
    c.(pending := {}, timer := None, armed := Disarmed(c))
  }

  function Flushed(c: Core): Core
    requires c.fired > 0
  {
    c.(pending := {}, timer := None, fired := c.fired - 1)
  }

  class Watcher {
    var running: bool
    var pending: set<string>
    var timer: Option<nat>
    var armed: set<nat>
    var fired: nat
    var nextTimer: nat

    constructor ()
      ensures View() == Core(false, {}, None, {}, 0, 0)
    {
      running := false;
      pending := {};
      timer := None;
      armed := {};
      fired := 0;
      nextTimer := 0;
    }

    ghost function View(): Core
      reads this
    {
      Core(running, pending, timer, armed, fired, nextTimer)
    }

    method StopTimer()
      modifies this`armed
      ensures armed == Disarmed(old(View()))
    {
      if timer.Some? {
        armed := armed - {timer.value};
      }
    }

    method HandleEvent(path: string, watched: bool)
      modifies this
      ensures View() == Handled(old(View()), path, watched)
      ensures !old(running) || !watched ==> View() == old(View())
      ensures old(running) && watched ==>
        && pending == old(pending) + {path}
        && timer.Some? && timer.value in armed && timer.value == old(nextTimer)
        && armed - {timer.value} == (if old(timer).Some? then old(armed) - {old(timer).value} else old(armed)) - {timer.value}
        && running && fired == old(fired)
    {
      if !running {
        return;
      }
      if !watched {
        return;
      }
      pending := pending + {path};
      StopTimer();
      armed := armed + {nextTimer};
      timer := Some(nextTimer);
      nextTimer := nextTimer + 1;
    }

    /** Run by a fired timer; the paths returned are then delivered one by one. */
    method Flush() returns (paths: set<string>)
      requires fired > 0
      modifies this
      ensures View() == Flushed(old(View())) && paths == old(pending)
      ensures pending == {} && timer == None && armed == old(armed) && fired == old(fired) - 1
    {
      paths := pending;
      pending := {};
      timer := None;
      fired := fired - 1;
    }

    method Clear()
      modifies this
      ensures View() == Cleared(old(View()))
      ensures pending == {} && timer == None && fired == old(fired)
      ensures armed == if old(timer).Some? then old(armed) - {old(timer).value} else old(armed)
    {
      StopTimer();
      timer := None;
      pending := {};
    }
  }

  // --------------------------------------------------------- interleavings

  /** `inflight` are the paths each flush still has to deliver, by flush number. */
  datatype State = State(core: Core, inflight: map<nat, set<string>>, flushes: nat)

  const INITIAL := State(Core(false, {}, None, {}, 0, 0), map[], 0)

  datatype Action =
    | Event(path: string, watched: bool)
    | Fire(timer: nat)
    | TakePending
    | Deliver(flush: nat, path: string)
    | CancelContext
    | NewContext
    | ClearAll

  predicate Enabled(q: State, a: Action) {
    match a
    case Event(_, _) => true
    case Fire(t) => t in q.core.armed
    case TakePending => q.core.fired > 0
    case Deliver(b, p) => b in q.inflight && p in q.inflight[b]
    case CancelContext => true
    case NewContext => true
    case ClearAll => true
  }

  function Next(q: State, a: Action): State
    requires Enabled(q, a)
  {
    match a
    case Event(p, watched) => q.(core := Handled(q.core, p, watched))
    case Fire(t) => q.(core := q.core.(armed := q.core.armed - {t}, fired := q.core.fired + 1))
    case TakePending =>
      q.(core := Flushed(q.core), inflight := q.inflight[q.flushes := q.core.pending], flushes := q.flushes + 1)
    case Deliver(b, p) => q.(inflight := q.inflight[b := q.inflight[b] - {p}])
    case CancelContext => q.(core := q.core.(running := false))
    case NewContext => q.(core := q.core.(running := true))
    case ClearAll => q.(core := Cleared(q.core))
  }

  ghost predicate Takes(q: State, a: Action, q': State) {
    Enabled(q, a) && q' == Next(q, a)
  }

  ghost predicate Run(states: seq<State>, actions: seq<Action>) {
    && |states| == |actions| + 1
    && states[0] == INITIAL
    && forall i, j :: 0 <= i < |actions| && j == i + 1 ==> Takes(states[i], actions[i], states[j])
  }

  /** Pending paths have a live timer or a flush on its way. */
  ghost predicate Inv(q: State) {
    && (q.core.pending != {} ==> (q.core.timer.Some? && q.core.timer.value in q.core.armed) || q.core.fired > 0)
    && (forall b :: b in q.inflight ==> b < q.flushes)
  }

  lemma {:induction false} RunInvariant(states: seq<State>, actions: seq<Action>, i: nat)
    requires Run(states, actions) && i < |states|
    ensures Inv(states[i])
  {
    if i > 0 {
      RunInvariant(states, actions, i - 1);
      assert Takes(states[i - 1], actions[i - 1], states[i]);
    }
  }

  /** Whatever is pending can be flushed: its timer can fire or a flush can run,
      and everything a flush took can be delivered. */
  lemma PendingCanBeFlushed(states: seq<State>, actions: seq<Action>, i: nat)
    requires Run(states, actions) && i < |states| && states[i].core.pending != {}
    ensures Enabled(states[i], TakePending) || (states[i].core.timer.Some? && Enabled(states[i], Fire(states[i].core.timer.value)))
  {
    RunInvariant(states, actions, i);
  }

  ghost predicate Undelivered(q: State, since: nat, p: string) {
    exists b :: since <= b && b in q.inflight && p in q.inflight[b]
  }

  ghost predicate DeliveredBy(actions: seq<Action>, i: nat, j: nat, since: nat, p: string) {
    exists k :: i < k < j <= |actions| && actions[k].Deliver? && actions[k].path == p && since <= actions[k].flush
  }

  ghost predicate DiscardedBy(actions: seq<Action>, i: nat, j: nat) {
    exists k :: i < k < j <= |actions| && actions[k] == ClearAll
  }

  /** No event is lost: a path recorded at step i is, at any later time j, still
      pending (and then about to be flushed), in the hands of a flush that took
      it after step i, delivered by such a flush, or discarded by a later Stop
      or Start. */
  lemma {:induction false} NoEventLost(states: seq<State>, actions: seq<Action>, i: nat, p: string, j: nat)
    requires Run(states, actions) && i < j < |states|
    requires actions[i] == Event(p, true) && states[i].core.running
    ensures Inv(states[j])
    ensures var since := states[i].flushes;
      || p in states[j].core.pending
      || Undelivered(states[j], since, p)
      || DeliveredBy(actions, i, j, since, p)
      || DiscardedBy(actions, i, j)
    ensures states[i].flushes <= states[j].flushes
    decreases j
  {
    var since := states[i].flushes;
    RunInvariant(states, actions, j);
    assert Takes(states[j - 1], actions[j - 1], states[j]);
    if j > i + 1 {
      NoEventLost(states, actions, i, p, j - 1);
      RunInvariant(states, actions, j - 1);
      if p in states[j - 1].core.pending || Undelivered(states[j - 1], since, p) {
        StaysAccounted(states[j - 1], actions[j - 1], states[j], since, p);
      }
      if DeliveredBy(actions, i, j - 1, since, p) {
        var k :| i < k < j - 1 <= |actions| && actions[k].Deliver? && actions[k].path == p && since <= actions[k].flush;
        assert DeliveredBy(actions, i, j, since, p);
      }
      if DiscardedBy(actions, i, j - 1) {
        var k :| i < k < j - 1 <= |actions| && actions[k] == ClearAll;
        assert DiscardedBy(actions, i, j);
      }
    }
  }

  lemma StaysAccounted(q: State, a: Action, q': State, since: nat, p: string)
    requires Takes(q, a, q') && Inv(q) && since <= q.flushes
    requires p in q.core.pending || Undelivered(q, since, p)
    ensures
      || p in q'.core.pending
      || Undelivered(q', since, p)
      || (a.Deliver? && a.path == p && since <= a.flush)
      || a == ClearAll
  {
    if Undelivered(q, since, p) {
      var b :| since <= b && b in q.inflight && p in q.inflight[b];
      assert (a.Deliver? && a.path == p && a.flush == b) || (b in q'.inflight && p in q'.inflight[b]);
    } else if a.TakePending? {
      assert q.flushes in q'.inflight && p in q'.inflight[q.flushes];
    }
  }

  // ------------------------------------------------------------- debouncing

  /** At most one timer is live, and it is the one the watcher would stop. */
  ghost predicate Debounced(c: Core) {
    forall t :: t in c.armed ==> c.timer == Some(t)
  }

  /** Step k is a flush that forgets a timer which is still to fire: one that an
      event has set between the firing of the old timer and its flush. */
  ghost predicate Overtakes(states: seq<State>, actions: seq<Action>, k: nat)
    requires k < |actions| && k < |states|
  {
    actions[k].TakePending? && states[k].core.armed != {}
  }

  ghost predicate DebouncedThroughout(states: seq<State>, n: nat)
    requires n < |states|
  {
    forall k :: 0 <= k <= n ==> Debounced(states[k].core)
  }

  ghost predicate NeverOvertaken(states: seq<State>, actions: seq<Action>, n: nat)
    requires n <= |actions| <= |states|
  {
    forall k :: 0 <= k < n ==> !Overtakes(states, actions, k)
  }

  lemma StepDebounces(q: State, a: Action)
    requires Enabled(q, a) && Debounced(q.core)
    ensures Debounced(Next(q, a).core) <==> !(a.TakePending? && q.core.armed != {})
  {
    if a.TakePending? && q.core.armed != {} {
      var t :| t in q.core.armed;
      assert t in Next(q, a).core.armed;
    }
  }

  lemma StartsDebounced()
    ensures Debounced(INITIAL.core)
  {
  }

  lemma OvertakesMeaning(states: seq<State>, actions: seq<Action>, k: nat)
    requires k < |actions| && k < |states|
    ensures Overtakes(states, actions, k) <==> actions[k].TakePending? && states[k].core.armed != {}
  {
  }

  /** Debouncing works exactly as long as no flush is overtaken by an event: till
      then every event restarts the one live timer; after it, two can be live, and
      an event can be flushed before its quiet period is over. */
  lemma {:induction false} DebouncedExactly(states: seq<State>, actions: seq<Action>, n: nat)
    requires Run(states, actions) && n <= |actions|
    ensures DebouncedThroughout(states, n) <==> NeverOvertaken(states, actions, n)
  {
    hide Debounced, Next, Overtakes;
    if n == 0 {
      StartsDebounced();
    } else {
      DebouncedExactly(states, actions, n - 1);
      assert Takes(states[n - 1], actions[n - 1], states[n]);
      OvertakesMeaning(states, actions, n - 1);
      if Debounced(states[n - 1].core) {
        StepDebounces(states[n - 1], actions[n - 1]);
      }
    }
  }

  /** It happens: a file changes again while the flush of its last change waits for
      the lock, and once more after it; then two timers are live. */
  lemma TwoTimersLive(p: string) returns (states: seq<State>, actions: seq<Action>)
    ensures Run(states, actions)
    ensures actions == [NewContext, Event(p, true), Fire(0), Event(p, true), TakePending, Event(p, true)]
    ensures states[|actions|].core.armed == {1, 2} && states[|actions|].core.timer == Some(2)
  {
    actions := [NewContext, Event(p, true), Fire(0), Event(p, true), TakePending, Event(p, true)];
    var q0 := INITIAL;
    var q1 := Next(q0, NewContext);
    var q2 := Next(q1, Event(p, true));
    assert q2.core.armed == {0};
    var q3 := Next(q2, Fire(0));
    var q4 := Next(q3, Event(p, true));
    var q5 := Next(q4, TakePending);
    var q6 := Next(q5, Event(p, true));
    states := [q0, q1, q2, q3, q4, q5, q6];
    assert q6.core.armed == {1, 2};
  }

  // ------------------------------------------------------ nothing made up

  /** The path was recorded by some event before step n. */
  ghost predicate Recorded(states: seq<State>, actions: seq<Action>, n: nat, p: string)
    requires n <= |actions| <= |states|
  {
    exists k :: 0 <= k < n && actions[k] == Event(p, true) && states[k].core.running
  }

  lemma OnlyEventsRecord(q: State, a: Action, p: string)
    requires Enabled(q, a) && p !in q.core.pending && !Undelivered(q, 0, p)
    requires p in Next(q, a).core.pending || Undelivered(Next(q, a), 0, p)
    ensures a == Event(p, true) && q.core.running
  {
    assert forall b :: b in q.inflight ==> p !in q.inflight[b];
  }

  lemma {:induction false} HeldWasRecorded(states: seq<State>, actions: seq<Action>, n: nat, p: string)
    requires Run(states, actions) && n <= |actions|
    requires p in states[n].core.pending || Undelivered(states[n], 0, p)
    ensures Recorded(states, actions, n, p)
  {
    assert n > 0;
    assert Takes(states[n - 1], actions[n - 1], states[n]);
    if p in states[n - 1].core.pending || Undelivered(states[n - 1], 0, p) {
      HeldWasRecorded(states, actions, n - 1, p);
      var k :| 0 <= k < n - 1 && actions[k] == Event(p, true) && states[k].core.running;
    } else {
      OnlyEventsRecord(states[n - 1], actions[n - 1], p);
    }
  }

  /** Every path delivered is one that an event recorded before. */
  lemma DeliveredWasRecorded(states: seq<State>, actions: seq<Action>, n: nat)
    requires Run(states, actions) && n < |actions| && actions[n].Deliver?
    ensures Recorded(states, actions, n, actions[n].path)
  {
    assert Takes(states[n], actions[n], states[n + 1]);
    assert Undelivered(states[n], 0, actions[n].path);
    HeldWasRecorded(states, actions, n, actions[n].path);
  }

  /** From a cancellation until the next Start nothing is recorded and no timer set. */
  lemma {:induction false} CancelledRecordsNothing(states: seq<State>, actions: seq<Action>, k: nat, j: nat)
    requires Run(states, actions) && k < j < |states| && actions[k] == CancelContext
    requires forall i :: k < i < j ==> actions[i] != NewContext
    ensures !states[j].core.running
    ensures states[j].core.pending <= states[k].core.pending && states[j].core.armed <= states[k].core.armed
  {
    assert Takes(states[j - 1], actions[j - 1], states[j]);
    if k < j - 1 {
      CancelledRecordsNothing(states, actions, k, j - 1);
    }
  }

  // --------------------------------------------------------------- progress

  /** Steps that need no event and no Stop or Start: timers firing, flushes
      taking what is pending, and deliveries. */
  predicate Internal(a: Action) {
    a.Fire? || a.TakePending? || a.Deliver?
  }

  /** Deliveries outstanding in the first n flushes. */
  function Backlog(inflight: map<nat, set<string>>, n: nat): nat {
    if n == 0 then 0 else Backlog(inflight, n - 1) + (if n - 1 in inflight then |inflight[n - 1]| else 0)
  }

  /** A bound on the internal steps still to come. */
  function Effort(q: State): nat {
    2 * |q.core.armed| + q.core.fired + |q.core.pending| + Backlog(q.inflight, q.flushes)
  }

  lemma {:induction false} BacklogBelow(inflight: map<nat, set<string>>, b: nat, paths: set<string>, n: nat)
    requires n <= b
    ensures Backlog(inflight[b := paths], n) == Backlog(inflight, n)
  {
    if n > 0 {
      BacklogBelow(inflight, b, paths, n - 1);
    }
  }

  lemma {:induction false} BacklogShrinks(inflight: map<nat, set<string>>, b: nat, p: string, n: nat)
    requires b in inflight && p in inflight[b] && b < n
    ensures Backlog(inflight[b := inflight[b] - {p}], n) == Backlog(inflight, n) - 1
  {
    if b == n - 1 {
      BacklogBelow(inflight, b, inflight[b] - {p}, n - 1);
    } else {
      BacklogShrinks(inflight, b, p, n - 1);
    }
  }

  lemma StepCostsEffort(q: State, a: Action)
    requires Inv(q) && Enabled(q, a) && Internal(a)
    ensures Effort(Next(q, a)) < Effort(q)
  {
    match a {
      case TakePending => BacklogBelow(q.inflight, q.flushes, q.core.pending, q.flushes);
      case Deliver(b, p) => BacklogShrinks(q.inflight, b, p, q.flushes);
      case _ =>
    }
  }

  /** Every step keeps the invariant, from any state that has it. */
  lemma StepKeepsInv(q: State, a: Action)
    requires Inv(q) && Enabled(q, a)
    ensures Inv(Next(q, a))
  {
  }

  /** Nothing is left to fire, flush or deliver. */
  ghost predicate Quiet(q: State) {
    forall a :: Internal(a) ==> !Enabled(q, a)
  }

  lemma QuietMeansDelivered(q: State)
    requires Inv(q) && Quiet(q)
    ensures q.core.pending == {}
    ensures forall since, p :: !Undelivered(q, since, p)
  {
    assert Internal(TakePending) && !Enabled(q, TakePending);
    if q.core.timer.Some? {
      var fire := Fire(q.core.timer.value);
      assert Internal(fire) && !Enabled(q, fire);
    }
    forall since: nat, p
      ensures !Undelivered(q, since, p)
    {
      if Undelivered(q, since, p) {
        var b :| since <= b && b in q.inflight && p in q.inflight[b];
        assert Internal(Deliver(b, p));
        assert Enabled(q, Deliver(b, p));
      }
    }
  }

  /** Left alone, the watcher settles: no more than Effort internal steps can
      follow a state of a run. */
  lemma {:induction false} WatcherSettles(states: seq<State>, actions: seq<Action>)
    requires |states| == |actions| + 1 && Inv(states[0])
    requires forall i :: 0 <= i < |actions| ==> Internal(actions[i])
    requires forall i, j :: 0 <= i < |actions| && j == i + 1 ==> Takes(states[i], actions[i], states[j])
    ensures |actions| + Effort(states[|actions|]) <= Effort(states[0])
    ensures Inv(states[|actions|])
    decreases |actions|
  {
    var n := |actions|;
    if n > 0 {
      var before, a := states[n - 1], actions[n - 1];
      assert Takes(before, a, states[n]);
      var front, earlier := actions[..n - 1], states[..n];
      forall i, j | 0 <= i < |front| && j == i + 1
        ensures Takes(earlier[i], front[i], earlier[j])
      {
        assert Takes(states[i], actions[i], states[j]);
      }
      WatcherSettles(earlier, front);
      StepCostsEffort(before, a);
      StepKeepsInv(before, a);
    }
  }

  /** When everything has settled, each recorded event that no Stop or Start
      discarded has been delivered after it was recorded. */
  lemma SettledMeansDelivered(states: seq<State>, actions: seq<Action>, i: nat, p: string)
    requires Run(states, actions) && i < |actions| && Quiet(states[|actions|])
    requires actions[i] == Event(p, true) && states[i].core.running
    ensures DeliveredBy(actions, i, |actions|, states[i].flushes, p) || DiscardedBy(actions, i, |actions|)
  {
    NoEventLost(states, actions, i, p, |actions|);
    QuietMeansDelivered(states[|actions|]);
  }
}
