/** The job queue: submitters and one worker that drops the lock while a job
    runs (internal/jobs/queue.go). */
module JobQueue {
  import opened Common

  datatype Status = Pending | Running | Done | Failed

  /** `fn` is the work of the job, dropped when it has finished. */
  datatype Job = Job(id: string, status: Status, fn: Option<nat>)

  predicate IsActive(j: Job) {
    j.status == Pending || j.status == Running
  }

  function ActiveJob(): Job -> bool {
    (j: Job) => IsActive(j)
  }

  function FinishedJob(): Job -> bool {
    (j: Job) => !IsActive(j)
  }

  // ------------------------------------------------ what each section does

  function FirstPending(jobs: seq<Job>): (i: nat)
    ensures i <= |jobs|
    ensures i < |jobs| ==> jobs[i].status == Pending
    ensures forall k :: 0 <= k < i ==> jobs[k].status != Pending
  {
    if jobs == [] then 0
    else
      var n := |jobs| - 1;
      var i := FirstPending(jobs[..n]);
      if i < n then i else if jobs[n].status == Pending then n else n + 1
  }

  function Submitted(jobs: seq<Job>, id: string, fn: nat): seq<Job> {
    jobs + [Job(id, Pending, Some(fn))]
  }

  function Started(jobs: seq<Job>, i: nat): seq<Job>
    requires i < |jobs|
  {
    jobs[i := jobs[i].(status := Running)]
  }

  function Ended(jobs: seq<Job>, i: nat, failed: bool): seq<Job>
    requires i < |jobs|
  {
    jobs[i := jobs[i].(status := if failed then Failed else Done, fn := None)]
  }

  /** How many finished jobs fit beside the active ones. */
  function Room(maxHistory: nat, jobs: seq<Job>): nat {
    Max(0, maxHistory - |Filter(ActiveJob(), jobs)|)
  }

  /** All active jobs in order, then the earliest finished ones that fit. */
  function Pruned(maxHistory: nat, jobs: seq<Job>): seq<Job> {
    if |jobs| <= maxHistory then jobs
    else Filter(ActiveJob(), jobs) + Take(Filter(FinishedJob(), jobs), Room(maxHistory, jobs))
  }

  /** What a list of jobs is cut down to: a finished job goes only when the list
      is full. Active jobs stay, in order; of the finished ones the earliest, as
      many as bring the list to the limit. */
  ghost predicate Retains(maxHistory: nat, before: seq<Job>, after: seq<Job>) {
    var active := Filter(ActiveJob(), before);
    && (forall j :: j in before && (j.status == Pending || j.status == Running) ==> j in after)
    && |after| == Min(|before|, Max(maxHistory, |active|))
    && (if |before| <= maxHistory then after == before
        else active <= after && after[|active|..] <= Filter(FinishedJob(), before))
  }

  lemma {:induction false} TwoKinds(jobs: seq<Job>)
    ensures |jobs| == |Filter(ActiveJob(), jobs)| + |Filter(FinishedJob(), jobs)|
  {
    if jobs != [] {
      TwoKinds(jobs[..|jobs| - 1]);
    }
  }

  lemma PrunedRetains(maxHistory: nat, jobs: seq<Job>)
    ensures Retains(maxHistory, jobs, Pruned(maxHistory, jobs))
  {
    var active := Filter(ActiveJob(), jobs);
    FilterMembers(ActiveJob(), jobs);
    TwoKinds(jobs);
    if |jobs| > maxHistory {
      var after := Pruned(maxHistory, jobs);
      assert after[|active|..] == Take(Filter(FinishedJob(), jobs), Room(maxHistory, jobs));
    }
  }

  // ------------------------------------------------------------- the class

  class Queue {
    var jobs: seq<Job>
    var notify: bool
    const maxHistory: nat

    constructor (maxHistory: int)
      ensures jobs == [] && !notify
      ensures this.maxHistory == if maxHistory <= 0 then 20 else maxHistory
    {
      this.maxHistory := if maxHistory <= 0 then 20 else maxHistory;
      jobs := [];
      notify := false;
    }

    /** The locked half of SubmitWithID; Signal follows. */
    method Append(id: string, fn: nat)
      modifies this`jobs
      ensures jobs == Submitted(old(jobs), id, fn)
      ensures |jobs| == |old(jobs)| + 1 && old(jobs) <= jobs
      ensures var j := jobs[|old(jobs)|]; j.id == id && j.status == Pending && j.fn == Some(fn)
    {
      jobs := jobs + [Job(id, Pending, Some(fn))];
    }

    /** A non-blocking send on a channel of capacity one. */
    method Signal()
      modifies this`notify
      ensures notify
    {
      notify := true;
    }

    /** The first locked section of processNext. */
    method PickNext() returns (idx: int)
      modifies this`jobs
      ensures idx == -1 <==> FirstPending(old(jobs)) == |jobs|
      ensures idx == -1 ==> jobs == old(jobs) && forall k :: 0 <= k < |jobs| ==> jobs[k].status != Pending
      ensures idx != -1 ==> idx == FirstPending(old(jobs)) < |old(jobs)| && jobs == Started(old(jobs), idx)
      ensures idx != -1 ==>
        && |jobs| == |old(jobs)| && old(jobs)[idx].status == Pending
        && (forall k :: 0 <= k < idx ==> old(jobs)[k].status != Pending)
        && (forall k :: 0 <= k < |jobs| && k != idx ==> jobs[k] == old(jobs)[k])
        && jobs[idx].status == Running && jobs[idx].id == old(jobs)[idx].id && jobs[idx].fn == old(jobs)[idx].fn
    {
      idx := -1;
      for i := 0 to |jobs|
        invariant idx == -1 && forall k :: 0 <= k < i ==> jobs[k].status != Pending
        invariant jobs == old(jobs)
      {
        if jobs[i].status == Pending {
          idx := i;
          break;
        }
      }
      if idx == -1 {
        return;
      }
      jobs := jobs[idx := jobs[idx].(status := Running)];
    }

    /** The second locked section of processNext, with the index saved before
        the lock was dropped. */
    method FinishJob(idx: nat, failed: bool)
      requires idx < |jobs|
      modifies this`jobs
      ensures jobs == Pruned(maxHistory, Ended(old(jobs), idx, failed))
      ensures var j := old(jobs)[idx];
        Retains(maxHistory, old(jobs)[idx := Job(j.id, if failed then Failed else Done, None)], jobs)
    {
      jobs := jobs[idx := jobs[idx].(status := if failed then Failed else Done)];
      jobs := jobs[idx := jobs[idx].(fn := None)];
      assert jobs == Ended(old(jobs), idx, failed);
      Prune();
    }

    method Prune()
      modifies this`jobs
      ensures jobs == Pruned(maxHistory, old(jobs)) && Retains(maxHistory, old(jobs), jobs)
    {
      PrunedRetains(maxHistory, jobs);
      if |jobs| <= maxHistory {
        return;
      }
      var all := jobs;
      var kept: seq<Job> := [];
      for i := 0 to |all|
        invariant kept == Filter(ActiveJob(), all[..i])
      {
        FilterStep(ActiveJob(), all, i);
        if all[i].status == Pending || all[i].status == Running {
          kept := kept + [all[i]];
        }
      }
      assert all[..|all|] == all;
      jobs := KeepFinished(maxHistory, all, kept);
    }

    /** The second loop of prune: finished jobs from the oldest on, until the
        list is full. */
    static method KeepFinished(maxHistory: nat, all: seq<Job>, active: seq<Job>) returns (kept: seq<Job>)
      requires active == Filter(ActiveJob(), all)
      ensures kept == active + Take(Filter(FinishedJob(), all), Room(maxHistory, all))
    {
      kept := active;
      ghost var room := Room(maxHistory, all);
      var i := 0;
      while i < |all|
        invariant 0 <= i <= |all|
        invariant |Filter(FinishedJob(), all[..i])| <= room
        invariant kept == active + Filter(FinishedJob(), all[..i])
      {
        FilterStep(FinishedJob(), all, i);
        ghost var before := Filter(FinishedJob(), all[..i]);
        if all[i].status == Done || all[i].status == Failed {
          if |kept| >= maxHistory {
            break;
          }
          kept := kept + [all[i]];
          assert kept == active + (before + [all[i]]);
        }
        i := i + 1;
      }
      KeptIsPrefix(all, i, room);
    }

    method RunningJobID() returns (id: string)
      ensures if exists i :: 0 <= i < |jobs| && jobs[i].status == Running
        then exists i :: 0 <= i < |jobs| && jobs[i].status == Running && jobs[i].id == id
        else id == ""
    {
      for i := 0 to |jobs|
        invariant forall k :: 0 <= k < i ==> jobs[k].status != Running
      {
        if jobs[i].status == Running {
          return jobs[i].id;
        }
      }
      return "";
    }

    /** One round of Wait: an answer, or None to go on waiting. */
    method WaitOnce(id: string) returns (answer: Option<bool>)
      ensures answer == WaitAnswer(jobs, id)
      ensures answer == Some(false) <==> forall k :: 0 <= k < |jobs| ==> jobs[k].id != id
      ensures answer == Some(true) <==> exists i ::
        && 0 <= i < |jobs| && jobs[i].id == id && (jobs[i].status == Done || jobs[i].status == Failed)
        && forall k :: 0 <= k < i ==> jobs[k].id != id
    {
      for i := 0 to |jobs|
        invariant forall k :: 0 <= k < i ==> jobs[k].id != id
      {
        if jobs[i].id == id {
          FirstWith(jobs, id, i);
          return if jobs[i].status == Done || jobs[i].status == Failed then Some(true) else None;
        }
      }
      NoneWith(jobs, id);
      return Some(false);
    }
  }

  /** The first job of that id decides. */
  function WaitAnswer(jobs: seq<Job>, id: string): Option<bool> {
    if jobs == [] then Some(false)
    else if jobs[0].id == id then if IsActive(jobs[0]) then None else Some(true)
    else WaitAnswer(jobs[1..], id)
  }

  lemma {:induction false} FirstWith(jobs: seq<Job>, id: string, i: nat)
    requires i < |jobs| && jobs[i].id == id && forall k :: 0 <= k < i ==> jobs[k].id != id
    ensures WaitAnswer(jobs, id) == if IsActive(jobs[i]) then None else Some(true)
  {
    if i > 0 {
      FirstWith(jobs[1..], id, i - 1);
    }
  }

  lemma {:induction false} NoneWith(jobs: seq<Job>, id: string)
    requires forall k :: 0 <= k < |jobs| ==> jobs[k].id != id
    ensures WaitAnswer(jobs, id) == Some(false)
  {
    if jobs != [] {
      NoneWith(jobs[1..], id);
    }
  }

  /** A loop that stops at the first finished job that does not fit has kept the
      earliest ones. */
  lemma KeptIsPrefix(all: seq<Job>, i: nat, room: nat)
    requires i <= |all|
    requires |Filter(FinishedJob(), all[..i])| <= room
    requires i == |all| || |Filter(FinishedJob(), all[..i])| == room
    ensures Filter(FinishedJob(), all[..i]) == Take(Filter(FinishedJob(), all), room)
  {
    assert all == all[..i] + all[i..];
    FilterConcat(FinishedJob(), all[..i], all[i..]);
    if i == |all| {
      assert all[i..] == [];
    }
  }
}
