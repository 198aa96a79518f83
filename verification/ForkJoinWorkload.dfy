/** What the workload counts: the nodes a process has entered, and what decides where it forks. */
module ForkJoinWorkload {
  import opened Prelude
  import opened ForkJoin

  /** The calls that process `k` has entered. */
  function Entries(past: seq<Event>, k: nat): nat {
    if past == [] then 0 else Entries(past[..|past| - 1], k) + if past[|past| - 1] == Enter(k) then 1 else 0
  }

  lemma EntriesPush(past: seq<Event>, e: Event, k: nat)
    ensures Entries(past + [e], k) == Entries(past, k) + if e == Enter(k) then 1 else 0
  {
    assert (past + [e])[..|past|] == past;
  }

  lemma {:induction false} NoEntries(past: seq<Event>, k: nat)
    requires forall e :: e in past ==> e.k < k
    ensures Entries(past, k) == 0
  {
    if past != [] {
      NoEntries(past[..|past| - 1], k);
      assert past[|past| - 1] in past;
    }
  }

  predicate NoFallback(s: Stack) {
    s.Push? ==> !s.top.phase.Fallback? && NoFallback(s.rest)
  }

  /** The workload a process carries at present, while it evaluates. */
  function Workload(p: Process): Option<int> {
    match p.control
    case Call(_, load, _) => Some(load)
    case Return(_, load) => Some(load)
    case InNode => if p.stack.Push? then Some(p.stack.top.workload) else None
    case _ => None
  }

  /** The evaluator starts with a workload of 1, a forked child with 0. */
  function Start(k: nat): int {
    if k == 0 then 1 else 0
  }

  ghost predicate Counts(s: State, past: seq<Event>) {
    && (forall e :: e in past ==> e.k < |s.procs|)
    && forall k :: 0 <= k < |s.procs| ==>
         NoFallback(s.procs[k].stack) &&
         (Workload(s.procs[k]).Some? ==> Workload(s.procs[k]) == Some(Start(k) + Entries(past, k)))
  }

  lemma OwnCount(P: Params, s: State, past: seq<Event>, e: Event)
    requires Counts(s, past) && Enabled(P, s, e) && (e.Fork? ==> e.success)
    ensures
      var q := Next(P, s, e).procs[e.k];
      && NoFallback(q.stack)
      && (Workload(q).Some? ==> Workload(q) == Some(Start(e.k) + Entries(past + [e], e.k)))
  {
    hide Entries;
    EntriesPush(past, e, e.k);
    assert NoFallback(s.procs[e.k].stack);
  }

  /** Another process keeps its stack and control; a new one starts with nothing entered. */
  lemma OtherCount(P: Params, s: State, past: seq<Event>, e: Event, k: nat)
    requires Counts(s, past) && Enabled(P, s, e) && (e.Fork? ==> e.success)
    requires k < |Next(P, s, e).procs| && k != e.k
    ensures
      var q := Next(P, s, e).procs[k];
      && NoFallback(q.stack)
      && (Workload(q).Some? ==> Workload(q) == Some(Start(k) + Entries(past + [e], k)))
  {
    hide Entries;
    EntriesPush(past, e, k);
    if k == |s.procs| {
      NoEntries(past, k);
    }
  }

  lemma CountStep(P: Params, s: State, past: seq<Event>, e: Event)
    requires Counts(s, past) && Enabled(P, s, e) && (e.Fork? ==> e.success)
    ensures Counts(Next(P, s, e), past + [e])
  {
    hide Next, Enabled, Entries;
    TableGrows(P, s, e);
    forall k | 0 <= k < |Next(P, s, e).procs|
      ensures
        var q := Next(P, s, e).procs[k];
        && NoFallback(q.stack)
        && (Workload(q).Some? ==> Workload(q) == Some(Start(k) + Entries(past + [e], k)))
    {
      if k == e.k {
        OwnCount(P, s, past, e);
      } else {
        OtherCount(P, s, past, e, k);
      }
    }
  }

  lemma TableGrows(P: Params, s: State, e: Event)
    requires Enabled(P, s, e)
    ensures e.k < |s.procs| <= |Next(P, s, e).procs|
  {
  }

  lemma {:induction false} CountSchedule(P: Params, s: State, past: seq<Event>, schedule: seq<Event>, t: State)
    requires Counts(s, past) && Runs(P, s, schedule, t)
    requires forall e :: e in schedule && e.Fork? ==> e.success
    ensures Counts(t, past + schedule)
    decreases |schedule|
  {
    hide Next, Enabled, Counts;
    if schedule == [] {
      assert past + schedule == past;
    } else {
      assert schedule[0] in schedule;
      CountStep(P, s, past, schedule[0]);
      CountSchedule(P, Next(P, s, schedule[0]), past + [schedule[0]], schedule[1..], t);
      assert past + [schedule[0]] + schedule[1..] == past + schedule;
    }
  }

  /** While forks succeed, the workload of a process is the number of calls it has entered itself since
      it was forked, and one more for the evaluator's first process. */
  lemma WorkloadCounts(P: Params, schedule: seq<Event>, t: State, k: nat)
    requires Runs(P, Init(P), schedule, t) && k < |t.procs|
    requires forall e :: e in schedule && e.Fork? ==> e.success
    ensures Workload(t.procs[k]).Some? ==>
              Workload(t.procs[k]) == Some(Entries(schedule, k) + if k == 0 then 1 else 0)
  {
    hide Next, Enabled, Runs, Entries;
    FirstCount(P);
    CountSchedule(P, Init(P), [], schedule, t);
    assert [] + schedule == schedule;
  }

  lemma FirstCount(P: Params)
    ensures Counts(Init(P), [])
  {
  }
}
