/** What the invariant gives for whole schedules of the fork-join evaluator. */
module ForkJoinTheorems {
  import opened Prelude
  import opened Automata
  import opened ForkJoin
  import opened ForkJoinProofs
  import opened ForkJoinSafety

  lemma {:induction false} ScheduleKeeps(P: Params, s: State, schedule: seq<Event>, t: State)
    requires Inv(P, s) && Runs(P, s, schedule, t)
    ensures Inv(P, t)
    decreases |schedule|
  {
    if schedule == [] {
    } else {
      EventStep(P, s, schedule[0]);
      ScheduleKeeps(P, Next(P, s, schedule[0]), schedule[1..], t);
    }
  }

  ghost predicate Reachable(P: Params, t: State) {
    exists schedule :: Runs(P, Init(P), schedule, t)
  }

  lemma ReachableInv(P: Params, t: State)
    requires Reachable(P, t)
    ensures Inv(P, t)
  {
    var schedule :| Runs(P, Init(P), schedule, t);
    ScheduleKeeps(P, Init(P), schedule, t);
  }

  /** Whatever the schedule, the limits, the crashes and the failed forks: an answer given
      without a stray read is the right one. */
  lemma AnswerIsRight(P: Params, t: State)
    requires Reachable(P, t) && !t.stray && t.procs != [] && t.procs[0].control.Answered?
    ensures t.procs[0].control.value == AcceptsWord(P.m, P.w)
  {
    ReachableInv(P, t);
    assert ProcOk(P, t.procs, true, 0);
  }

  // ----- when no fork fails, and when the read is guarded, no read is stray

  predicate NoFailure(s: Stack) {
    s.Push? ==> NoFailure(s.rest) && ForkFailed !in s.top.branches
  }

  ghost predicate AllForked(s: State) {
    && !s.stray
    && forall k :: 0 <= k < |s.procs| ==> NoFailure(s.procs[k].stack)
  }

  lemma {:induction false} ForkedSchedule(P: Params, s: State, schedule: seq<Event>, t: State)
    requires AllForked(s) && Runs(P, s, schedule, t)
    requires forall e :: e in schedule && e.Fork? ==> e.success
    ensures AllForked(t)
    decreases |schedule|
  {
    if schedule == [] {
    } else {
      var e := schedule[0];
      assert e in schedule;
      assert NoFailure(s.procs[e.k].stack);
      ForkedSchedule(P, Next(P, s, e), schedule[1..], t);
    }
  }

  lemma {:induction false} GuardedSchedule(P: Params, s: State, schedule: seq<Event>, t: State)
    requires P.guarded && !s.stray && Runs(P, s, schedule, t)
    ensures !t.stray
    decreases |schedule|
  {
    if schedule == [] {
    } else {
      GuardedSchedule(P, Next(P, s, schedule[0]), schedule[1..], t);
    }
  }

  /** The fork-join evaluator refines the sequential one: under every schedule in which forks
      succeed, or with guarded reads even when they fail, its answer is acceptance. */
  lemma ForkJoinRefines(P: Params, schedule: seq<Event>, t: State)
    requires Runs(P, Init(P), schedule, t)
    requires P.guarded || forall e :: e in schedule && e.Fork? ==> e.success
    requires t.procs != [] && t.procs[0].control.Answered?
    ensures t.procs[0].control.value == AcceptsWord(P.m, P.w)
  {
    if P.guarded {
      GuardedSchedule(P, Init(P), schedule, t);
    } else {
      ForkedSchedule(P, Init(P), schedule, t);
    }
    AnswerIsRight(P, t);
  }

  // ----- limits above which nothing forks

  /** The root process alone, evaluating sequentially or done. */
  predicate Sequential(P: Params, s: State) {
    && |s.procs| == 1 && !s.stray && s.procs[0].stack == Empty
    && (s.procs[0].control.Call? ==> s.procs[0].control.load == 1)
    && !s.procs[0].control.InNode?
  }

  lemma {:induction false} SequentialSchedule(P: Params, s: State, schedule: seq<Event>, t: State)
    requires P.workloadLimit > 2 && Sequential(P, s) && Runs(P, s, schedule, t)
    ensures Sequential(P, t)
    decreases |schedule|
  {
    if schedule != [] {
      SequentialSchedule(P, Next(P, s, schedule[0]), schedule[1..], t);
    }
  }

  /** The evaluator starts at workload 1 and counts its first node, so with a workload limit
      above 2, the shipped 5 for one, it never forks. */
  lemma NeverForks(P: Params, t: State)
    requires P.workloadLimit > 2 && Reachable(P, t)
    ensures |t.procs| == 1 && !t.stray
  {
    var schedule :| Runs(P, Init(P), schedule, t);
    SequentialSchedule(P, Init(P), schedule, t);
  }

  /** With a lower limit it can, at any root that has two successors or more. */
  lemma ForksIff(P: Params)
    requires P.forkLimit >= 0 && |P.Branches(Task(P.m.initial, 0))| >= 2
    ensures (exists t :: Reachable(P, t) && |t.procs| > 1) <==> P.workloadLimit <= 2
  {
    if P.workloadLimit <= 2 {
      var s := Next(P, Init(P), Enter(0));
      var t := Next(P, s, Fork(0, true));
      Prepend(P, s, Fork(0, true), t, [], t);
      Prepend(P, Init(P), Enter(0), s, [Fork(0, true)], t);
      assert Reachable(P, t) && |t.procs| > 1;
    } else {
      forall t | Reachable(P, t)
        ensures |t.procs| == 1
      {
        NeverForks(P, t);
      }
    }
  }

  lemma SequentialAnswer(P: Params, schedule: seq<Event>, t: State)
    requires P.workloadLimit > 2 && Runs(P, Init(P), schedule, t)
    requires t.procs != [] && t.procs[0].control.Answered?
    ensures t.procs[0].control.value == AcceptsWord(P.m, P.w)
  {
    NeverForks(P, t);
    AnswerIsRight(P, t);
  }

  // ----- failed forks in the code as written

  /** One existential state with two successors, none of them final: `a` is rejected. */
  const RejectsAll := Automaton(0, 0, {}, map[(0, 0) := [1, 2]])
  const Failing := Params(RejectsAll, "a", 0, 22, false)

  /** The root process alone, in its only node activation. */
  function Alone(branch: Branch, phase: Phase, load: int, control: Control): State {
    State([Process(0, (0, 0), Task(0, 0), Push(Frame(Task(0, 0), 0, [Pending, branch], phase, load), Empty),
                   control, [], false)], false)
  }

  function Left(control: Control): State {
    State([Process(0, (0, 0), Task(0, 0), Empty, control, [], false)], true)
  }

  ghost predicate Steps(P: Params, s: State, e: Event, t: State) {
    Enabled(P, s, e) && Next(P, s, e) == t
  }

  lemma FailingForkPart()
    ensures Failing.Branches(Task(0, 0)) == [1, 2]
    ensures Steps(Failing, Init(Failing), Enter(0), Alone(Pending, Forking(1), 2, InNode))
    ensures Steps(Failing, Alone(Pending, Forking(1), 2, InNode), Fork(0, false),
                  Alone(ForkFailed, Fallback(1), 2, Call(Task(2, 1), 0, 1)))
    ensures Steps(Failing, Alone(ForkFailed, Fallback(1), 2, Call(Task(2, 1), 0, 1)), Enter(0),
                  Alone(ForkFailed, Fallback(1), 2, Return(false, 1)))
    ensures Steps(Failing, Alone(ForkFailed, Fallback(1), 2, Return(false, 1)), Resume(0),
                  Alone(ForkFailed, Forking(2), 2, InNode))
  {
    assert Failing.Branches(Task(0, 0)) == [1, 2];
    assert seq(2, _ => Pending) == [Pending, Pending];
    assert [Pending, Pending][1 := ForkFailed] == [Pending, ForkFailed];
  }

  lemma FailingOriginPart()
    ensures Steps(Failing, Alone(ForkFailed, Forking(2), 2, InNode), Originate(0),
                  Alone(ForkFailed, Origin, 2, Call(Task(1, 1), 2, 1)))
    ensures Steps(Failing, Alone(ForkFailed, Origin, 2, Call(Task(1, 1), 2, 1)), Enter(0),
                  Alone(ForkFailed, Origin, 2, Return(false, 3)))
    ensures Steps(Failing, Alone(ForkFailed, Origin, 2, Return(false, 3)), Resume(0),
                  Alone(ForkFailed, Joining(false, true), 3, InNode))
  {
    hide AcceptsWord;
    FailingForkPart();
  }

  lemma FailingJoinPart()
    ensures Steps(Failing, Alone(ForkFailed, Joining(false, true), 3, InNode), Joined(0),
                  Alone(ForkFailed, Collecting(1), 3, InNode))
    ensures Steps(Failing, Alone(ForkFailed, Collecting(1), 3, InNode), StrayRead(0, true), Left(Return(true, 3)))
    ensures Steps(Failing, Left(Return(true, 3)), Answer(0), Left(Answered(true)))
  {
    hide AcceptsWord;
    FailingForkPart();
  }

  lemma Prepend(P: Params, s: State, e: Event, m: State, schedule: seq<Event>, t: State)
    requires Steps(P, s, e, m) && Runs(P, m, schedule, t)
    ensures Runs(P, s, [e] + schedule, t)
  {
    assert ([e] + schedule)[1..] == schedule;
  }

  /** The code as written can accept a rejected word after a failed fork. */
  lemma FailedForkWrongAnswer() returns (schedule: seq<Event>, t: State)
    ensures Runs(Failing, Init(Failing), schedule, t)
    ensures t.procs != [] && t.procs[0].control == Answered(true) && !AcceptsWord(Failing.m, Failing.w)
  {
    var P := Failing;
    FailingForkPart();
    FailingOriginPart();
    FailingJoinPart();
    t := Left(Answered(true));
    Prepend(P, Left(Return(true, 3)), Answer(0), t, [], t);
    Prepend(P, Alone(ForkFailed, Collecting(1), 3, InNode), StrayRead(0, true), Left(Return(true, 3)), [Answer(0)], t);
    schedule := [StrayRead(0, true)] + [Answer(0)];
    Prepend(P, Alone(ForkFailed, Joining(false, true), 3, InNode), Joined(0),
            Alone(ForkFailed, Collecting(1), 3, InNode), schedule, t);
    schedule := [Joined(0)] + schedule;
    Prepend(P, Alone(ForkFailed, Origin, 2, Return(false, 3)), Resume(0),
            Alone(ForkFailed, Joining(false, true), 3, InNode), schedule, t);
    schedule := [Resume(0)] + schedule;
    Prepend(P, Alone(ForkFailed, Origin, 2, Call(Task(1, 1), 2, 1)), Enter(0),
            Alone(ForkFailed, Origin, 2, Return(false, 3)), schedule, t);
    schedule := [Enter(0)] + schedule;
    Prepend(P, Alone(ForkFailed, Forking(2), 2, InNode), Originate(0),
            Alone(ForkFailed, Origin, 2, Call(Task(1, 1), 2, 1)), schedule, t);
    schedule := [Originate(0)] + schedule;
    Prepend(P, Alone(ForkFailed, Fallback(1), 2, Return(false, 1)), Resume(0),
            Alone(ForkFailed, Forking(2), 2, InNode), schedule, t);
    schedule := [Resume(0)] + schedule;
    Prepend(P, Alone(ForkFailed, Fallback(1), 2, Call(Task(2, 1), 0, 1)), Enter(0),
            Alone(ForkFailed, Fallback(1), 2, Return(false, 1)), schedule, t);
    schedule := [Enter(0)] + schedule;
    Prepend(P, Alone(Pending, Forking(1), 2, InNode), Fork(0, false),
            Alone(ForkFailed, Fallback(1), 2, Call(Task(2, 1), 0, 1)), schedule, t);
    schedule := [Fork(0, false)] + schedule;
    Prepend(P, Init(P), Enter(0), Alone(Pending, Forking(1), 2, InNode), schedule, t);
    schedule := [Enter(0)] + schedule;
    assert !Accepts(P.m, P.w, 0, 0) by {
      assert !Accepts(P.m, P.w, 1, 1) && !Accepts(P.m, P.w, 2, 1);
    }
  }

  // ----- waiting and fail-stop

  /** Process `k`'s event leaves the node evaluator: with branches, by returning from a node
      activation; without, by returning straight after entering. */
  ghost predicate LeavesNode(P: Params, s: State, e: Event)
    requires Enabled(P, s, e)
  {
    && Next(P, s, e).procs[e.k].control.Return?
    && (AtNode(s.procs[e.k]) || EmptyNode(P, s, e))
  }

  /** The call about to be entered runs the node evaluator on a node without successors. */
  ghost predicate EmptyNode(P: Params, s: State, e: Event) {
    e.Enter? && e.k < |s.procs| && s.procs[e.k].control.Call? &&
    var c := s.procs[e.k].control;
    && c.task.depth < |P.w| && |P.Branches(c.task)| == 0
    && !(c.load + 1 < P.workloadLimit || c.forks > P.forkLimit)
  }

  /** After the node evaluator returns, every child has been waited for and had exited
      normally; only a node without successors returns without waiting. */
  lemma NodeReturnWaits(P: Params, s: State, e: Event)
    requires Inv(P, s) && Enabled(P, s, e) && LeavesNode(P, s, e)
    ensures AllReaped(Next(P, s, e).procs, e.k) <==> !EmptyNode(P, s, e) || AllReaped(s.procs, e.k)
    ensures !EmptyNode(P, s, e) ==>
              forall c :: IsChild(s.procs, e.k, c) ==> s.procs[c].control == Exited(true)
  {
    var k, after := e.k, Next(P, s, e).procs;
    EventStep(P, s, e);
    assert ProcOk(P, s.procs, !s.stray, k) && ProcOk(P, after, !Next(P, s, e).stray, k);
    assert forall c :: IsChild(after, k, c) <==> IsChild(s.procs, k, c);
    forall c | IsChild(s.procs, k, c)
      ensures after[c].reaped == s.procs[c].reaped
      ensures !EmptyNode(P, s, e) ==> s.procs[c].control == Exited(true)
    {
      assert ChildOk(s.procs, k, c) && ProcOk(P, s.procs, !s.stray, c);
    }
  }

  const Leaving := Params(RejectsAll, "aa", 0, 22, false)

  /** The exception is real: a node without successors, evaluated as branch 0, returns while a
      child forked for a sibling is still running and has not been waited for. */
  lemma EmptyNodeReturnsEarly() returns (s: State, e: Event)
    ensures Reachable(Leaving, s) && Enabled(Leaving, s, e) && LeavesNode(Leaving, s, e)
    ensures !AllReaped(Next(Leaving, s, e).procs, e.k)
  {
    var P := Leaving;
    assert P.Branches(Task(0, 0)) == [1, 2] && P.Branches(Task(1, 1)) == [];
    var s1 := Next(P, Init(P), Enter(0));
    var s2 := Next(P, s1, Fork(0, true));
    s := Next(P, s2, Originate(0));
    e := Enter(0);
    Prepend(P, s2, Originate(0), s, [], s);
    Prepend(P, s1, Fork(0, true), s2, [Originate(0)], s);
    Prepend(P, Init(P), Enter(0), s1, [Fork(0, true)] + [Originate(0)], s);
    assert IsChild(Next(P, s, e).procs, 0, 1);
  }

  /** Below a finished process everything has exited normally and been waited for. */
  lemma {:induction false} DescendantsFinished(P: Params, s: State, c: nat)
    requires Inv(P, s) && s.procs[0].control.Answered? && 0 < c < |s.procs|
    ensures s.procs[c].control == Exited(true) && s.procs[c].reaped
  {
    assert ProcOk(P, s.procs, !s.stray, c);
    var k := s.procs[c].parent;
    if k > 0 {
      DescendantsFinished(P, s, k);
    }
    assert ProcOk(P, s.procs, !s.stray, k);
    assert IsChild(s.procs, k, c) && ChildOk(s.procs, k, c);
  }

  /** Fail-stop: if any process exited abnormally, or is still running, or was not waited
      for, then the root has given no answer. */
  lemma FailStop(P: Params, t: State)
    requires Reachable(P, t)
    requires exists c :: 0 < c < |t.procs| && !(t.procs[c].control == Exited(true) && t.procs[c].reaped)
    ensures !t.procs[0].control.Answered?
  {
    ReachableInv(P, t);
    var c :| 0 < c < |t.procs| && !(t.procs[c].control == Exited(true) && t.procs[c].reaped);
    if t.procs[0].control.Answered? {
      DescendantsFinished(P, t, c);
    }
  }

  // ----- no schedule can get stuck

  predicate Finished(p: Process) {
    p.control.Answered? || p.control.Exited?
  }

  /** The last process that has not finished. */
  lemma {:induction false} LastUnfinished(s: State, n: nat) returns (k: nat)
    requires 0 < n <= |s.procs| && !Finished(s.procs[0])
    ensures k < n && !Finished(s.procs[k])
    ensures forall j :: k < j < n ==> Finished(s.procs[j])
  {
    k := n - 1;
    if Finished(s.procs[k]) {
      k := LastUnfinished(s, n - 1);
    }
  }

  /** Until the root finishes some process can act by itself: no wait and no pipe read blocks
      for ever, since the youngest unfinished process never has to wait. */
  lemma Progress(P: Params, s: State) returns (e: Event)
    requires Inv(P, s) && !Finished(s.procs[0])
    ensures Enabled(P, s, e) && !e.Crash? && !e.WaitError? && (e.Fork? ==> e.success)
  {
    var k := LastUnfinished(s, |s.procs|);
    var p := s.procs[k];
    assert ProcOk(P, s.procs, !s.stray, k);
    if p.control.Call? {
      e := Enter(k);
    } else if p.control.Reported? {
      e := Exit(k);
    } else if p.control.Return? {
      e := if p.stack.Push? then Resume(k) else if k == 0 then Answer(k) else Report(k);
    } else if p.stack.top.phase.Forking? {
      e := if p.stack.top.phase.i < |p.stack.top.branches| then Fork(k, true) else Originate(k);
    } else if p.stack.top.phase.Joining? {
      if c :| IsChild(s.procs, k, c) && !s.procs[c].reaped {
        assert ProcOk(P, s.procs, !s.stray, c);
        e := Reap(k, c);
      } else {
        e := Joined(k);
      }
    } else {
      var f := p.stack.top;
      if f.phase.i < |f.branches| && f.branches[f.phase.i].Opened? {
        PipeReady(P, s, k);
      }
      if f.phase.i < |f.branches| {
        assert BranchOk(P, s.procs, !s.stray, k, Height(p.stack.rest), f, f.phase.i);
      }
      e := if f.phase.i < |f.branches| && f.branches[f.phase.i].ForkFailed? && !P.guarded
           then StrayRead(k, false) else Collect(k);
    }
  }
}
