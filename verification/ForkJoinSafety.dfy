/** Every event keeps the invariant, event by event; then the theorems about all schedules. */
module ForkJoinSafety {
  import opened Prelude
  import opened Automata
  import opened ForkJoin
  import opened ForkJoinProofs

  lemma {:induction false} FrameAtBelow(s: Stack, level: nat)
    ensures FrameAt(s, level).Some? <==> level < Height(s)
  {
    if s.Push? {
      FrameAtBelow(s.rest, level);
    }
  }

  /** What is held below the top stays held when the top activation changes. */
  lemma HeldBelow(s: Stack, t: Stack, home: (nat, nat), c: nat)
    requires Held(s, home, c)
    requires s.Push? && t.Push? && t.rest == s.rest
    requires home.0 == Height(s.rest) ==>
               home.1 < |t.top.branches| && (s.top.branches[home.1] == Opened(c) ==> t.top.branches[home.1] == Opened(c))
    ensures Held(t, home, c)
  {
  }

  lemma HeldPushed(s: Stack, f: Frame, home: (nat, nat), c: nat)
    requires Held(s, home, c)
    ensures Held(Push(f, s), home, c)
  {
    FrameAtBelow(s, home.0);
  }

  /** A call that returns at once returns the value of its task. */
  lemma EnteredValue(P: Params, p: Process)
    requires p.control.Call? && Entered(P, p).control.Return?
    ensures Entered(P, p).control.value == P.Value(p.control.task)
  {
    if p.control.task.depth < |P.w| {
      NodeValue(P, p.control.task);
    }
  }

  lemma EnterStep(P: Params, s: State, k: nat)
    requires Inv(P, s) && Enabled(P, s, Enter(k))
    ensures Inv(P, Next(P, s, Enter(k)))
  {
    hide Accepts;
    var h, p, q := !s.stray, s.procs[k], Entered(P, s.procs[k]);
    var t := p.control.task;
    assert ProcOk(P, s.procs, h, k);
    if q.control.Return? {
      EnteredValue(P, p);
      SameStack(P, s.procs, h, k, q);
    } else {
      var after := s.procs[k := q];
      SoloStack(P, s.procs, h, h, k, q, p.stack, p.task);
      assert StackOk(P, after, h, k, q.stack, q.task);
      forall c | IsChild(after, k, c)
        ensures ChildOk(after, k, c)
      {
        assert IsChild(s.procs, k, c) && ChildOk(s.procs, k, c) && ProcOk(P, s.procs, h, c);
        if !after[c].reaped {
          HeldPushed(p.stack, q.stack.top, after[c].home, c);
        }
      }
      SoloStep(P, s.procs, h, h, k, q);
    }
  }

  /** An event that changes the topmost activation `f` of process `k` into `g`, where every
      opened branch of `g` was already one of `f`. */
  lemma TopStep(P: Params, before: seq<Process>, h0: bool, h1: bool, k: nat, p: Process)
    requires AllOk(P, before, h0) && SoloChange(P, before, h1, k, p) && (h1 ==> h0)
    requires before[k].stack.Push? && p.stack.Push? && p.stack.rest == before[k].stack.rest
    requires StackOk(P, before, h0, k, before[k].stack, p.task)
    requires
      var f, g, level := before[k].stack.top, p.stack.top, Height(p.stack.rest);
      && g.task == f.task && |g.branches| == |f.branches| && PhaseOk(P, h1, g)
      && forall j :: 0 <= j < |g.branches| ==>
           && (f.branches[j].Opened? ==> g.branches[j] == f.branches[j] && (Collected(f, j) ==> Collected(g, j)))
           && (!f.branches[j].Opened? ==> !g.branches[j].Opened? && BranchOk(P, before[k := p], h1, k, level, g, j))
    requires ControlOk(P, before[k := p], h1, k)
    requires !JoinFailing(before[k]) || p.control == Exited(false) || JoinFailing(p)
    ensures AllOk(P, before[k := p], h1)
  {
    var after, f, g, level := before[k := p], before[k].stack.top, p.stack.top, Height(p.stack.rest);
    assert ProcOk(P, before, h0, k);
    SoloStack(P, before, h0, h1, k, p, p.stack.rest, p.task);
    forall j | 0 <= j < |g.branches|
      ensures BranchOk(P, after, h1, k, level, g, j)
    {
      assert BranchOk(P, before, h0, k, level, f, j);
      if g.branches[j].Opened? {
        assert ProcOk(P, before, h0, g.branches[j].pid);
      }
    }
    forall c | IsChild(after, k, c)
      ensures ChildOk(after, k, c)
    {
      assert IsChild(before, k, c) && ChildOk(before, k, c) && ProcOk(P, before, h0, c);
      if !after[c].reaped && before[k].control != Exited(false) {
        HeldBelow(before[k].stack, p.stack, after[c].home, c);
      }
    }
    SoloStep(P, before, h0, h1, k, p);
  }

  /** The events that keep every process but one and do not leave the topmost activation. */
  lemma TopEvents(P: Params, s: State, e: Event)
    requires Inv(P, s) && Enabled(P, s, e)
    requires e == Fork(e.k, false) || e.Originate? || e.Resume? || e.WaitError?
    ensures Inv(P, Next(P, s, e))
  {
    hide Accepts;
    var k, h, before := e.k, !s.stray, s.procs;
    var p, q := before[k], Next(P, s, e).procs[k];
    assert ProcOk(P, before, h, k);
    var f, g, level := p.stack.top, q.stack.top, Height(p.stack.rest);
    NodeValue(P, f.task);
    if e.Resume? && h && p.control.value == P.Decisive(f.task) {
      assert Decides(P, f.task, if f.phase.Fallback? then f.phase.i else 0);
    }
    forall j | 0 <= j < |g.branches|
      ensures BranchOk(P, before, h, k, level, f, j)
      ensures !f.branches[j].Opened? ==> !g.branches[j].Opened? && BranchOk(P, before[k := q], h, k, level, g, j)
    {
      assert BranchOk(P, before, h, k, level, f, j);
    }
    TopStep(P, before, h, h, k, q);
  }

  /** The forking process itself, in the table extended by its new child. */
  lemma ForkParent(P: Params, s: State, k: nat)
    requires Inv(P, s) && Enabled(P, s, Fork(k, true))
    ensures ProcOk(P, Next(P, s, Fork(k, true)).procs, !s.stray, k)
  {
    var h, before, after := !s.stray, s.procs, Next(P, s, Fork(k, true)).procs;
    var n, p, q := |before|, before[k], after[k];
    assert ProcOk(P, before, h, k);
    forall c | IsChild(before, k, c)
      ensures c != k && after[c] == before[c]
    {
      assert ProcOk(P, before, h, c);
    }
    StackFrame(P, before, after, h, h, k, p.stack.rest, p.task);
    var f, g, level := p.stack.top, q.stack.top, Height(p.stack.rest);
    forall j | 0 <= j < |g.branches|
      ensures BranchOk(P, after, h, k, level, g, j)
    {
      assert BranchOk(P, before, h, k, level, f, j);
    }
    forall c | IsChild(after, k, c)
      ensures ChildOk(after, k, c)
    {
      if c < n {
        assert IsChild(before, k, c) && ChildOk(before, k, c);
        if !after[c].reaped {
          HeldBelow(p.stack, q.stack, after[c].home, c);
        }
      }
    }
  }

  lemma ForkStep(P: Params, s: State, k: nat)
    requires Inv(P, s) && Enabled(P, s, Fork(k, true))
    ensures Inv(P, Next(P, s, Fork(k, true)))
  {
    var h, before, after := !s.stray, s.procs, Next(P, s, Fork(k, true)).procs;
    forall j | 0 <= j < |after|
      ensures ProcOk(P, after, h, j)
    {
      if j == k {
        ForkParent(P, s, k);
      } else if j < |before| {
        assert ProcOk(P, before, h, j);
        assert forall c :: IsChild(after, j, c) ==> IsChild(before, j, c);
        OtherProcess(P, before, after, h, h, j);
      } else {
        assert ProcOk(P, before, h, k);
        forall c | 0 <= c < |before|
          ensures !IsChild(after, j, c)
        {
          assert ProcOk(P, before, h, c);
        }
      }
    }
  }

  /** An activation left once every child has been waited for and had exited normally. */
  lemma LeaveStep(P: Params, before: seq<Process>, h0: bool, h1: bool, k: nat, v: bool)
    requires AllOk(P, before, h0) && k < |before| && (h1 ==> h0)
    requires AtNode(before[k]) && !JoinFailing(before[k])
    requires AllReaped(before, k)
    requires h1 ==> v == P.Value(before[k].stack.top.task)
    ensures AllOk(P, before[k := Leave(before[k], v)], h1)
  {
    var p := Leave(before[k], v);
    var after := before[k := p];
    assert ProcOk(P, before, h0, k);
    SoloStack(P, before, h0, h1, k, p, p.stack, p.task);
    forall c | IsChild(after, k, c)
      ensures ChildOk(after, k, c)
    {
      assert IsChild(before, k, c) && ChildOk(before, k, c) && ProcOk(P, before, h0, c);
    }
    SoloStep(P, before, h0, h1, k, p);
  }

  lemma JoinedStep(P: Params, s: State, k: nat)
    requires Inv(P, s) && Enabled(P, s, Joined(k))
    ensures Inv(P, Next(P, s, Joined(k)))
  {
    var h, before := !s.stray, s.procs;
    var p, q := before[k], Next(P, s, Joined(k)).procs[k];
    assert ProcOk(P, before, h, k);
    var f, after := p.stack.top, before[k := q];
    if !f.phase.ok {
      SameStack(P, before, h, k, q);
    } else if f.phase.local == P.Decisive(f.task) {
      LeaveStep(P, before, h, h, k, f.phase.local);
    } else {
      var g, level := q.stack.top, Height(p.stack.rest);
      forall j | 0 <= j < |g.branches|
        ensures !f.branches[j].Opened? ==> !g.branches[j].Opened? && BranchOk(P, after, h, k, level, g, j)
      {
        assert BranchOk(P, before, h, k, level, f, j);
      }
      forall c | IsChild(after, k, c)
        ensures after[c].reaped
      {
        assert IsChild(before, k, c) && ProcOk(P, before, h, c);
      }
      TopStep(P, before, h, h, k, q);
    }
  }

  lemma ReapOther(P: Params, s: State, k: nat, c: nat, j: nat)
    requires Inv(P, s) && Enabled(P, s, Reap(k, c)) && j < |s.procs| && j != k
    ensures ProcOk(P, Next(P, s, Reap(k, c)).procs, !s.stray, j)
  {
    var h, before, after := !s.stray, s.procs, Next(P, s, Reap(k, c)).procs;
    assert ProcOk(P, before, h, j);
    if j == c {
      StackFrame(P, before, after, h, h, c, before[c].stack, before[c].task);
      forall d | IsChild(after, c, d)
        ensures ChildOk(after, c, d)
      {
        assert ProcOk(P, before, h, d) && ProcOk(P, before, h, k);
        assert after[d] == before[d] || d == k;
        assert IsChild(before, c, d) && ChildOk(before, c, d);
      }
    } else {
      assert forall d :: IsChild(after, j, d) ==> IsChild(before, j, d);
      OtherProcess(P, before, after, h, h, j);
    }
  }

  lemma ReapParent(P: Params, s: State, k: nat, c: nat)
    requires Inv(P, s) && Enabled(P, s, Reap(k, c))
    ensures ProcOk(P, Next(P, s, Reap(k, c)).procs, !s.stray, k)
  {
    var h, before, after := !s.stray, s.procs, Next(P, s, Reap(k, c)).procs;
    var p, q := before[k], after[k];
    assert ProcOk(P, before, h, k);
    forall d | IsChild(before, k, d)
      ensures d != k
    {
      assert ProcOk(P, before, h, d);
    }
    StackFrame(P, before, after, h, h, k, p.stack.rest, p.task);
    var f, g, level := p.stack.top, q.stack.top, Height(p.stack.rest);
    forall j | 0 <= j < |g.branches|
      ensures BranchOk(P, after, h, k, level, g, j)
    {
      assert BranchOk(P, before, h, k, level, f, j);
    }
    forall d | IsChild(after, k, d)
      ensures ChildOk(after, k, d)
    {
      assert IsChild(before, k, d) && ChildOk(before, k, d);
      if !after[d].reaped {
        HeldBelow(p.stack, q.stack, after[d].home, d);
      }
    }
  }

  lemma ReapStep(P: Params, s: State, k: nat, c: nat)
    requires Inv(P, s) && Enabled(P, s, Reap(k, c))
    ensures Inv(P, Next(P, s, Reap(k, c)))
  {
    var h, after := !s.stray, Next(P, s, Reap(k, c)).procs;
    forall j | 0 <= j < |after|
      ensures ProcOk(P, after, h, j)
    {
      if j == k {
        ReapParent(P, s, k, c);
      } else {
        ReapOther(P, s, k, c, j);
      }
    }
  }

  /** The collection loop's reads: the pipe of branch `i` has exactly one message, written by
      the process that ran the branch. */
  lemma PipeReady(P: Params, s: State, k: nat)
    requires Inv(P, s) && k < |s.procs| && AtNode(s.procs[k]) && s.procs[k].stack.top.phase.Collecting?
    requires
      var f := s.procs[k].stack.top;
      f.phase.i < |f.branches| && f.branches[f.phase.i].Opened?
    ensures
      var f := s.procs[k].stack.top;
      var c := f.branches[f.phase.i].pid;
      && c < |s.procs| && c != k
      && s.procs[c].task == P.BranchTask(f.task, f.phase.i) && s.procs[c].parent == k
      && Delivered(P, !s.stray, s.procs[c])
  {
    var f := s.procs[k].stack.top;
    var c := f.branches[f.phase.i].pid;
    assert ProcOk(P, s.procs, !s.stray, k);
    assert BranchOk(P, s.procs, !s.stray, k, Height(s.procs[k].stack.rest), f, f.phase.i);
    assert IsChild(s.procs, k, c) && ChildOk(s.procs, k, c);
  }

  /** The collection loop moves on from a branch that does not decide the node. */
  lemma Advance(P: Params, before: seq<Process>, h0: bool, h1: bool, k: nat)
    requires AllOk(P, before, h0) && k < |before| && (h1 ==> h0)
    requires AtNode(before[k]) && before[k].stack.top.phase.Collecting?
    requires
      var f := before[k].stack.top;
      f.phase.i < |f.branches| && (h1 ==> !Decides(P, f.task, f.phase.i))
    ensures AllOk(P, before[k := InPhase(before[k], Collecting(before[k].stack.top.phase.i + 1))], h1)
  {
    var f, level := before[k].stack.top, Height(before[k].stack.rest);
    var q := InPhase(before[k], Collecting(f.phase.i + 1));
    var after := before[k := q];
    assert ProcOk(P, before, h0, k);
    forall j | 0 <= j < |f.branches|
      ensures !f.branches[j].Opened? ==> BranchOk(P, after, h1, k, level, q.stack.top, j)
    {
      assert BranchOk(P, before, h0, k, level, f, j);
    }
    forall c | IsChild(after, k, c)
      ensures after[c].reaped
    {
      assert IsChild(before, k, c) && ProcOk(P, before, h0, c);
    }
    TopStep(P, before, h0, h1, k, q);
  }

  /** The collection loop handles answer `a` for branch `i`, right or not. */
  lemma HandleAnswer(P: Params, before: seq<Process>, h0: bool, h1: bool, k: nat, a: bool)
    requires AllOk(P, before, h0) && k < |before| && (h1 ==> h0)
    requires AtNode(before[k]) && before[k].stack.top.phase.Collecting?
    requires
      var f := before[k].stack.top;
      f.phase.i < |f.branches| && (h1 ==> a == P.Value(P.BranchTask(f.task, f.phase.i)))
    ensures AllOk(P, before[k := AfterAnswer(P, before[k], before[k].stack.top.phase.i, a)], h1)
  {
    var f := before[k].stack.top;
    assert ProcOk(P, before, h0, k);
    if a == P.Decisive(f.task) {
      NodeValue(P, f.task);
      assert h1 ==> Decides(P, f.task, f.phase.i);
      LeaveStep(P, before, h0, h1, k, a);
    } else {
      Advance(P, before, h0, h1, k);
    }
  }

  /** Reading a pipe that no collection loop will read again. */
  lemma DrainStep(P: Params, before: seq<Process>, h: bool, c: nat, pipe: seq<bool>)
    requires AllOk(P, before, h) && 0 < c < |before|
    requires before[c].control == Exited(true) && before[c].reaped
    requires before[c].parent < |before|
    requires
      var f := FrameAt(before[before[c].parent].stack, before[c].home.0);
      (f.None? ||
        (before[c].home.0 + 1 == Height(before[before[c].parent].stack) && Collected(f.value, before[c].home.1)))
    ensures AllOk(P, before[c := before[c].(pipe := pipe)], h)
  {
    var after := before[c := before[c].(pipe := pipe)];
    var k := before[c].parent;
    forall j | 0 <= j < |before|
      ensures ProcOk(P, after, h, j)
    {
      assert ProcOk(P, before, h, j);
      assert forall d :: IsChild(after, j, d) <==> IsChild(before, j, d);
      if j == k {
        var s := before[k].stack;
        FrameAtBelow(s, before[c].home.0);
        var lower := if before[c].home.0 < Height(s) then s.rest else s;
        StackFrame(P, before, after, h, h, k, lower, before[k].task);
        if lower != s {
          forall i | 0 <= i < |s.top.branches|
            ensures BranchOk(P, after, h, k, Height(s.rest), s.top, i)
          {
            assert BranchOk(P, before, h, k, Height(s.rest), s.top, i);
          }
        }
        forall d | IsChild(after, k, d)
          ensures ChildOk(after, k, d)
        {
          assert ChildOk(before, k, d);
        }
      } else if j == c {
        assert forall d :: IsChild(after, c, d) ==> ChildOk(before, c, d);
      } else {
        OtherProcess(P, before, after, h, h, j);
      }
    }
  }

  lemma CollectStep(P: Params, s: State, k: nat)
    requires Inv(P, s) && Enabled(P, s, Collect(k))
    ensures Inv(P, Next(P, s, Collect(k)))
  {
    var h, before := !s.stray, s.procs;
    var f := before[k].stack.top;
    assert ProcOk(P, before, h, k);
    if f.phase.i >= |f.branches| {
      NodeValue(P, f.task);
      assert h ==> forall j :: 0 <= j < |f.branches| ==> !Decides(P, f.task, j);
      LeaveStep(P, before, h, h, k, !P.Decisive(f.task));
    } else if f.branches[f.phase.i].ForkFailed? {
      assert BranchOk(P, before, h, k, Height(before[k].stack.rest), f, f.phase.i);
      Advance(P, before, h, h, k);
    } else {
      PipeReady(P, s, k);
      var c := f.branches[f.phase.i].pid;
      var a := before[c].pipe[0];
      HandleAnswer(P, before, h, h, k, a);
      var middle := before[k := AfterAnswer(P, before[k], f.phase.i, a)];
      FrameAtBelow(before[k].stack.rest, Height(before[k].stack.rest));
      assert IsChild(before, k, c) && ChildOk(before, k, c);
      assert BranchOk(P, before, h, k, Height(before[k].stack.rest), f, f.phase.i);
      DrainStep(P, middle, h, c, before[c].pipe[1..]);
      assert Next(P, s, Collect(k)).procs == middle[c := middle[c].(pipe := before[c].pipe[1..])];
    }
  }

  // ----- every event

  lemma EventStep(P: Params, s: State, e: Event)
    requires Inv(P, s) && Enabled(P, s, e)
    ensures Inv(P, Next(P, s, e))
  {
    var h, before := !s.stray, s.procs;
    assert ProcOk(P, before, h, e.k);
    match e {
      case Enter(k) => EnterStep(P, s, k);
      case Fork(k, success) =>
        if success {
          ForkStep(P, s, k);
        } else {
          TopEvents(P, s, e);
        }
      case Originate(_) => TopEvents(P, s, e);
      case Resume(_) => TopEvents(P, s, e);
      case WaitError(_) => TopEvents(P, s, e);
      case Reap(k, c) => ReapStep(P, s, k, c);
      case Joined(k) => JoinedStep(P, s, k);
      case Collect(k) => CollectStep(P, s, k);
      case StrayRead(k, a) => HandleAnswer(P, before, h, false, k, a);
      case Report(k) => SameStack(P, before, h, k, Next(P, s, e).procs[k]);
      case Answer(k) => SameStack(P, before, h, k, Next(P, s, e).procs[k]);
      case Exit(k) => SameStack(P, before, h, k, Next(P, s, e).procs[k]);
      case Crash(k) => SameStack(P, before, h, k, Next(P, s, e).procs[k]);
    }
  }
}
