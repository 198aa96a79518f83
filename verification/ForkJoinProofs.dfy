/**
 Safety of the fork-join evaluator over every schedule: the invariant that every event keeps,
 and what it says about answers, waiting, and abnormal exits.
 */
module ForkJoinProofs {
  import opened Prelude
  import opened Automata
  import opened ForkJoin

  // ----- the invariant

  /** The call a process is executing on behalf of the stack `s`. */
  function Awaited(P: Params, s: Stack, task: Task): Task {
    match s
    case Empty => task
    case Push(f, _) =>
      match f.phase
      case Fallback(i) => P.BranchTask(f.task, i)
      case _ => P.BranchTask(f.task, 0)
  }

  /** Branch `j` alone settles the value of the node `t`. */
  ghost predicate Decides(P: Params, t: Task, j: nat) {
    P.Value(P.BranchTask(t, j)) == P.Decisive(t)
  }

  predicate Collected(f: Frame, j: nat) {
    f.phase.Collecting? && j < f.phase.i
  }

  /** The pipe holds exactly one message: the value of the process's own task. */
  ghost predicate Delivered(P: Params, honest: bool, p: Process) {
    |p.pipe| == 1 && (honest ==> p.pipe[0] == P.Value(p.task))
  }

  ghost predicate BranchOk(P: Params, procs: seq<Process>, honest: bool, k: nat, level: nat, f: Frame, j: nat)
    requires j < |f.branches|
  {
    match f.branches[j]
    case Pending =>
      j == 0 || (f.phase.Forking? && f.phase.i <= j) || (f.phase.Fallback? && f.phase.i < j)
      || (f.phase.Joining? && f.phase.local == P.Decisive(f.task))
    case Opened(c) =>
      && 0 < j
      && k < c < |procs| && procs[c].parent == k && procs[c].home == (level, j)
      && procs[c].task == P.BranchTask(f.task, j)
      && (!Collected(f, j) && procs[c].control == Exited(true) ==> Delivered(P, honest, procs[c]))
    case ForkFailed =>
      && 0 < j
      && (honest ==>
            Decides(P, f.task, j) ==>
              || (f.phase.Fallback? && f.phase.i == j)
              || (f.phase.Joining? && f.phase.local == P.Decisive(f.task)))
  }

  ghost predicate PhaseOk(P: Params, honest: bool, f: Frame) {
    match f.phase
    case Forking(i) =>
      1 <= i <= |f.branches| && forall j :: i <= j < |f.branches| ==> f.branches[j].Pending?
    case Fallback(i) =>
      1 <= i < |f.branches| && forall j :: i < j < |f.branches| ==> f.branches[j].Pending?
    case Origin => true
    case Joining(v, _) => honest ==>
      if v == P.Decisive(f.task) then P.Value(f.task) == v else !Decides(P, f.task, 0)
    case Collecting(i) =>
      && 1 <= i <= |f.branches|
      && (honest ==> forall j :: 0 <= j < i ==> !Decides(P, f.task, j))
  }

  ghost predicate FrameOk(P: Params, procs: seq<Process>, honest: bool, k: nat, level: nat, f: Frame) {
    && f.task.depth < |P.w|
    && |f.branches| == |P.Branches(f.task)| > 0
    && PhaseOk(P, honest, f)
    && forall j :: 0 <= j < |f.branches| ==> BranchOk(P, procs, honest, k, level, f, j)
  }

  ghost predicate StackOk(P: Params, procs: seq<Process>, honest: bool, k: nat, s: Stack, task: Task) {
    s.Push? ==>
      && FrameOk(P, procs, honest, k, Height(s.rest), s.top)
      && s.top.task == Awaited(P, s.rest, task)
      && Waiting(s.rest)
      && StackOk(P, procs, honest, k, s.rest, task)
  }

  ghost predicate ControlOk(P: Params, procs: seq<Process>, honest: bool, k: nat)
    requires k < |procs|
  {
    var p := procs[k];
    match p.control
    case Call(t, _, _) =>
      p.pipe == [] && Waiting(p.stack) && t == Awaited(P, p.stack, p.task)
    case Return(v, _) =>
      p.pipe == [] && Waiting(p.stack) && (honest ==> v == P.Value(Awaited(P, p.stack, p.task)))
    case InNode =>
      && p.pipe == [] && p.stack.Push? && !Waiting(p.stack)
      && (p.stack.top.phase.Collecting? ==> AllReaped(procs, k))
    case Reported => k != 0 && p.stack.Empty? && Delivered(P, honest, p)
    case Answered(v) => k == 0 && p.stack.Empty? && (honest ==> v == P.Value(p.task))
    case Exited(normal) =>
      normal ==> k != 0 && p.stack.Empty? && (!p.reaped ==> Delivered(P, honest, p))
  }

  function FrameAt(s: Stack, level: nat): Option<Frame> {
    if s.Empty? then None
    else if level == Height(s.rest) then Some(s.top)
    else FrameAt(s.rest, level)
  }

  /** Some activation on the stack still holds `c` as an opened branch. */
  predicate Held(s: Stack, home: (nat, nat), c: nat) {
    var f := FrameAt(s, home.0);
    f.Some? && home.1 < |f.value.branches| && f.value.branches[home.1] == Opened(c)
  }

  predicate JoinFailing(p: Process) {
    AtNode(p) && p.stack.top.phase.Joining? && !p.stack.top.phase.ok
  }

  /** A reaped child had exited normally, or its parent knows better; an unreaped one is
      still held by some activation of its parent. */
  ghost predicate ChildOk(procs: seq<Process>, k: nat, c: nat)
    requires k < |procs| && c < |procs|
  {
    var p := procs[k];
    p.control != Exited(false) ==>
      if procs[c].reaped then procs[c].control == Exited(true) || JoinFailing(p)
      else Held(p.stack, procs[c].home, c)
  }

  ghost predicate ProcOk(P: Params, procs: seq<Process>, honest: bool, k: nat)
    requires k < |procs|
  {
    && procs[k].task.depth <= |P.w|
    && (procs[k].reaped ==> procs[k].control.Exited?)
    && (k > 0 ==> procs[k].parent < k)
    && StackOk(P, procs, honest, k, procs[k].stack, procs[k].task)
    && ControlOk(P, procs, honest, k)
    && forall c :: IsChild(procs, k, c) ==> ChildOk(procs, k, c)
  }

  ghost predicate Inv(P: Params, s: State) {
    && |s.procs| > 0
    && s.procs[0].task == Task(P.m.initial, 0)
    && !s.procs[0].reaped
    && AllOk(P, s.procs, !s.stray)
  }

  ghost predicate AllOk(P: Params, procs: seq<Process>, honest: bool) {
    forall k :: 0 <= k < |procs| ==> ProcOk(P, procs, honest, k)
  }

  // ----- a node's value in terms of its branches

  lemma NodeValue(P: Params, t: Task)
    requires t.depth < |P.w|
    ensures P.Value(t) == P.Decisive(t) <==>
            exists j :: 0 <= j < |P.Branches(t)| && Decides(P, t, j)
  {
    var b := P.Branches(t);
    var targets := P.m.Targets(t.state, P.w[t.depth]);
    forall j | 0 <= j < |b|
      ensures b[j] in targets
      ensures Decides(P, t, j) <==> Accepts(P.m, P.w, b[j], t.depth + 1) == P.Decisive(t)
    {
    }
    if p :| p in targets && Accepts(P.m, P.w, p, t.depth + 1) == P.Decisive(t) {
      var j :| 0 <= j < |b| && b[j] == p;
      assert Decides(P, t, j);
    }
  }

  // ----- what a change to the table leaves intact

  /** What parents rely on about a child, from one table to a later one. */
  ghost predicate Evolves(P: Params, honest: bool, old_: Process, new_: Process) {
    && new_.parent == old_.parent && new_.home == old_.home && new_.task == old_.task
    && (new_.control == Exited(true) ==>
          (old_.control == Exited(true) && new_.pipe == old_.pipe) || Delivered(P, honest, new_))
  }

  lemma {:induction false} StackFrame(
    P: Params, before: seq<Process>, after: seq<Process>, h0: bool, h1: bool, k: nat, s: Stack, task: Task)
    requires StackOk(P, before, h0, k, s, task)
    requires h1 ==> h0
    requires |before| <= |after|
    requires forall c :: IsChild(before, k, c) && before[c].home.0 < Height(s) ==>
                           Evolves(P, h1, before[c], after[c])
    ensures StackOk(P, after, h1, k, s, task)
  {
    if s.Push? {
      StackFrame(P, before, after, h0, h1, k, s.rest, task);
      var f, level := s.top, Height(s.rest);
      forall j | 0 <= j < |f.branches|
        ensures BranchOk(P, after, h1, k, level, f, j)
      {
        assert BranchOk(P, before, h0, k, level, f, j);
        if f.branches[j].Opened? {
          var c := f.branches[j].pid;
          assert IsChild(before, k, c);
        }
      }
    }
  }

  /** A process that did not move, and whose children evolve, is still in order. */
  lemma OtherProcess(P: Params, before: seq<Process>, after: seq<Process>, h0: bool, h1: bool, k: nat)
    requires k < |before| <= |after|
    requires ProcOk(P, before, h0, k) && after[k] == before[k]
    requires h1 ==> h0
    requires forall c :: IsChild(after, k, c) ==> IsChild(before, k, c)
    requires forall c :: IsChild(before, k, c) ==>
                           && Evolves(P, h1, before[c], after[c])
                           && after[c].reaped == before[c].reaped
                           && (before[c].reaped ==> after[c].control == before[c].control)
    ensures ProcOk(P, after, h1, k)
  {
    StackFrame(P, before, after, h0, h1, k, before[k].stack, before[k].task);
    forall c | IsChild(after, k, c)
      ensures ChildOk(after, k, c)
    {
      assert ChildOk(before, k, c);
    }
    if before[k].control.InNode? && before[k].stack.top.phase.Collecting? {
      forall c | IsChild(after, k, c)
        ensures after[c].reaped
      {
        assert IsChild(before, k, c);
      }
    }
  }

  /** Event steps that change one process only. */
  ghost predicate SoloChange(P: Params, before: seq<Process>, h1: bool, k: nat, p: Process) {
    && k < |before| && Alive(before[k])
    && p.parent == before[k].parent && p.home == before[k].home && p.task == before[k].task
    && p.reaped == before[k].reaped
    && (p.control == Exited(true) ==> Delivered(P, h1, p))
  }

  lemma SoloStack(
    P: Params, before: seq<Process>, h0: bool, h1: bool, k: nat, p: Process, s: Stack, task: Task)
    requires AllOk(P, before, h0) && SoloChange(P, before, h1, k, p) && (h1 ==> h0)
    requires StackOk(P, before, h0, k, s, task)
    ensures StackOk(P, before[k := p], h1, k, s, task)
  {
    forall c | IsChild(before, k, c)
      ensures c != k
    {
      assert ProcOk(P, before, h0, c);
    }
    StackFrame(P, before, before[k := p], h0, h1, k, s, task);
  }

  lemma SoloStep(P: Params, before: seq<Process>, h0: bool, h1: bool, k: nat, p: Process)
    requires AllOk(P, before, h0) && SoloChange(P, before, h1, k, p) && (h1 ==> h0)
    requires ProcOk(P, before[k := p], h1, k)
    ensures AllOk(P, before[k := p], h1)
  {
    var after := before[k := p];
    forall j | 0 <= j < |after| && j != k
      ensures ProcOk(P, after, h1, j)
    {
      assert ProcOk(P, before, h0, j) && ProcOk(P, before, h0, k);
      assert forall c :: IsChild(after, j, c) ==> IsChild(before, j, c);
      OtherProcess(P, before, after, h0, h1, j);
    }
  }

  /** A process that keeps its stack and its standing towards its children. */
  lemma SameStack(P: Params, before: seq<Process>, h: bool, k: nat, p: Process)
    requires AllOk(P, before, h) && SoloChange(P, before, h, k, p)
    requires p.stack == before[k].stack
    requires ControlOk(P, before[k := p], h, k)
    requires !JoinFailing(before[k]) || p.control == Exited(false)
    ensures AllOk(P, before[k := p], h)
  {
    var after := before[k := p];
    assert ProcOk(P, before, h, k);
    SoloStack(P, before, h, h, k, p, p.stack, p.task);
    forall c | IsChild(after, k, c)
      ensures ChildOk(after, k, c)
    {
      assert IsChild(before, k, c) && ChildOk(before, k, c) && ProcOk(P, before, h, c);
    }
    SoloStep(P, before, h, h, k, p);
  }
}
