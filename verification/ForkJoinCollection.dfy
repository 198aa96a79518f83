/** The collection loop of the node evaluator: what it computes from the answers it reads, and when
    reads of pipes that were never opened do no harm. */
module ForkJoinCollection {
  import opened Prelude
  import opened Automata
  import opened ForkJoin
  import opened ForkJoinProofs
  import opened ForkJoinSafety

  /** The collection loop from branch `i` on: an opened branch answers with its value, an
      unopened one with whatever the stray read happens to return. */
  ghost function CollectionLoop(P: Params, t: Task, piped: seq<bool>, stray: seq<bool>, i: nat): bool
    requires |piped| == |stray| == |P.Branches(t)|
    decreases |piped| - i
  {
    if i >= |piped| then !P.Decisive(t)
    else
      var answer := if piped[i] then P.Value(P.BranchTask(t, i)) else stray[i];
      if answer == P.Decisive(t) then answer else CollectionLoop(P, t, piped, stray, i + 1)
  }

  lemma {:induction false} CollectionDecides(P: Params, t: Task, piped: seq<bool>, stray: seq<bool>, i: nat)
    requires |piped| == |stray| == |P.Branches(t)|
    ensures CollectionLoop(P, t, piped, stray, i) == P.Decisive(t) <==>
            exists j :: i <= j < |piped| && if piped[j] then Decides(P, t, j) else stray[j] == P.Decisive(t)
    decreases |piped| - i
  {
    if i < |piped| {
      CollectionDecides(P, t, piped, stray, i + 1);
    }
  }

  /** Its result is right for every outcome of the stray reads exactly when some opened branch
      decides the node or there is no unopened branch, given that branch 0 and the unopened
      branches do not decide. */
  lemma LoopRightIff(P: Params, t: Task, piped: seq<bool>)
    requires t.depth < |P.w| && |piped| == |P.Branches(t)| > 0
    requires forall j :: 0 <= j < |piped| && (j == 0 || !piped[j]) ==> !Decides(P, t, j)
    ensures (forall stray: seq<bool> :: |stray| == |piped| ==>
                                          CollectionLoop(P, t, piped, stray, 1) == P.Value(t))
            <==>
            || (exists j :: 1 <= j < |piped| && piped[j] && Decides(P, t, j))
            || (forall j :: 1 <= j < |piped| ==> piped[j])
  {
    NodeValue(P, t);
    forall stray: seq<bool> | |stray| == |piped|
      ensures CollectionLoop(P, t, piped, stray, 1) == P.Decisive(t) <==>
              exists j :: 1 <= j < |piped| && if piped[j] then Decides(P, t, j) else stray[j] == P.Decisive(t)
    {
      CollectionDecides(P, t, piped, stray, 1);
    }
    if j :| 1 <= j < |piped| && !piped[j] {
      var stray := seq(|piped|, _ => P.Decisive(t));
      assert |stray| == |piped| && stray[j] == P.Decisive(t);
      assert CollectionLoop(P, t, piped, stray, 1) == P.Decisive(t);
    }
  }

  // ----- the loop as the machine runs it

  /** Process `k` is in the loop of a node for `t`, about to read branch `i`; each opened branch
      from there on has been computed by a child that has exited and left its value in the pipe. */
  ghost predicate InLoop(P: Params, s: State, k: nat, t: Task, piped: seq<bool>, i: nat) {
    && k < |s.procs| && AtNode(s.procs[k]) && i <= |piped| == |P.Branches(t)|
    && var f := s.procs[k].stack.top;
       && f.phase == Collecting(i) && f.task == t && |f.branches| == |piped|
       && forall j :: i <= j < |piped| ==> LoopBranch(P, s.procs, k, t, f.branches[j], piped[j], j)
  }

  ghost predicate LoopBranch(P: Params, procs: seq<Process>, k: nat, t: Task, b: Branch, piped: bool, j: nat) {
    match b
    case Opened(c) =>
      && piped && k < c < |procs| && procs[c].parent == k && procs[c].home.1 == j
      && procs[c].control.Exited? && procs[c].reaped && procs[c].pipe == [P.Value(P.BranchTask(t, j))]
    case ForkFailed => !piped
    case Pending => false
  }

  /** Which branches of a node have a pipe. */
  function Piped(f: Frame): seq<bool> {
    seq(|f.branches|, j requires 0 <= j < |f.branches| => f.branches[j].Opened?)
  }

  /** The loop starts in such a state, and branch 0 and the unopened branches do not decide. */
  lemma LoopBegins(P: Params, s: State, k: nat)
    requires Inv(P, s) && !s.stray && k < |s.procs| && AtNode(s.procs[k])
    requires s.procs[k].stack.top.phase == Collecting(1)
    ensures
      var f := s.procs[k].stack.top;
      && InLoop(P, s, k, f.task, Piped(f), 1) && f.task.depth < |P.w|
      && forall j :: 0 <= j < |f.branches| && (j == 0 || !Piped(f)[j]) ==> !Decides(P, f.task, j)
  {
    hide Accepts;
    var f, level := s.procs[k].stack.top, Height(s.procs[k].stack.rest);
    assert ProcOk(P, s.procs, true, k);
    forall j | 1 <= j < |f.branches|
      ensures LoopBranch(P, s.procs, k, f.task, f.branches[j], Piped(f)[j], j)
      ensures !Piped(f)[j] ==> !Decides(P, f.task, j)
    {
      assert BranchOk(P, s.procs, true, k, level, f, j);
      if f.branches[j].Opened? {
        var c := f.branches[j].pid;
        assert IsChild(s.procs, k, c) && ChildOk(s.procs, k, c) && ProcOk(P, s.procs, true, c);
      }
    }
  }

  /** Events of other processes do not touch a process that is in a node or has returned. */
  lemma SelfKept(P: Params, s: State, k: nat, e: Event)
    requires Inv(P, s) && Enabled(P, s, e) && e.k != k
    requires k < |s.procs| && (s.procs[k].control.InNode? || s.procs[k].control.Return?)
    ensures k < |Next(P, s, e).procs| && Next(P, s, e).procs[k] == s.procs[k]
  {
    hide Accepts, StackOk;
    assert ProcOk(P, s.procs, !s.stray, k);
  }

  /** Nor a finished child of another process. */
  lemma ChildKept(P: Params, s: State, c: nat, e: Event)
    requires Inv(P, s) && Enabled(P, s, e) && c < |s.procs| && s.procs[c].parent != e.k
    requires s.procs[c].control.Exited? && s.procs[c].reaped
    ensures c < |Next(P, s, e).procs| && Next(P, s, e).procs[c] == s.procs[c]
  {
    hide Accepts;
    assert ProcOk(P, s.procs, !s.stray, e.k);
    if e.Collect? && s.procs[e.k].stack.top.phase.i < |s.procs[e.k].stack.top.branches| {
      var g := s.procs[e.k].stack.top;
      assert BranchOk(P, s.procs, !s.stray, e.k, Height(s.procs[e.k].stack.rest), g, g.phase.i);
    }
  }

  /** Events of other processes leave the loop as it is. */
  lemma OthersLeave(P: Params, s: State, k: nat, t: Task, piped: seq<bool>, i: nat, e: Event)
    requires Inv(P, s) && InLoop(P, s, k, t, piped, i) && Enabled(P, s, e) && e.k != k
    ensures InLoop(P, Next(P, s, e), k, t, piped, i)
  {
    hide Inv, Next, Enabled, Accepts;
    SelfKept(P, s, k, e);
    var b, after := s.procs[k].stack.top.branches, Next(P, s, e).procs;
    forall j | i <= j < |piped|
      ensures LoopBranch(P, after, k, t, b[j], piped[j], j)
    {
      assert LoopBranch(P, s.procs, k, t, b[j], piped[j], j);
      if b[j].Opened? {
        ChildKept(P, s, b[j].pid, e);
      }
    }
  }

  /** The answer process `k` reads for branch `i`: the value of an opened branch; otherwise what the
      stray read returns, or none that matters if the read is skipped. */
  ghost function Read(P: Params, t: Task, piped: seq<bool>, i: nat, e: Event): bool
    requires i < |piped|
  {
    if piped[i] then P.Value(P.BranchTask(t, i)) else if e.StrayRead? then e.answer else !P.Decisive(t)
  }

  /** One step of the loop: it is left with a deciding answer, and goes on otherwise. */
  lemma LoopStep(P: Params, s: State, k: nat, t: Task, piped: seq<bool>, i: nat, e: Event)
    requires InLoop(P, s, k, t, piped, i) && Enabled(P, s, e) && e.k == k && (e.Collect? || e.StrayRead?)
    ensures
      var u := Next(P, s, e);
      if i == |piped| then k < |u.procs| && u.procs[k].control.Return? && u.procs[k].control.value == !P.Decisive(t)
      else
        var a := Read(P, t, piped, i, e);
        if a == P.Decisive(t) then k < |u.procs| && u.procs[k].control.Return? && u.procs[k].control.value == a
        else InLoop(P, u, k, t, piped, i + 1)
  {
    hide Accepts;
    var b := s.procs[k].stack.top.branches;
    if i < |piped| {
      assert LoopBranch(P, s.procs, k, t, b[i], piped[i], i);
    }
    var after := Next(P, s, e).procs;
    forall j | i < j < |piped|
      ensures LoopBranch(P, after, k, t, b[j], piped[j], j)
    {
      assert LoopBranch(P, s.procs, k, t, b[j], piped[j], j);
    }
  }

  /** Process `k` only collects; the others may do anything. */
  predicate OnlyCollects(schedule: seq<Event>, k: nat) {
    forall e :: e in schedule && e.k == k ==> e.Collect? || e.StrayRead?
  }

  /** Process `k`, collecting, can leave the node with the value `v`. */
  ghost predicate CollectsTo(P: Params, s: State, k: nat, v: bool) {
    exists schedule, u :: LeavesWith(P, s, schedule, u, k, v)
  }

  ghost predicate LeavesWith(P: Params, s: State, schedule: seq<Event>, u: State, k: nat, v: bool) {
    && Runs(P, s, schedule, u) && OnlyCollects(schedule, k)
    && k < |u.procs| && u.procs[k].control.Return? && u.procs[k].control.value == v
  }

  /** Once it has returned, a process that only collects stays as it is. */
  lemma {:induction false} StaysReturned(P: Params, s: State, schedule: seq<Event>, u: State, k: nat)
    requires Inv(P, s) && Runs(P, s, schedule, u) && OnlyCollects(schedule, k)
    requires k < |s.procs| && s.procs[k].control.Return?
    ensures k < |u.procs| && u.procs[k].control == s.procs[k].control
    decreases |schedule|
  {
    hide Inv, Next;
    if schedule != [] {
      var e := schedule[0];
      assert e in schedule && e.k != k;
      SelfKept(P, s, k, e);
      EventStep(P, s, e);
      assert forall x :: x in schedule[1..] ==> x in schedule;
      StaysReturned(P, Next(P, s, e), schedule[1..], u, k);
    }
  }

  lemma {:induction false} LoopTail(P: Params, t: Task, piped: seq<bool>, stray: seq<bool>, a: bool, n: nat, i: nat)
    requires |piped| == |stray| == |P.Branches(t)| && n < i && n < |piped|
    ensures CollectionLoop(P, t, piped, stray[n := a], i) == CollectionLoop(P, t, piped, stray, i)
    decreases |piped| - i
  {
    if i < |piped| {
      LoopTail(P, t, piped, stray, a, n, i + 1);
    }
  }

  /** Whatever the schedule, the node is left with the loop's value for the answers read. */
  lemma {:induction false} CollectionValue(
    P: Params, s: State, k: nat, t: Task, piped: seq<bool>, i: nat, schedule: seq<Event>, u: State, v: bool)
    returns (stray: seq<bool>)
    requires Inv(P, s) && InLoop(P, s, k, t, piped, i) && LeavesWith(P, s, schedule, u, k, v)
    ensures |stray| == |piped| && v == CollectionLoop(P, t, piped, stray, i)
    decreases |schedule|
  {
    hide Next, Enabled, Inv, Accepts, InLoop;
    InLoopFacts(P, s, k, t, piped, i);
    var e, rest := schedule[0], schedule[1..];
    assert e in schedule && forall x :: x in rest ==> x in schedule;
    var m := Next(P, s, e);
    EventStep(P, s, e);
    if e.k != k {
      OthersLeave(P, s, k, t, piped, i, e);
      stray := CollectionValue(P, m, k, t, piped, i, rest, u, v);
    } else {
      LoopStep(P, s, k, t, piped, i, e);
      if i == |piped| || Read(P, t, piped, i, e) == P.Decisive(t) {
        StaysReturned(P, m, rest, u, k);
        stray := seq(|piped|, _ => P.Decisive(t));
      } else {
        stray := CollectionValue(P, m, k, t, piped, i + 1, rest, u, v);
        LoopTail(P, t, piped, stray, !P.Decisive(t), i, i + 1);
        stray := stray[i := !P.Decisive(t)];
      }
    }
  }

  lemma InLoopFacts(P: Params, s: State, k: nat, t: Task, piped: seq<bool>, i: nat)
    requires InLoop(P, s, k, t, piped, i)
    ensures i <= |piped| == |P.Branches(t)| && k < |s.procs| && s.procs[k].control.InNode?
  {
  }

  /** Every outcome of the stray reads is that of some schedule. */
  lemma {:induction false} CollectionRun(P: Params, s: State, k: nat, t: Task, piped: seq<bool>, stray: seq<bool>, i: nat)
    requires !P.guarded && Inv(P, s) && InLoop(P, s, k, t, piped, i) && |stray| == |piped|
    ensures |piped| == |P.Branches(t)| && CollectsTo(P, s, k, CollectionLoop(P, t, piped, stray, i))
    decreases |piped| - i
  {
    hide Next, Inv, Accepts;
    var b := s.procs[k].stack.top.branches;
    if i < |piped| {
      assert LoopBranch(P, s.procs, k, t, b[i], piped[i], i);
    }
    var e := if i < |piped| && !piped[i] then StrayRead(k, stray[i]) else Collect(k);
    var m, v := Next(P, s, e), CollectionLoop(P, t, piped, stray, i);
    LoopStep(P, s, k, t, piped, i, e);
    EventStep(P, s, e);
    if i == |piped| || Read(P, t, piped, i, e) == P.Decisive(t) {
      assert [e][1..] == [] && Runs(P, m, [], m);
      assert Runs(P, s, [e], m);
      assert LeavesWith(P, s, [e], m, k, v);
    } else {
      CollectionRun(P, m, k, t, piped, stray, i + 1);
      var schedule, u :| LeavesWith(P, m, schedule, u, k, v);
      assert ([e] + schedule)[1..] == schedule;
      assert LeavesWith(P, s, [e] + schedule, u, k, v);
    }
  }

  /** When a node reaches its collection loop in the code as written, its result is right on every
      schedule, whatever the reads of unopened pipes return, if and only if some opened branch
      decides the node or there is no unopened branch. */
  lemma StrayReadsHarmlessIff(P: Params, s: State, k: nat)
    requires !P.guarded && Inv(P, s) && !s.stray && k < |s.procs| && AtNode(s.procs[k])
    requires s.procs[k].stack.top.phase == Collecting(1)
    ensures
      var f := s.procs[k].stack.top;
      (forall v :: CollectsTo(P, s, k, v) ==> v == P.Value(f.task))
      <==>
      || (exists j :: 1 <= j < |f.branches| && f.branches[j].Opened? && Decides(P, f.task, j))
      || (forall j :: 1 <= j < |f.branches| ==> f.branches[j].Opened?)
  {
    hide Next, Enabled, Inv, Accepts, CollectionLoop, Runs, InLoop;
    var f := s.procs[k].stack.top;
    var t, piped := f.task, Piped(f);
    LoopBegins(P, s, k);
    InLoopFacts(P, s, k, t, piped, 1);
    LoopBegun(P, s, k, f);
    LoopRightIff(P, t, piped);
    forall v | CollectsTo(P, s, k, v)
      ensures exists stray: seq<bool> :: |stray| == |piped| && v == CollectionLoop(P, t, piped, stray, 1)
    {
      var schedule, u :| LeavesWith(P, s, schedule, u, k, v);
      var stray := CollectionValue(P, s, k, t, piped, 1, schedule, u, v);
    }
    forall stray: seq<bool> | |stray| == |piped|
      ensures CollectsTo(P, s, k, CollectionLoop(P, t, piped, stray, 1))
    {
      CollectionRun(P, s, k, t, piped, stray, 1);
    }
  }

  lemma LoopBegun(P: Params, s: State, k: nat, f: Frame)
    requires InLoop(P, s, k, f.task, Piped(f), 1)
    ensures |f.branches| > 0 && forall j :: 0 <= j < |f.branches| ==> Piped(f)[j] == f.branches[j].Opened?
  {
  }
}
