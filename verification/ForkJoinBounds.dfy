/** How many processes and how many steps an evaluation can take, over every schedule. */
module ForkJoinBounds {
  import opened Prelude
  import opened Automata
  import opened ForkJoin

  /** `B` bounds the number of stored successors of every state and letter. */
  ghost predicate BranchBound(P: Params, B: nat) {
    B >= 1 && P.forkLimit >= 0 && forall q, c :: |P.m.Successors(q, c)| <= B
  }

  ghost function Total(procs: seq<Process>, cost: Process -> nat): nat {
    if procs == [] then 0
    else Total(procs[..|procs| - 1], cost) + cost(procs[|procs| - 1])
  }

  lemma {:induction false} TotalUpdate(procs: seq<Process>, cost: Process -> nat, k: nat, p: Process)
    requires k < |procs|
    ensures Total(procs[k := p], cost) == Total(procs, cost) - cost(procs[k]) + cost(p)
  {
    var n := |procs| - 1;
    if k == n {
      assert procs[k := p][..n] == procs[..n];
    } else {
      TotalUpdate(procs[..n], cost, k, p);
      assert procs[k := p][..n] == procs[..n][k := p];
    }
  }

  lemma TotalAppend(procs: seq<Process>, cost: Process -> nat, p: Process)
    ensures Total(procs + [p], cost) == Total(procs, cost) + cost(p)
  {
    assert (procs + [p])[..|procs|] == procs;
  }

  lemma {:induction false} TotalAtLeast(procs: seq<Process>, cost: Process -> nat)
    requires forall p :: cost(p) >= 1
    ensures |procs| <= Total(procs, cost)
  {
    if procs != [] {
      TotalAtLeast(procs[..|procs| - 1], cost);
    }
  }

  // ----- the number of processes

  ghost function ForkCeiling(P: Params, B: nat): int {
    P.forkLimit + B - 1
  }

  ghost predicate FrameForksOk(P: Params, B: nat, f: Frame) {
    && 0 <= f.forks <= P.forkLimit && 1 <= |f.branches| <= B
    && (f.phase.Forking? ==> 1 <= f.phase.i <= |f.branches|)
    && (f.phase.Fallback? ==> 1 <= f.phase.i < |f.branches|)
  }

  ghost predicate StackForksOk(P: Params, B: nat, s: Stack) {
    s.Push? ==> FrameForksOk(P, B, s.top) && StackForksOk(P, B, s.rest)
  }

  ghost predicate ProcForksOk(P: Params, B: nat, p: Process) {
    && StackForksOk(P, B, p.stack)
    && (p.control.Call? ==> 0 <= p.control.forks <= ForkCeiling(P, B))
  }

  ghost predicate ForksOk(P: Params, B: nat, s: State) {
    BranchBound(P, B) && forall k :: 0 <= k < |s.procs| ==> ProcForksOk(P, B, s.procs[k])
  }

  /** The processes a call can account for, itself included. */
  ghost function Share(K: int, forks: int): nat {
    if forks <= K then Pow2(K - forks) else 1
  }

  /** `n` shares. */
  ghost function Times(n: nat, share: nat): nat {
    if n == 0 then 0 else share + Times(n - 1, share)
  }

  /** How many more processes an activation may still account for, in its own process or not. */
  ghost function FrameFuture(K: int, f: Frame): nat {
    var share, b := Share(K, ChildForks(f)), |f.branches|;
    match f.phase
    case Forking(i) => if i <= b then share - 1 + Times(b - i, share) else 0
    case Fallback(i) => if i < b then Times(b - i, share) - 1 else 0
    case _ => 0
  }

  ghost function StackFuture(K: int, s: Stack): nat {
    if s.Empty? then 0 else FrameFuture(K, s.top) + StackFuture(K, s.rest)
  }

  ghost function Account(K: int, p: Process): nat {
    1 + StackFuture(K, p.stack) + if p.control.Call? then Share(K, p.control.forks) - 1 else 0
  }

  /** A node with b branches splits its share: b shares of its calls fit into it. */
  lemma {:induction false} ShareSplits(rest: nat, b: nat)
    requires 1 <= b
    ensures Times(b, Pow2(rest)) <= Pow2(rest + b - 1)
  {
    if b == 1 {
      assert Times(1, Pow2(rest)) == Pow2(rest) + Times(0, Pow2(rest));
    } else {
      ShareSplits(rest, b - 1);
      Pow2Monotone(rest, rest + b - 2);
    }
  }

  lemma EnterAccount(P: Params, B: nat, p: Process)
    requires BranchBound(P, B) && ProcForksOk(P, B, p) && p.control.Call?
    ensures ProcForksOk(P, B, Entered(P, p))
    ensures Account(ForkCeiling(P, B), Entered(P, p)) <= Account(ForkCeiling(P, B), p)
  {
    var K, q := ForkCeiling(P, B), Entered(P, p);
    if q.control.InNode? {
      var f, forks := q.stack.top, p.control.forks;
      var b := |f.branches|;
      assert |P.m.Successors(f.task.state, P.w[f.task.depth])| <= B;
      ShareSplits(K - forks - (b - 1), b);
      assert FrameFuture(K, f) == Share(K, ChildForks(f)) - 1 + Times(b - 1, Share(K, ChildForks(f)));
    }
  }

  /** The moves between the branches of a node. */
  lemma MoveAccount(P: Params, B: nat, s: State, e: Event)
    requires ForksOk(P, B, s) && Enabled(P, s, e) && (e == Fork(e.k, false) || e.Originate? || e.Resume?)
    ensures ProcForksOk(P, B, Next(P, s, e).procs[e.k])
    ensures Account(ForkCeiling(P, B), Next(P, s, e).procs[e.k]) <= Account(ForkCeiling(P, B), s.procs[e.k])
  {
    hide Pow2;
    assert ProcForksOk(P, B, s.procs[e.k]);
  }

  /** Waiting, collecting and ending. */
  lemma EndAccount(P: Params, B: nat, s: State, e: Event)
    requires ForksOk(P, B, s) && Enabled(P, s, e)
    requires !e.Enter? && !e.Fork? && !e.Originate? && !e.Resume?
    ensures ProcForksOk(P, B, Next(P, s, e).procs[e.k])
    ensures Account(ForkCeiling(P, B), Next(P, s, e).procs[e.k]) <= Account(ForkCeiling(P, B), s.procs[e.k])
  {
    hide Pow2, Times;
    assert ProcForksOk(P, B, s.procs[e.k]);
  }

  /** Events other than entering and forking do not increase the account of the process. */
  lemma LocalAccount(P: Params, B: nat, s: State, e: Event)
    requires ForksOk(P, B, s) && Enabled(P, s, e) && !e.Enter? && e != Fork(e.k, true)
    ensures ProcForksOk(P, B, Next(P, s, e).procs[e.k])
    ensures Account(ForkCeiling(P, B), Next(P, s, e).procs[e.k]) <= Account(ForkCeiling(P, B), s.procs[e.k])
  {
    hide Next, Account, ProcForksOk, ForksOk;
    if e.Fork? || e.Originate? || e.Resume? {
      MoveAccount(P, B, s, e);
    } else {
      EndAccount(P, B, s, e);
    }
  }

  lemma ForkAccount(P: Params, B: nat, s: State, k: nat)
    requires ForksOk(P, B, s) && Enabled(P, s, Fork(k, true))
    ensures
      var t, K := Next(P, s, Fork(k, true)), ForkCeiling(P, B);
      && ProcForksOk(P, B, t.procs[k]) && ProcForksOk(P, B, t.procs[|s.procs|])
      && Account(K, t.procs[k]) + Account(K, t.procs[|s.procs|]) <= Account(K, s.procs[k])
  {
    assert ProcForksOk(P, B, s.procs[k]);
  }

  /** Every event keeps the bounds and never increases the sum of the accounts. */
  lemma AccountStep(P: Params, B: nat, s: State, e: Event)
    requires ForksOk(P, B, s) && Enabled(P, s, e)
    ensures ForksOk(P, B, Next(P, s, e))
    ensures
      var cost := (p: Process) => Account(ForkCeiling(P, B), p);
      Total(Next(P, s, e).procs, cost) <= Total(s.procs, cost)
  {
    var cost, k, t := (p: Process) => Account(ForkCeiling(P, B), p), e.k, Next(P, s, e).procs;
    assert ProcForksOk(P, B, s.procs[k]);
    if e.Enter? {
      EnterAccount(P, B, s.procs[k]);
    } else if e == Fork(k, true) {
      ForkAccount(P, B, s, k);
    } else {
      LocalAccount(P, B, s, e);
    }
    var c := Touched(s, e);
    ChangedTotal(P, s, e, cost);
  }

  /** The other process an event changes, if any; else the process itself. */
  ghost function Touched(s: State, e: Event): nat
    requires e.k < |s.procs|
  {
    var p := s.procs[e.k];
    if e.Reap? then e.child
    else if e.Collect? && p.stack.Push? && p.stack.top.phase.Collecting?
            && p.stack.top.phase.i < |p.stack.top.branches| && p.stack.top.branches[p.stack.top.phase.i].Opened?
         then p.stack.top.branches[p.stack.top.phase.i].pid
    else e.k
  }

  /** What an event does to a total: the process that acts, the one it touches, a new one. */
  lemma ChangedTotal(P: Params, s: State, e: Event, cost: Process -> nat)
    requires Enabled(P, s, e)
    ensures
      var k, c, t := e.k, Touched(s, e), Next(P, s, e).procs;
      && k < |t| && c < |s.procs| <= |t|
      && (forall j :: 0 <= j < |s.procs| && j != k && j != c ==> t[j] == s.procs[j])
      && |t| == |s.procs| + (if e == Fork(k, true) then 1 else 0)
      && Total(t, cost) == Total(s.procs, cost) - cost(s.procs[k]) + cost(t[k])
                           + (if c != k then cost(t[c]) - cost(s.procs[c]) else 0)
                           + (if e == Fork(k, true) then cost(t[|s.procs|]) else 0)
  {
    var k, c, t := e.k, Touched(s, e), Next(P, s, e).procs;
    if e == Fork(k, true) {
      TotalUpdate(s.procs, cost, k, t[k]);
      TotalAppend(s.procs[k := t[k]], cost, t[|s.procs|]);
    } else if c != k {
      TotalUpdate(s.procs, cost, c, t[c]);
      TotalUpdate(s.procs[c := t[c]], cost, k, t[k]);
      assert t == s.procs[c := t[c]][k := t[k]];
    } else {
      TotalUpdate(s.procs, cost, k, t[k]);
      assert t == s.procs[k := t[k]];
    }
  }

  lemma {:induction false} AccountSchedule(P: Params, B: nat, s: State, schedule: seq<Event>, t: State)
    requires ForksOk(P, B, s) && Runs(P, s, schedule, t)
    ensures ForksOk(P, B, t)
    ensures
      var cost := (p: Process) => Account(ForkCeiling(P, B), p);
      Total(t.procs, cost) <= Total(s.procs, cost)
    decreases |schedule|
  {
    if schedule != [] {
      AccountStep(P, B, s, schedule[0]);
      AccountSchedule(P, B, Next(P, s, schedule[0]), schedule[1..], t);
    }
  }

  /** No call ever carries a fork count above the limit plus the branch bound minus one, and
      the processes ever created number at most two to that power. */
  lemma ProcessBound(P: Params, B: nat, schedule: seq<Event>, t: State)
    requires BranchBound(P, B) && Runs(P, Init(P), schedule, t)
    ensures |t.procs| <= Pow2(P.forkLimit + B - 1)
    ensures forall k :: 0 <= k < |t.procs| && t.procs[k].control.Call? ==>
                          t.procs[k].control.forks <= P.forkLimit + B - 1
  {
    var cost := (p: Process) => Account(ForkCeiling(P, B), p);
    assert ForksOk(P, B, Init(P));
    AccountSchedule(P, B, Init(P), schedule, t);
    assert Init(P).procs[..0] == [];
    assert Total(Init(P).procs, cost) == cost(Init(P).procs[0]) == Pow2(ForkCeiling(P, B));
    TotalAtLeast(t.procs, cost);
    forall k | 0 <= k < |t.procs|
      ensures ProcForksOk(P, B, t.procs[k])
    {
    }
  }
}
