/** Every schedule is finite, and an undisturbed one ends with the right answer. */
module ForkJoinTermination {
  import opened Prelude
  import opened Automata
  import opened ForkJoin
  import opened ForkJoinProofs
  import opened ForkJoinSafety
  import opened ForkJoinTheorems
  import opened ForkJoinBounds

  /** A bound on the events caused by a call with `n` letters to go. */
  ghost function CallCost(B: nat, n: nat): nat {
    if n == 0 then 5
    else
      var below := CallCost(B, n - 1);
      Times(B, below + 3) + below + 15 + B
  }

  function Remaining(P: Params, t: Task): nat {
    if t.depth <= |P.w| then |P.w| - t.depth else 0
  }

  ghost function FrameCost(P: Params, B: nat, f: Frame): nat {
    var b := |f.branches|;
    var call := if Remaining(P, f.task) > 0 then CallCost(B, Remaining(P, f.task) - 1) else 0;
    match f.phase
    case Forking(i) => if i <= b then Times(b - i, call + 3) + call + 14 + b else 0
    case Fallback(i) => if i < b then Times(b - i - 1, call + 3) + call + 14 + b else 0
    case Origin => 13 + b
    case Joining(_, _) => 12 + b
    case Collecting(i) => if i <= b then 10 + b - i else 0
  }

  ghost function StackCost(P: Params, B: nat, s: Stack): nat {
    if s.Empty? then 0 else FrameCost(P, B, s.top) + StackCost(P, B, s.rest)
  }

  ghost function ControlCost(P: Params, B: nat, c: Control): nat {
    match c
    case Call(t, _, _) => CallCost(B, Remaining(P, t))
    case Return(_, _) => 4
    case InNode => 0
    case Reported => 2
    case Answered(_) => 1
    case Exited(_) => 0
  }

  ghost function Cost(P: Params, B: nat, p: Process): nat {
    (if p.reaped then 0 else 1) +
    (if p.control.Exited? then 0 else 1 + StackCost(P, B, p.stack) + ControlCost(P, B, p.control))
  }

  lemma {:induction false} TimesMonotone(a: nat, b: nat, share: nat)
    requires a <= b
    ensures Times(a, share) <= Times(b, share)
    decreases b
  {
    if a < b {
      TimesMonotone(a, b - 1, share);
    }
  }

  lemma EnterCost(P: Params, B: nat, p: Process)
    requires BranchBound(P, B) && p.control.Call? && p.control.task.depth <= |P.w|
    ensures Cost(P, B, Entered(P, p)) < Cost(P, B, p)
  {
    var t, q := p.control.task, Entered(P, p);
    assert CallCost(B, Remaining(P, t)) >= 5;
    if q.control.InNode? {
      var b := |q.stack.top.branches|;
      assert |P.m.Successors(t.state, P.w[t.depth])| <= B;
      TimesMonotone(b - 1, B, CallCost(B, Remaining(P, t) - 1) + 3);
      assert Times(B, CallCost(B, Remaining(P, t) - 1) + 3) >= Times(b - 1, CallCost(B, Remaining(P, t) - 1) + 3);
    }
  }

  ghost function TotalCost(P: Params, B: nat, s: State): nat {
    Total(s.procs, p => Cost(P, B, p))
  }

  lemma ForkCost(P: Params, B: nat, s: State, k: nat)
    requires Inv(P, s) && Enabled(P, s, Fork(k, true))
    ensures
      var t := Next(P, s, Fork(k, true));
      Cost(P, B, t.procs[k]) + Cost(P, B, t.procs[|s.procs|]) < Cost(P, B, s.procs[k])
  {
    assert ProcOk(P, s.procs, !s.stray, k);
  }

  /** Leaving the fork loop, or staying in it after a failed fork. */
  lemma ForkingCost(P: Params, B: nat, s: State, e: Event)
    requires Inv(P, s) && Enabled(P, s, e) && (e.Originate? || e == Fork(e.k, false))
    ensures Cost(P, B, Next(P, s, e).procs[e.k]) < Cost(P, B, s.procs[e.k])
  {
    assert ProcOk(P, s.procs, !s.stray, e.k);
  }

  lemma ResumeCost(P: Params, B: nat, s: State, e: Event)
    requires Inv(P, s) && Enabled(P, s, e) && e.Resume?
    ensures Cost(P, B, Next(P, s, e).procs[e.k]) < Cost(P, B, s.procs[e.k])
  {
    hide Accepts;
    assert ProcOk(P, s.procs, !s.stray, e.k);
    var f, q := s.procs[e.k].stack.top, Next(P, s, e).procs[e.k];
    assert StackCost(P, B, q.stack) == FrameCost(P, B, q.stack.top) + StackCost(P, B, q.stack.rest);
  }

  lemma WaitingCost(P: Params, B: nat, s: State, e: Event)
    requires Inv(P, s) && Enabled(P, s, e) && (e.Reap? || e.WaitError?)
    ensures Cost(P, B, Next(P, s, e).procs[e.k]) == Cost(P, B, s.procs[e.k])
  {
  }

  lemma LeavingCost(P: Params, B: nat, s: State, e: Event)
    requires Inv(P, s) && Enabled(P, s, e)
    requires e.Joined? || e.Collect? || e.StrayRead? || e.Report? || e.Answer? || e.Exit? || e.Crash?
    ensures Cost(P, B, Next(P, s, e).procs[e.k]) < Cost(P, B, s.procs[e.k])
  {
    hide Accepts;
    assert ProcOk(P, s.procs, !s.stray, e.k);
  }

  /** Every event but a failing wait uses up some cost. */
  lemma CostStep(P: Params, B: nat, s: State, e: Event)
    requires Inv(P, s) && BranchBound(P, B) && Enabled(P, s, e)
    ensures TotalCost(P, B, Next(P, s, e)) + (if e.WaitError? then 0 else 1) <= TotalCost(P, B, s)
  {
    var cost := (p: Process) => Cost(P, B, p);
    assert ProcOk(P, s.procs, !s.stray, e.k);
    ChangedTotal(P, s, e, cost);
    if e.Enter? {
      EnterCost(P, B, s.procs[e.k]);
    } else if e == Fork(e.k, true) {
      ForkCost(P, B, s, e.k);
    } else if e.Originate? || e.Fork? {
      ForkingCost(P, B, s, e);
    } else if e.Resume? {
      ResumeCost(P, B, s, e);
    } else if e.Reap? || e.WaitError? {
      WaitingCost(P, B, s, e);
    } else {
      LeavingCost(P, B, s, e);
    }
    TouchedCost(P, B, s, e);
  }

  lemma TouchedCost(P: Params, B: nat, s: State, e: Event)
    requires Enabled(P, s, e)
    ensures
      var c := Touched(s, e);
      c != e.k ==>
        && c < |s.procs| && c < |Next(P, s, e).procs|
        && Cost(P, B, Next(P, s, e).procs[c]) + (if e.Reap? then 1 else 0) == Cost(P, B, s.procs[c])
  {
  }

  function Waits(schedule: seq<Event>): nat {
    if schedule == [] then 0 else (if schedule[0].WaitError? then 1 else 0) + Waits(schedule[1..])
  }

  lemma {:induction false} CostSchedule(P: Params, B: nat, s: State, schedule: seq<Event>, t: State)
    requires Inv(P, s) && BranchBound(P, B) && Runs(P, s, schedule, t)
    ensures |schedule| - Waits(schedule) <= TotalCost(P, B, s)
    decreases |schedule|
  {
    if schedule != [] {
      EventStep(P, s, schedule[0]);
      CostStep(P, B, s, schedule[0]);
      CostSchedule(P, B, Next(P, s, schedule[0]), schedule[1..], t);
    }
  }

  /** No schedule is infinite: apart from waits that fail without a child, its length is
      bounded by the branch bound and the length of the word. */
  lemma ScheduleBound(P: Params, B: nat, schedule: seq<Event>, t: State)
    requires BranchBound(P, B) && Runs(P, Init(P), schedule, t)
    ensures |schedule| - Waits(schedule) <= 2 + CallCost(B, |P.w|)
  {
    CostSchedule(P, B, Init(P), schedule, t);
    assert Init(P).procs[..0] == [];
    var cost := (p: Process) => Cost(P, B, p);
    assert Total(Init(P).procs, cost) == cost(Init(P).procs[0]);
  }

  // ----- undisturbed schedules

  predicate Undisturbed(e: Event) {
    !e.Crash? && !e.WaitError? && (e.Fork? ==> e.success)
  }

  predicate JoinsOk(s: Stack) {
    s.Push? ==> (s.top.phase.Joining? ==> s.top.phase.ok) && JoinsOk(s.rest)
  }

  ghost predicate Clean(s: State) {
    forall k :: 0 <= k < |s.procs| ==> s.procs[k].control != Exited(false) && JoinsOk(s.procs[k].stack)
  }

  lemma CleanStep(P: Params, s: State, e: Event)
    requires Clean(s) && Enabled(P, s, e) && Undisturbed(e)
    ensures Clean(Next(P, s, e))
  {
    hide Accepts, ForkJoinBounds.Total;
    var k, c, t := e.k, Touched(s, e), Next(P, s, e).procs;
    ChangedTotal(P, s, e, _ => 0);
    assert JoinsOk(s.procs[k].stack) && s.procs[k].control != Exited(false);
    assert t[k].control != Exited(false) && JoinsOk(t[k].stack);
    forall j | 0 <= j < |t|
      ensures t[j].control != Exited(false) && JoinsOk(t[j].stack)
    {
      if j < |s.procs| && j != k && j != c {
        assert t[j] == s.procs[j];
      }
    }
  }

  lemma {:induction false} CleanSchedule(P: Params, s: State, schedule: seq<Event>, t: State)
    requires Clean(s) && Runs(P, s, schedule, t)
    requires forall e :: e in schedule ==> Undisturbed(e)
    ensures Clean(t)
    decreases |schedule|
  {
    if schedule != [] {
      assert schedule[0] in schedule;
      CleanStep(P, s, schedule[0]);
      CleanSchedule(P, Next(P, s, schedule[0]), schedule[1..], t);
    }
  }

  /** Total correctness: when no event disturbs the evaluation and it cannot go on, the root
      has answered, and the answer is acceptance. By `ScheduleBound` it does get there. */
  lemma UndisturbedAnswers(P: Params, schedule: seq<Event>, t: State)
    requires Runs(P, Init(P), schedule, t)
    requires forall e :: e in schedule ==> Undisturbed(e)
    requires forall e :: Undisturbed(e) ==> !Enabled(P, t, e)
    ensures t.procs != [] && t.procs[0].control == Answered(AcceptsWord(P.m, P.w))
  {
    ScheduleKeeps(P, Init(P), schedule, t);
    CleanSchedule(P, Init(P), schedule, t);
    assert ProcOk(P, t.procs, !t.stray, 0);
    if !Finished(t.procs[0]) {
      var e := Progress(P, t);
      assert Undisturbed(e);
      assert false;
    }
    ForkJoinRefines(P, schedule, t);
  }

  // ----- an answer can always be reached

  lemma {:induction false} RowsBounded(rows: map<(int, int), seq<int>>) returns (B: nat)
    ensures B >= 1 && forall k :: k in rows ==> |rows[k]| <= B
    decreases |rows|
  {
    if rows == map[] {
      B := 1;
    } else {
      var k :| k in rows;
      var rest := rows - {k};
      assert rows.Keys == rest.Keys + {k};
      B := RowsBounded(rest);
      if |rows[k]| > B {
        B := |rows[k]|;
      }
    }
  }

  lemma {:induction false} CanFinish(P: Params, B: nat, s: State) returns (schedule: seq<Event>, t: State)
    requires Inv(P, s) && BranchBound(P, B)
    ensures Runs(P, s, schedule, t) && t.procs != [] && Finished(t.procs[0])
    ensures forall e :: e in schedule ==> Undisturbed(e)
    decreases TotalCost(P, B, s)
  {
    hide Next, Enabled, Inv, TotalCost;
    RootExists(P, s);
    if Finished(s.procs[0]) {
      schedule, t := [], s;
    } else {
      var e := Progress(P, s);
      EventStep(P, s, e);
      CostStep(P, B, s, e);
      schedule, t := CanFinish(P, B, Next(P, s, e));
      assert ([e] + schedule)[1..] == schedule;
      schedule := [e] + schedule;
    }
  }

  lemma RootExists(P: Params, s: State)
    requires Inv(P, s)
    ensures |s.procs| > 0
  {
  }

  /** On every automaton and word the evaluator can answer: some undisturbed schedule does. */
  lemma AnswerExists(P: Params) returns (schedule: seq<Event>, t: State)
    requires P.forkLimit >= 0
    ensures Runs(P, Init(P), schedule, t) && (forall e :: e in schedule ==> Undisturbed(e))
    ensures t.procs != [] && t.procs[0].control == Answered(AcceptsWord(P.m, P.w))
  {
    var B := RowsBounded(P.m.delta);
    schedule, t := CanFinish(P, B, Init(P));
    ScheduleKeeps(P, Init(P), schedule, t);
    CleanSchedule(P, Init(P), schedule, t);
    assert ProcOk(P, t.procs, !t.stray, 0);
    ForkJoinRefines(P, schedule, t);
  }
}
