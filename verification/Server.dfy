/** The server: its state, the phases of one turn of its event loop in the order of the code,
    and the loop itself. */
module Server {
  import opened Prelude
  import opened Wire

  const RETRIES: nat := 3

  datatype RunSlot = RunSlot(pid: int, tester: int, loc: int)
  datatype TesterSlot = TesterSlot(pid: int, queue: string, rcd: nat, acc: nat)

  /** The slots are kept in the order in which the hash map's iterator meets them: storing
      removes an entry with the same pid and appends. `runBlocking` and `reportBlocking` are
      the modes of the two queues. */
  datatype State = State(
    runSlots: seq<RunSlot>, testerSlots: seq<TesterSlot>,
    active: int, shouldTerminate: bool, forceTermination: bool,
    rcd: nat, snt: nat, acc: nat,
    throttled: bool, runBlocking: bool, reportBlocking: bool)

  /** An entry for a tester's queue. */
  datatype Mail = Mail(queue: string, msg: TesterMsg)

  const INITIAL := State([], [], 0, false, false, 0, 0, 0, false, false, true)

  function RunIndex(s: seq<RunSlot>, pid: int): (i: nat)
    ensures i <= |s| && (i < |s| ==> s[i].pid == pid) && forall j :: 0 <= j < i ==> s[j].pid != pid
  {
    if s == [] || s[0].pid == pid then 0 else 1 + RunIndex(s[1..], pid)
  }

  function TesterIndex(s: seq<TesterSlot>, pid: int): (i: nat)
    ensures i <= |s| && (i < |s| ==> s[i].pid == pid) && forall j :: 0 <= j < i ==> s[j].pid != pid
  {
    if s == [] || s[0].pid == pid then 0 else 1 + TesterIndex(s[1..], pid)
  }

  function PutRun(s: seq<RunSlot>, slot: RunSlot): seq<RunSlot> {
    Without(s, RunIndex(s, slot.pid)) + [slot]
  }

  function PutTester(s: seq<TesterSlot>, slot: TesterSlot): seq<TesterSlot> {
    Without(s, TesterIndex(s, slot.pid)) + [slot]
  }

  /** The scan for a tester's session stops at the first with the right pid; without one it is
      left at the last session it saw. */
  function ScanSessions(s: seq<TesterSlot>, pid: int): Option<nat> {
    if s == [] then None
    else if TesterIndex(s, pid) < |s| then Some(TesterIndex(s, pid))
    else Some(|s| - 1)
  }

  lemma ScanInRange(s: seq<TesterSlot>, pid: int)
    ensures ScanSessions(s, pid).Some? ==> ScanSessions(s, pid).value < |s|
  {
  }

  // ----- the phases

  function RegisterOne(s: State, m: RegisterMsg): State {
    if m.Register? then s.(testerSlots := PutTester(s.testerSlots, TesterSlot(m.pid, m.queue, 0, 0))) else s
  }

  function RegisterAll(s: State, ms: seq<RegisterMsg>): State {
    if ms == [] then s else RegisterOne(RegisterAll(s, ms[..|ms| - 1]), ms[|ms| - 1])
  }

  function Throttle(s: State, limit: int): State {
    if !s.throttled && s.active > limit then s.(throttled := true, runBlocking := true, reportBlocking := false)
    else s
  }

  function Unthrottle(s: State, limit: int): State {
    if s.throttled && s.active < limit then s.(throttled := false, runBlocking := false, reportBlocking := true)
    else s
  }

  /** The answer to a worker's report: statistics, the message, and the end of its session. */
  function Forward(s: State, r: nat, result: int): (State, seq<Mail>)
    requires r < |s.runSlots|
  {
    var rs := s.runSlots[r];
    var rest := Without(s.runSlots, r);
    match ScanSessions(s.testerSlots, rs.tester)
    case None => (s.(runSlots := rest), [])
    case Some(i) =>
      var ts := s.testerSlots[i];
      var won := if result == 1 then 1 else 0;
      (s.(runSlots := rest, snt := s.snt + 1, acc := s.acc + won,
          testerSlots := s.testerSlots[i := ts.(acc := ts.acc + won)]),
       [Mail(ts.queue, Answer(rs.loc, result))])
  }

  function HandleRun(s: State, limit: int, msg: Option<RunMsg>): (State, seq<Mail>) {
    if msg == None || msg.value.BadRun? then (s, [])
    else
      var t := Unthrottle(s.(active := s.active - 1), limit);
      var r := RunIndex(t.runSlots, msg.value.pid);
      if r == |t.runSlots| then (t, []) else Forward(t, r, msg.value.result)
  }

  /** `status` is what the non-blocking wait returned: -1 for a worker that failed. */
  function HandleReap(s: State, status: int): State {
    if status == -1 then s.(active := s.active - 1) else s
  }

  function CheckTermination(s: State, status: int, gotRun: bool): State {
    if (s.active <= 0 || |s.runSlots| <= 0) && s.shouldTerminate && status == 0 && !gotRun
    then s.(forceTermination := true) else s
  }

  /** The session of a parse request, created if it is missing, with one more request. */
  function Charge(s: State, pid: int, queue: string): State {
    var slots := if TesterIndex(s.testerSlots, pid) < |s.testerSlots| then s.testerSlots
                 else PutTester(s.testerSlots, TesterSlot(pid, queue, 0, 0));
    var i := TesterIndex(slots, pid);
    s.(rcd := s.rcd + 1,
       testerSlots := if i < |slots| then slots[i := slots[i].(rcd := slots[i].rcd + 1)] else slots)
  }

  /** The first success among the first attempts to start a worker. */
  function Spawned(attempts: seq<Option<int>>, retries: nat): Option<int> {
    if retries == 0 || attempts == [] then None
    else if attempts[0].Some? then attempts[0]
    else Spawned(attempts[1..], retries - 1)
  }

  /** The pid of the first of the first `retries` attempts that succeeds, if any does. */
  predicate IsFirst(attempts: seq<Option<int>>, retries: nat, pid: Option<int>) {
    if pid == None then forall i :: 0 <= i < |attempts| && i < retries ==> attempts[i] == None
    else exists i :: 0 <= i < retries && FirstAt(attempts, i, pid)
  }

  /** Attempt `i` gave `pid`, and all before it failed. */
  predicate FirstAt(attempts: seq<Option<int>>, i: nat, pid: Option<int>) {
    i < |attempts| && attempts[i] == pid && forall j :: 0 <= j < i ==> attempts[j] == None
  }

  lemma {:induction false} FirstSpawned(attempts: seq<Option<int>>, retries: nat, pid: Option<int>)
    ensures IsFirst(attempts, retries, pid) <==> pid == Spawned(attempts, retries)
  {
    if retries > 0 && attempts != [] {
      var rest := attempts[1..];
      FirstSpawned(rest, retries - 1, pid);
      assert forall i :: 0 <= i < |rest| ==> rest[i] == attempts[i + 1];
      assert attempts[0].Some? ==> FirstAt(attempts, 0, attempts[0]);
      if attempts[0] == None && pid.Some? {
        if i: nat :| i < retries - 1 && FirstAt(rest, i, pid) {
          assert FirstAt(attempts, i + 1, pid);
        }
        if i: nat :| i < retries && FirstAt(attempts, i, pid) {
          assert i > 0 && FirstAt(rest, i - 1, pid);
        }
      }
    }
  }

  function HandleReport(s: State, msg: Option<ReportMsg>, spawned: Option<int>): State {
    if s.shouldTerminate || msg == None || msg.value.BadReport? then s
    else if msg.value.Stop? then s.(shouldTerminate := true)
    else
      var m, t := msg.value, Charge(s, msg.value.pid, msg.value.queue);
      if spawned == None then t
      else t.(runSlots := PutRun(t.runSlots, RunSlot(spawned.value, m.pid, m.loc)), active := t.active + 1)
  }

  /** The exit message for every session, in iteration order. */
  function Broadcast(s: seq<TesterSlot>): seq<Mail> {
    if s == [] then [] else Broadcast(s[..|s| - 1]) + [Mail(s[|s| - 1].queue, ServerExit)]
  }

  // ----- one turn of the loop, and the loop

  /** What one turn reads: the register queue up to its end, at most one message of the two
      other queues, the wait status, and the outcomes of the attempts to fork. */
  datatype Turn = Turn(
    registers: seq<RegisterMsg>, run: Option<RunMsg>, status: int,
    report: Option<ReportMsg>, attempts: seq<Option<int>>)

  function BeforeReport(s: State, limit: int, t: Turn): (State, seq<Mail>) {
    var s1 := Throttle(RegisterAll(s, t.registers), limit);
    var (s2, mail) := HandleRun(s1, limit, t.run);
    (CheckTermination(HandleReap(s2, t.status), t.status, t.run.Some?), mail)
  }

  function Step(s: State, limit: int, t: Turn): (State, seq<Mail>) {
    var (s1, mail) := BeforeReport(s, limit, t);
    var s2 := HandleReport(s1, t.report, Spawned(t.attempts, RETRIES));
    (s2, mail + if s2.forceTermination then Broadcast(s2.testerSlots) else [])
  }

  /** The loop over the turns of a trace, until it is left. */
  function RunServer(limit: int, trace: seq<Turn>): (State, seq<Mail>) {
    if trace == [] then (INITIAL, [])
    else
      var (s, mail) := RunServer(limit, trace[..|trace| - 1]);
      if s.forceTermination then (s, mail)
      else
        var (t, more) := Step(s, limit, trace[|trace| - 1]);
        (t, mail + more)
  }

  /** The server process: the variables of its main function, and its event loop in phases. */
  class Validator {
    var runSlots: seq<RunSlot>
    var testerSlots: seq<TesterSlot>
    var activeTasksCount: int
    var shouldTerminate: bool
    var forceTermination: bool
    var rcdCount: nat
    var sntCount: nat
    var accCount: nat
    var throttledMode: bool
    var runBlocking: bool
    var reportBlocking: bool

    function Value(): State
      reads this
    {
      State(runSlots, testerSlots, activeTasksCount, shouldTerminate, forceTermination,
            rcdCount, sntCount, accCount, throttledMode, runBlocking, reportBlocking)
    }

    constructor ()
      ensures Value() == INITIAL
    {
      runSlots, testerSlots, activeTasksCount := [], [], 0;
      shouldTerminate, forceTermination := false, false;
      rcdCount, sntCount, accCount := 0, 0, 0;
      throttledMode, runBlocking, reportBlocking := false, false, true;
    }

    method ReadRegisters(registers: seq<RegisterMsg>)
      modifies this`testerSlots
      ensures Value() == RegisterAll(old(Value()), registers)
    {
      for i := 0 to |registers|
        invariant Value() == RegisterAll(old(Value()), registers[..i])
      {
        assert registers[..i + 1][..i] == registers[..i];
        if registers[i].Register? {
          testerSlots := PutTester(testerSlots, TesterSlot(registers[i].pid, registers[i].queue, 0, 0));
        }
      }
      assert registers[..|registers|] == registers;
    }

    method EnterThrottling(processLimit: int)
      modifies this`throttledMode, this`runBlocking, this`reportBlocking
      ensures Value() == Throttle(old(Value()), processLimit)
    {
      if !throttledMode && activeTasksCount > processLimit {
        throttledMode := true;
        runBlocking := true;
        reportBlocking := false;
      }
    }

    /** The loop over the sessions that looks for a tester. */
    method FindSession(pid: int) returns (ts: Option<nat>)
      ensures ts == ScanSessions(testerSlots, pid)
    {
      ts := None;
      for i := 0 to |testerSlots|
        invariant ts == if i == 0 then None else Some(i - 1)
        invariant forall j :: 0 <= j < i ==> testerSlots[j].pid != pid
      {
        ts := Some(i);
        if testerSlots[i].pid == pid {
          break;
        }
      }
    }

    /** Answers the tester of run slot `r` and ends the slot. */
    method ForwardAnswer(r: nat, result: int) returns (sent: seq<Mail>)
      requires r < |runSlots|
      modifies this
      ensures (Value(), sent) == Forward(old(Value()), r, result)
    {
      hide ScanSessions, Without;
      var rs := runSlots[r];
      var ts := FindSession(rs.tester);
      sent := [];
      ScanInRange(testerSlots, rs.tester);
      if ts.Some? {
        sntCount := sntCount + 1;
        var slot := testerSlots[ts.value];
        if result == 1 {
          accCount := accCount + 1;
          slot := slot.(acc := slot.acc + 1);
        }
        testerSlots := testerSlots[ts.value := slot];
        sent := [Mail(slot.queue, Answer(rs.loc, result))];
      }
      runSlots := Without(runSlots, r);
    }

    method ReadRun(processLimit: int, msg: Option<RunMsg>) returns (sent: seq<Mail>)
      modifies this
      ensures (Value(), sent) == HandleRun(old(Value()), processLimit, msg)
    {
      hide Forward, RunIndex;
      sent := [];
      if msg == None || msg.value.BadRun? { return; }
      activeTasksCount := activeTasksCount - 1;
      if throttledMode && activeTasksCount < processLimit {
        runBlocking := false;
        reportBlocking := true;
        throttledMode := false;
      }
      var r := RunIndex(runSlots, msg.value.pid);
      if r < |runSlots| {
        sent := ForwardAnswer(r, msg.value.result);
      }
    }

    method ReapChild(status: int)
      modifies this`activeTasksCount
      ensures Value() == HandleReap(old(Value()), status)
    {
      if status == -1 {
        activeTasksCount := activeTasksCount - 1;
      }
    }

    method DecideTermination(status: int, gotRun: bool)
      modifies this`forceTermination
      ensures Value() == CheckTermination(old(Value()), status, gotRun)
    {
      if (activeTasksCount <= 0 || |runSlots| <= 0) && shouldTerminate && status == 0 && !gotRun {
        forceTermination := true;
      }
    }

    /** The retry loop around starting a worker: the pid of the first attempt that succeeds, of at
        most three, and none if they all fail. */
    method Spawn(attempts: seq<Option<int>>) returns (pid: Option<int>)
      ensures pid == None <==> forall i :: 0 <= i < |attempts| && i < 3 ==> attempts[i] == None
      ensures pid.Some? ==>
                exists i :: 0 <= i < |attempts| && i < 3 && attempts[i] == pid &&
                            forall j :: 0 <= j < i ==> attempts[j] == None
    {
      var retryCount := 0;
      while true
        invariant 0 <= retryCount < RETRIES && retryCount <= |attempts|
        invariant forall i :: 0 <= i < retryCount ==> attempts[i] == None
        decreases RETRIES - retryCount
      {
        if retryCount == |attempts| { return None; }
        if attempts[retryCount].Some? { return attempts[retryCount]; }
        retryCount := retryCount + 1;
        if retryCount >= RETRIES { return None; }
      }
    }

    /** Counts a request against the session of its tester, creating the session if needed. */
    method ChargeSession(pid: int, queue: string)
      modifies this`rcdCount, this`testerSlots
      ensures Value() == Charge(old(Value()), pid, queue)
    {
      hide PutTester;
      rcdCount := rcdCount + 1;
      if TesterIndex(testerSlots, pid) == |testerSlots| {
        testerSlots := PutTester(testerSlots, TesterSlot(pid, queue, 0, 0));
      }
      var ts := TesterIndex(testerSlots, pid);
      if ts < |testerSlots| {
        testerSlots := testerSlots[ts := testerSlots[ts].(rcd := testerSlots[ts].rcd + 1)];
      }
    }

    method ReadReport(msg: Option<ReportMsg>, attempts: seq<Option<int>>)
      modifies this
      ensures Value() == HandleReport(old(Value()), msg, Spawned(attempts, RETRIES))
    {
      hide Charge, Spawned, PutRun;
      if shouldTerminate || msg == None { return; }
      var m := msg.value;
      if m.Stop? {
        shouldTerminate := true;
      } else if m.Parse? {
        ChargeSession(m.pid, m.queue);
        var pid := Spawn(attempts);
        assert IsFirst(attempts, RETRIES, pid) by {
          if i :| 0 <= i < |attempts| && i < 3 && attempts[i] == pid && forall j :: 0 <= j < i ==> attempts[j] == None {
            assert FirstAt(attempts, i, pid);
          }
        }
        FirstSpawned(attempts, RETRIES, pid);
        if pid.Some? {
          runSlots := PutRun(runSlots, RunSlot(pid.value, m.pid, m.loc));
          activeTasksCount := activeTasksCount + 1;
        }
      }
    }

    method BroadcastExit() returns (sent: seq<Mail>)
      ensures sent == Broadcast(testerSlots)
    {
      sent := [];
      for i := 0 to |testerSlots|
        invariant sent == Broadcast(testerSlots[..i])
      {
        assert testerSlots[..i + 1][..i] == testerSlots[..i];
        sent := sent + [Mail(testerSlots[i].queue, ServerExit)];
      }
      assert testerSlots[..|testerSlots|] == testerSlots;
    }

    /** The event loop over the turns of a trace. */
    method EventLoop(processLimit: int, trace: seq<Turn>) returns (sent: seq<Mail>)
      requires Value() == INITIAL
      modifies this
      ensures (Value(), sent) == RunServer(processLimit, trace)
    {
      hide HandleRun, HandleReport, RegisterAll, Throttle, HandleReap, CheckTermination, Broadcast;
      sent := [];
      var turn := 0;
      while turn < |trace| && !forceTermination
        invariant 0 <= turn <= |trace|
        invariant RunServer(processLimit, trace[..turn]) == (Value(), sent)
      {
        var t := trace[turn];
        assert trace[..turn + 1][..turn] == trace[..turn];
        ReadRegisters(t.registers);
        EnterThrottling(processLimit);
        var answers := ReadRun(processLimit, t.run);
        ReapChild(t.status);
        DecideTermination(t.status, t.run.Some?);
        ReadReport(t.report, t.attempts);
        var exits := [];
        if forceTermination {
          exits := BroadcastExit();
        }
        sent := sent + (answers + exits);
        turn := turn + 1;
      }
      Stopped(processLimit, trace, turn);
    }
  }

  /** Once it is left, the loop reads no further turns. */
  lemma {:induction false} Stopped(limit: int, trace: seq<Turn>, turn: nat)
    requires turn <= |trace| && (turn == |trace| || RunServer(limit, trace[..turn]).0.forceTermination)
    ensures RunServer(limit, trace) == RunServer(limit, trace[..turn])
  {
    if turn == |trace| {
      assert trace[..turn] == trace;
    } else {
      var shorter := trace[..|trace| - 1];
      assert shorter[..turn] == trace[..turn];
      Stopped(limit, shorter, turn);
    }
  }
}
