/** The processes of the whole system are the two loops: whatever the schedule, what the server does
    is what its event loop does on the messages it read, and so for each tester. */
module ProtocolLoops {
  import opened Prelude
  import opened Wire
  import opened Protocol
  import Server
  import Tester

  // ----- the server

  /** The turns the server has finished, what it has read in the present one, and the messages it
      has sent. */
  datatype Log = Log(done: seq<Server.Turn>, current: Server.Turn, mailed: seq<Server.Mail>)

  const NOTHING_READ := Server.Turn([], None, 0, None, [])

  /** The log after an event. What the server sends is what its event appends to the testers'
      queues. */
  ghost function Logged(P: Setup, s: State, e: Event, g: Log): Log
    requires Enabled(P, s, e)
  {
    var more := Next(P, s, e).mail;
    var sent := if (e.ReadRun? || e.Finish?) && |s.mail| <= |more| then more[|s.mail|..] else [];
    match e
    case ReadRegister => g.(current := g.current.(registers := g.current.registers + [s.registers[0]]))
    case ReadRun => g.(current := g.current.(run := Head(s.runs)), mailed := g.mailed + sent)
    case Wait(child) => g.(current := g.current.(status := WaitStatus(s, child)))
    case ReadReport(spawned) => g.(current := g.current.(report := NextReport(s), attempts := [spawned]))
    case Finish => Log(g.done + [g.current], NOTHING_READ, g.mailed + sent)
    case _ => g
  }

  /** The server is where its event loop is after the finished turns and the part of the present
      one that it has been through. */
  ghost predicate InLoop(P: Setup, s: State, g: Log) {
    var (base, mail) := Server.RunServer(P.limit, g.done);
    var t := g.current;
    var s1 := Server.Throttle(Server.RegisterAll(base, t.registers), P.limit);
    var (s2, answers) := Server.HandleRun(s1, P.limit, t.run);
    var s3 := Server.CheckTermination(Server.HandleReap(s2, t.status), t.status, t.run.Some?);
    var s4 := Server.HandleReport(s3, t.report, Server.Spawned(t.attempts, Server.RETRIES));
    && (s.phase != Gone ==> !base.forceTermination)
    && match s.phase
       case AtRegister =>
         t == NOTHING_READ.(registers := t.registers) && s.server == Server.RegisterAll(base, t.registers)
         && g.mailed == mail
       case AtRun => t == NOTHING_READ.(registers := t.registers) && s.server == s1 && g.mailed == mail
       case AtWait => s.server == s2 && g.mailed == mail + answers && s.gotRun == t.run.Some?
       case AtReport => s.server == s3 && g.mailed == mail + answers
       case AtFinish => s.server == s4 && g.mailed == mail + answers
       case Gone => t == NOTHING_READ && s.server == base && g.mailed == mail
  }

  ghost function LogOf(P: Setup, s: State, schedule: seq<Event>, g: Log): Log
    decreases schedule
  {
    if schedule == [] || !Enabled(P, s, schedule[0]) then g
    else LogOf(P, Next(P, s, schedule[0]), schedule[1..], Logged(P, s, schedule[0], g))
  }

  lemma RegisterLog(P: Setup, s: State, g: Log)
    requires InLoop(P, s, g) && Enabled(P, s, ReadRegister)
    ensures InLoop(P, Next(P, s, ReadRegister), Logged(P, s, ReadRegister, g))
  {
    hide Server.RunServer, Server.Throttle, Server.HandleRun, Server.RegisterOne, Server.HandleReport,
      Server.CheckTermination, Server.HandleReap, Server.Spawned;
    var ms := g.current.registers;
    assert (ms + [s.registers[0]])[..|ms|] == ms;
  }

  lemma RunLog(P: Setup, s: State, g: Log)
    requires InLoop(P, s, g) && Enabled(P, s, ReadRun)
    ensures InLoop(P, Next(P, s, ReadRun), Logged(P, s, ReadRun, g))
  {
    hide Server.RunServer, Server.Throttle, Server.HandleRun, Server.RegisterAll, Server.HandleReport,
      Server.CheckTermination, Server.HandleReap, Server.Spawned;
    var answers := Server.HandleRun(s.server, P.limit, Head(s.runs)).1;
    assert (s.mail + answers)[|s.mail|..] == answers;
  }

  lemma WaitLog(P: Setup, s: State, g: Log, child: Option<int>)
    requires InLoop(P, s, g) && Enabled(P, s, Wait(child))
    ensures InLoop(P, Next(P, s, Wait(child)), Logged(P, s, Wait(child), g))
  {
    hide Server.RunServer, Server.Throttle, Server.HandleRun, Server.RegisterAll, Server.HandleReport,
      Server.CheckTermination, Server.HandleReap, Server.Spawned;
  }

  lemma OneAttempt(spawned: Option<int>)
    ensures Server.Spawned([spawned], Server.RETRIES) == spawned
  {
    assert [spawned][1..] == [];
  }

  lemma ReportLog(P: Setup, s: State, g: Log, spawned: Option<int>)
    requires InLoop(P, s, g) && Enabled(P, s, ReadReport(spawned))
    ensures InLoop(P, Next(P, s, ReadReport(spawned)), Logged(P, s, ReadReport(spawned), g))
  {
    hide Server.RunServer, Server.Throttle, Server.HandleRun, Server.RegisterAll, Server.HandleReport,
      Server.CheckTermination, Server.HandleReap, Server.Spawned;
    OneAttempt(spawned);
  }

  lemma FinishLog(P: Setup, s: State, g: Log)
    requires InLoop(P, s, g) && Enabled(P, s, Finish)
    ensures InLoop(P, Next(P, s, Finish), Logged(P, s, Finish, g))
  {
    hide Server.Throttle, Server.HandleRun, Server.HandleReport, Server.Broadcast,
      Server.CheckTermination, Server.HandleReap, Server.Spawned;
    var done, t := g.done, g.current;
    assert (done + [t])[..|done|] == done;
    var exits := Server.Broadcast(s.server.testerSlots);
    assert (s.mail + exits)[|s.mail|..] == exits && s.mail[|s.mail|..] == [];
    assert g.mailed + [] == g.mailed;
    FinishedTurn(P, s, g);
  }

  lemma FinishedTurn(P: Setup, s: State, g: Log)
    requires InLoop(P, s, g) && s.phase == AtFinish
    ensures Server.RunServer(P.limit, g.done + [g.current]) ==
            (s.server, g.mailed + if s.server.forceTermination then Server.Broadcast(s.server.testerSlots) else [])
  {
    hide Server.Throttle, Server.HandleRun, Server.HandleReport, Server.Broadcast, Server.RegisterAll,
      Server.CheckTermination, Server.HandleReap, Server.Spawned;
    var done, t := g.done, g.current;
    assert (done + [t])[..|done|] == done;
    var (base, mail) := Server.RunServer(P.limit, done);
    var (u, answers) := Server.BeforeReport(base, P.limit, t);
    var exits := if s.server.forceTermination then Server.Broadcast(s.server.testerSlots) else [];
    assert Server.Step(base, P.limit, t) == (s.server, answers + exits);
    assert mail + (answers + exits) == (mail + answers) + exits;
  }

  lemma LogStep(P: Setup, s: State, e: Event, g: Log)
    requires InLoop(P, s, g) && Enabled(P, s, e)
    ensures InLoop(P, Next(P, s, e), Logged(P, s, e, g))
  {
    match e {
      case ReadRegister => RegisterLog(P, s, g);
      case ReadRun => RunLog(P, s, g);
      case Wait(child) => WaitLog(P, s, g, child);
      case ReadReport(spawned) => ReportLog(P, s, g, spawned);
      case Finish => FinishLog(P, s, g);
      case _ => OtherLog(P, s, e, g);
    }
  }

  lemma ServerKept(P: Setup, s: State, e: Event)
    requires Enabled(P, s, e)
    requires e.StartTester? || e.TesterInput? || e.TesterRead? || e.WorkerReport? || e.WorkerExit? || e.WorkerCrash?
    ensures Next(P, s, e).server == s.server && Next(P, s, e).phase == s.phase && Next(P, s, e).gotRun == s.gotRun
  {
    hide Tester.TakeLine, Tester.TakeMail, MailIndex, Reports, Transmitted, QueueName;
  }

  lemma OtherLog(P: Setup, s: State, e: Event, g: Log)
    requires InLoop(P, s, g) && Enabled(P, s, e)
    requires !e.ReadRegister? && !e.ReadRun? && !e.Wait? && !e.ReadReport? && !e.Finish?
    ensures InLoop(P, Next(P, s, e), Logged(P, s, e, g))
  {
    hide Server.RunServer, Server.HandleRun, Server.RegisterAll, Server.HandleReport, Reports,
      Server.CheckTermination, Server.HandleReap, Server.Spawned;
    if e.EndRegisters? {
      assert Logged(P, s, e, g) == g;
    } else {
      hide Next, Enabled;
      ServerKept(P, s, e);
      assert Logged(P, s, e, g) == g;
    }
  }

  lemma {:induction false} LogSchedule(P: Setup, s: State, schedule: seq<Event>, t: State, g: Log)
    requires InLoop(P, s, g) && Runs(P, s, schedule, t)
    ensures InLoop(P, t, LogOf(P, s, schedule, g))
    decreases schedule
  {
    hide InLoop, Next, Enabled, Logged;
    if schedule != [] {
      LogStep(P, s, schedule[0], g);
      LogSchedule(P, Next(P, s, schedule[0]), schedule[1..], t, Logged(P, s, schedule[0], g));
    }
  }

  /** Whenever the server stands before a turn, or is gone, its state and all the messages it has sent
      are those of its event loop on the trace of what it read, whatever the schedule. */
  lemma ServerIsItsLoop(P: Setup, schedule: seq<Event>, t: State)
    requires Runs(P, INITIAL, schedule, t)
    ensures
      var g := LogOf(P, INITIAL, schedule, Log([], NOTHING_READ, []));
      t.phase == Gone || (t.phase == AtRegister && g.current == NOTHING_READ) ==>
        Server.RunServer(P.limit, g.done) == (t.server, g.mailed)
  {
    hide LogOf, Runs, Server.HandleRun, Server.HandleReport, Server.CheckTermination, Server.Spawned, Server.Throttle;
    var g := Log([], NOTHING_READ, []);
    assert InLoop(P, INITIAL, g);
    LogSchedule(P, INITIAL, schedule, t, g);
  }

  // ----- a tester

  /** The lines a tester has printed. */
  function LinesOf(printed: seq<(int, Tester.Line)>, pid: int): seq<Tester.Line> {
    if printed == [] then []
    else
      var p := printed[|printed| - 1];
      LinesOf(printed[..|printed| - 1], pid) + if p.0 == pid then [p.1] else []
  }

  /** The turns a tester has finished, the input of the present one, and the messages it has sent. */
  datatype TesterLog = TesterLog(done: seq<Tester.Turn>, line: Option<string>, sent: seq<ReportMsg>)

  ghost function TesterLogged(P: Setup, s: State, pid: int, e: Event, g: TesterLog): TesterLog
    requires Enabled(P, s, e)
  {
    if e == TesterRead(pid) then
      var waiting := Tester.Waiting(s.testers[pid].state);
      var msg := if waiting then FirstMail(s.mail, QueueName(pid)) else None;
      TesterLog(g.done + [Tester.Turn(g.line, msg)], None, g.sent)
    else if e.TesterInput? && e.pid == pid then
      g.(line := e.line, sent := g.sent + Tester.TakeLine(s.testers[pid].state, pid, e.line).1)
    else g
  }

  ghost predicate InTesterLoop(s: State, pid: int, g: TesterLog) {
    var (base, sent, lines) := Tester.RunTester(pid, g.done);
    if pid !in s.testers then g == TesterLog([], None, []) && LinesOf(s.printed, pid) == []
    else
      var t := s.testers[pid];
      && LinesOf(s.printed, pid) == lines
      && if t.reading then
           !base.stopped && t.state == Tester.TakeLine(base, pid, g.line).0
           && g.sent == sent + Tester.TakeLine(base, pid, g.line).1
         else t.state == base && g.sent == sent
  }

  ghost function TesterLogOf(P: Setup, s: State, pid: int, schedule: seq<Event>, g: TesterLog): TesterLog
    decreases schedule
  {
    if schedule == [] || !Enabled(P, s, schedule[0]) then g
    else TesterLogOf(P, Next(P, s, schedule[0]), pid, schedule[1..], TesterLogged(P, s, pid, schedule[0], g))
  }

  lemma {:induction false} LinesSplit(a: seq<(int, Tester.Line)>, b: seq<(int, Tester.Line)>, pid: int)
    ensures LinesOf(a + b, pid) == LinesOf(a, pid) + LinesOf(b, pid)
  {
    if b == [] {
      assert a + b == a;
    } else {
      assert (a + b)[..|a + b| - 1] == a + b[..|b| - 1];
      LinesSplit(a, b[..|b| - 1], pid);
    }
  }

  lemma {:induction false} OwnLines(lines: seq<Tester.Line>, p: int, pid: int)
    ensures LinesOf(Printed(p, lines), pid) == if p == pid then lines else []
  {
    if lines != [] {
      var n := |lines| - 1;
      assert Printed(p, lines)[..n] == Printed(p, lines[..n]);
      OwnLines(lines[..n], p, pid);
    }
  }

  lemma ReadTurn(P: Setup, s: State, pid: int, g: TesterLog)
    requires InTesterLoop(s, pid, g) && Enabled(P, s, TesterRead(pid))
    ensures InTesterLoop(Next(P, s, TesterRead(pid)), pid, TesterLogged(P, s, pid, TesterRead(pid), g))
  {
    hide Tester.TakeLine, Tester.TakeMail, MailIndex, QueueName, LinesOf;
    var next := TesterLogged(P, s, pid, TesterRead(pid), g);
    var t := next.done[|g.done|];
    assert next.done[..|g.done|] == g.done;
    var lines := Tester.TakeMail(s.testers[pid].state, t.msg).1;
    LinesSplit(s.printed, Printed(pid, lines), pid);
    OwnLines(lines, pid, pid);
  }

  lemma OtherRead(P: Setup, s: State, pid: int, q: int, g: TesterLog)
    requires InTesterLoop(s, pid, g) && Enabled(P, s, TesterRead(q)) && q != pid
    ensures InTesterLoop(Next(P, s, TesterRead(q)), pid, TesterLogged(P, s, pid, TesterRead(q), g))
  {
    hide Tester.TakeLine, Tester.TakeMail, Tester.RunTester, MailIndex, QueueName, LinesOf;
    var t := s.testers[q];
    var msg := if Tester.Waiting(t.state) then FirstMail(s.mail, QueueName(q)) else None;
    var lines := Tester.TakeMail(t.state, msg).1;
    LinesSplit(s.printed, Printed(q, lines), pid);
    OwnLines(lines, q, pid);
    assert LinesOf(s.printed, pid) + [] == LinesOf(s.printed, pid);
  }

  /** The server and the workers leave the testers, and what was printed, as they are. */
  lemma TestersKept(P: Setup, s: State, e: Event)
    requires Enabled(P, s, e) && !e.StartTester? && !e.TesterInput? && !e.TesterRead?
    ensures Next(P, s, e).printed == s.printed && Next(P, s, e).testers == s.testers
  {
    hide Server.HandleRun, Server.HandleReport, Server.RegisterOne, Server.Throttle, Server.CheckTermination,
      Server.HandleReap, Server.Broadcast, Reports, Starts, Zombie, WaitStatus, NextReport;
    match e {
      case ReadReport(spawned) =>
      case Wait(child) =>
      case _ =>
    }
  }

  /** Other testers' input leaves the tester as it is. */
  lemma TesterKept(P: Setup, s: State, pid: int, e: Event)
    requires Enabled(P, s, e) && (e.StartTester? || (e.TesterInput? && e.pid != pid))
    ensures Next(P, s, e).printed == s.printed
    ensures pid in s.testers ==> pid in Next(P, s, e).testers && Next(P, s, e).testers[pid] == s.testers[pid]
    ensures pid !in s.testers && pid in Next(P, s, e).testers ==>
              Next(P, s, e).testers[pid] == TesterProcess(Tester.INITIAL, false, false)
  {
    hide Tester.TakeLine, QueueName, Transmitted;
  }

  lemma OthersTurn(P: Setup, s: State, pid: int, e: Event, g: TesterLog)
    requires InTesterLoop(s, pid, g) && Enabled(P, s, e) && !e.TesterRead? && !(e.TesterInput? && e.pid == pid)
    ensures InTesterLoop(Next(P, s, e), pid, TesterLogged(P, s, pid, e, g))
  {
    hide Tester.TakeLine, LinesOf, Next, Enabled;
    if e.StartTester? || e.TesterInput? {
      TesterKept(P, s, pid, e);
    } else {
      TestersKept(P, s, e);
    }
  }

  lemma InputTurn(P: Setup, s: State, pid: int, line: Option<string>, g: TesterLog)
    requires InTesterLoop(s, pid, g) && Enabled(P, s, TesterInput(pid, line))
    ensures InTesterLoop(Next(P, s, TesterInput(pid, line)), pid, TesterLogged(P, s, pid, TesterInput(pid, line), g))
  {
    hide Tester.TakeLine, QueueName, LinesOf, Transmitted, Tester.RunTester;
  }

  lemma {:induction false} TesterSchedule(P: Setup, s: State, pid: int, schedule: seq<Event>, t: State, g: TesterLog)
    requires InTesterLoop(s, pid, g) && Runs(P, s, schedule, t)
    ensures InTesterLoop(t, pid, TesterLogOf(P, s, pid, schedule, g))
    decreases schedule
  {
    hide InTesterLoop, Next, Enabled, TesterLogged;
    if schedule != [] {
      var e := schedule[0];
      if e == TesterRead(pid) {
        ReadTurn(P, s, pid, g);
      } else if e.TesterInput? && e.pid == pid {
        InputTurn(P, s, pid, e.line, g);
      } else if e.TesterRead? {
        OtherRead(P, s, pid, e.pid, g);
      } else {
        OthersTurn(P, s, pid, e, g);
      }
      TesterSchedule(P, Next(P, s, e), pid, schedule[1..], t, TesterLogged(P, s, pid, e, g));
    }
  }

  /** Between its turns a tester's state, the messages it has sent and the lines it has printed are
      those of its loop on the trace of what it read, whatever the schedule. */
  lemma TesterIsItsLoop(P: Setup, schedule: seq<Event>, t: State, pid: int)
    requires Runs(P, INITIAL, schedule, t) && pid in t.testers && !t.testers[pid].reading
    ensures
      var g := TesterLogOf(P, INITIAL, pid, schedule, TesterLog([], None, []));
      Tester.RunTester(pid, g.done) == (t.testers[pid].state, g.sent, LinesOf(t.printed, pid))
  {
    hide TesterLogOf, Runs, Tester.TakeLine, Tester.TakeMail;
    var g := TesterLog([], None, []);
    assert InTesterLoop(INITIAL, pid, g);
    TesterSchedule(P, INITIAL, pid, schedule, t, g);
  }
}
