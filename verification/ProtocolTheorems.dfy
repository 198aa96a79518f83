/** What holds of the whole system over every schedule of testers, server and workers. */
module ProtocolTheorems {
  import opened Prelude
  import opened Automata
  import opened Graph
  import opened Wire
  import opened Protocol
  import opened ProtocolProofs
  import Server
  import Tester

  /** Equal entries count twice. */
  lemma TallyTwice<T>(s: seq<T>, i: nat, j: nat, f: T -> Option<Token>)
    requires i < j < |s| && f(s[i]).Some? && f(s[i]) == f(s[j])
    ensures Tally(s, f)[f(s[i]).value] >= 2
  {
    hide Tally;
    TallyWithout(s, j, f);
    WithoutAt(s, j);
    TallyWithout(Without(s, j), i, f);
  }

  lemma PrintedOnce(P: Setup, t: State, i: nat, j: nat)
    requires Inv(P, t) && i < j < |t.printed|
    ensures LineToken(t.printed[i]) != LineToken(t.printed[j])
  {
    hide Tally, QueueName, AcceptsWord, Transmitted, Crew, Delivered, Counted, Tables, Owned, Farewell, Forced;
    var k := LineToken(t.printed[i]).value;
    assert multiset(t.sent.Keys)[k] <= 1;
    if LineToken(t.printed[i]) == LineToken(t.printed[j]) {
      TallyTwice(t.printed, i, j, LineToken);
    }
  }

  /** The words the specification allows travel unchanged. */
  lemma WordsArrive(word: string)
    requires LowerCase(word)
    ensures Transmitted(word) == word && IsWord(word)
  {
    QueueNameBlankFree(0);
    ParseTransmits(0, QueueName(0), 0, word);
    ParseRoundTrip(0, QueueName(0), 0, word);
  }

  /** End-to-end safety. In every reachable state each line a tester has printed is for the
      word it sent under that local id, and is printed once; and if the word as transmitted is
      over letters that the tables hold, it says A exactly when the automaton accepts that word.
      Lower-case words are, and are transmitted unchanged. */
  lemma EndToEnd(P: Setup, t: State)
    requires Reachable(P, t)
    ensures forall i :: 0 <= i < |t.printed| ==>
              var (pid, line) := t.printed[i];
              var k := Token(QueueName(pid), line.loc);
              && k in t.sent && t.sent[k] == line.word
              && (IsWord(Transmitted(line.word)) ==> (line.accepted <==> AcceptsWord(P.m, Transmitted(line.word))))
              && (LowerCase(line.word) ==> (line.accepted <==> AcceptsWord(P.m, line.word)))
    ensures forall i, j :: 0 <= i < j < |t.printed| ==>
              !(t.printed[i].0 == t.printed[j].0 && t.printed[i].1.loc == t.printed[j].1.loc)
  {
    hide Tally, QueueName, AcceptsWord, Transmitted, Reachable, Conserved, Crew, Delivered, Counted, Tables, Owned,
      Farewell, Forced, LowerCase, IsWord;
    ReachableInv(P, t);
    forall i | 0 <= i < |t.printed|
      ensures LineOk(P, t.printed[i], t.sent)
      ensures LowerCase(t.printed[i].1.word) ==>
                Transmitted(t.printed[i].1.word) == t.printed[i].1.word && IsWord(t.printed[i].1.word)
    {
      if LowerCase(t.printed[i].1.word) {
        WordsArrive(t.printed[i].1.word);
      }
    }
    forall i, j | 0 <= i < j < |t.printed|
      ensures LineToken(t.printed[i]) != LineToken(t.printed[j])
    {
      PrintedOnce(P, t, i, j);
    }
  }

  /** The histories of `t` continue those of `s`. */
  predicate Continues(s: State, t: State) {
    && (forall k :: k in s.sent ==> k in t.sent && t.sent[k] == s.sent[k])
    && s.printed <= t.printed && s.failed <= t.failed && s.crashes <= t.crashes
  }

  lemma InputContinues(P: Setup, s: State, pid: int, line: Option<string>)
    requires Inv(P, s) && Enabled(P, s, TesterInput(pid, line))
    ensures Continues(s, Next(P, s, TesterInput(pid, line)))
  {
    hide Inv, Next, QueueName, Transmitted;
    if s.testers[pid].state.readInput && line.Some? && line.value != "!" {
      ParseShape(P, s, pid, line.value);
      var loc := s.testers[pid].state.loc + 1;
      if Token(QueueName(pid), loc) in s.sent {
        assert Owned(s.sent, s.testers) by { OwnersOf(P, s); }
        TokenOwner(s, pid, loc);
      }
    } else {
      OtherInputShape(P, s, pid, line);
    }
  }

  lemma OwnersOf(P: Setup, s: State)
    requires Inv(P, s)
    ensures Owned(s.sent, s.testers)
  {
  }

  /** The histories are histories: no event changes the word of a request, takes back a line, or
      forgets a failure. */
  lemma HistoriesGrow(P: Setup, s: State, e: Event)
    requires Inv(P, s) && Enabled(P, s, e)
    ensures Continues(s, Next(P, s, e))
  {
    hide Inv, QueueName, AcceptsWord, Server.HandleRun,
      Server.HandleReport, Server.HandleReap, Server.CheckTermination, Server.RegisterOne, Server.Throttle,
      Tester.TakeMail, Without;
    if e.TesterInput? {
      InputContinues(P, s, e.pid, e.line);
    }
  }

  /** Conservation over the whole system: the requests sent are, each exactly once, in the report
      queue, in an open run slot, in a tester's queue, given up, or printed. */
  lemma RequestsConserved(P: Setup, t: State)
    requires Reachable(P, t)
    ensures multiset(t.sent.Keys) ==
            Tally(t.reports, ReportToken) + Tally(t.server.runSlots, SlotToken) + Tally(t.mail, MailToken)
            + multiset(t.failed) + Tally(t.printed, LineToken)
  {
    ReachableInv(P, t);
  }

  /** The answer is in the tester's queue, or printed. */
  predicate Forwarded(s: State, w: Worker) {
    w.Request() in Tally(s.mail, MailToken) + Tally(s.printed, LineToken)
  }

  /** Shutdown safety: the active count is the number of run slots less the crashes waited for,
      and once the server decides to stop every worker's answer has been forwarded, except for
      workers that crashed. */
  lemma ShutdownSafety(P: Setup, t: State)
    requires Reachable(P, t)
    ensures t.server.active == |t.server.runSlots| - |t.crashes|
    ensures t.server.forceTermination || t.phase == Gone ==>
              forall p :: p in t.workers ==> t.workers[p].status.Crashed? || Forwarded(t, t.workers[p])
  {
    hide Tally, QueueName, AcceptsWord, Transmitted, Reachable, Conserved, Tables, Owned, Farewell, Server.RunIndex;
    ReachableInv(P, t);
    if t.server.forceTermination {
      forall p | p in t.workers
        ensures t.workers[p].status.Crashed? || Forwarded(t, t.workers[p])
      {
        if HasRun(t.server.runSlots, p) {
          SlotOf(t.server.runSlots, p);
        }
      }
    }
  }

  lemma SlotOf(slots: seq<Server.RunSlot>, p: int)
    requires HasRun(slots, p)
    ensures exists i :: 0 <= i < |slots| && slots[i].pid == p
  {
  }

  /** In each tester's queue all answers come before an exit message. */
  lemma AnswersBeforeExit(P: Setup, t: State, i: nat, j: nat)
    requires Reachable(P, t) && i < |t.mail| && j < |t.mail| && t.mail[i].queue == t.mail[j].queue
    requires t.mail[i].msg.Answer? && t.mail[j].msg.ServerExit?
    ensures i < j
  {
    ReachableInv(P, t);
  }

  /** What a tester told to exit has missed: each of its requests is printed, or was never taken
      from the report queue, or no worker started for it, or its worker crashed. */
  lemma DismissedHasItsAnswers(P: Setup, t: State, pid: int, loc: int)
    requires Reachable(P, t) && pid in t.testers && t.testers[pid].dismissed
    requires Token(QueueName(pid), loc) in t.sent
    ensures
      var k := Token(QueueName(pid), loc);
      || k in Tally(t.printed, LineToken)
      || k in Tally(t.reports, ReportToken)
      || k in t.failed
      || exists p :: p in t.workers && t.workers[p].Request() == k && t.workers[p].status.Crashed?
  {
    hide Tally, QueueName, AcceptsWord, Transmitted, Reachable, Crew, Delivered, Counted, Tables, Owned;
    ReachableInv(P, t);
    var k := Token(QueueName(pid), loc);
    assert k in multiset(t.sent.Keys);
    if k in Tally(t.mail, MailToken) {
      var i := TallyWitness(t.mail, k, MailToken);
    } else if k in Tally(t.server.runSlots, SlotToken) {
      var i := TallyWitness(t.server.runSlots, k, SlotToken);
      assert Failed(t.workers, t.server.runSlots[i].pid);
      assert t.workers[t.server.runSlots[i].pid].Request() == k;
    }
  }

  // ----- an answer can wait for ever

  /** The server can do nothing until somebody else acts. */
  ghost predicate ServerBlocked(P: Setup, s: State) {
    && !Enabled(P, s, ReadRegister) && !Enabled(P, s, EndRegisters) && !Enabled(P, s, ReadRun) && !Enabled(P, s, Finish)
    && (forall child :: !Enabled(P, s, Wait(child)))
    && (forall spawned :: !Enabled(P, s, ReadReport(spawned)))
  }

  /** It waits for a worker's report. */
  predicate AwaitsWorker(s: State) {
    s.phase == AtRun && s.server.throttled && s.runs == []
  }

  /** It waits for a tester's message. */
  predicate AwaitsTester(s: State) {
    s.phase == AtReport && !s.server.shouldTerminate && !s.server.throttled && s.reports == []
  }

  lemma ReadsWait(P: Setup, s: State)
    requires Inv(P, s) && (s.phase == AtRun || s.phase == AtReport)
    ensures !Enabled(P, s, ReadRun) <==> s.phase != AtRun || AwaitsWorker(s)
    ensures (forall spawned :: !Enabled(P, s, ReadReport(spawned))) <==> s.phase != AtReport || AwaitsTester(s)
  {
    hide Tally, QueueName, AcceptsWord, Transmitted, Conserved, Crew, Delivered, Counted, Tables, Owned, Farewell, Forced,
      RunsOk, SlotsOk, WorkersOk, MailOk, LinesOk, ReportsOk, Reports, ServerProofs.SumRcd, ServerProofs.SumAcc;
    assert Enabled(P, s, ReadReport(None)) <==> s.phase == AtReport && !AwaitsTester(s);
    assert forall spawned :: Enabled(P, s, ReadReport(spawned)) ==> Enabled(P, s, ReadReport(None));
  }

  /** Exactly when the server is blocked: it is gone, or throttled without a worker's report, or
      in normal mode without a tester's message. */
  lemma BlockedIff(P: Setup, s: State)
    requires Inv(P, s)
    ensures ServerBlocked(P, s) <==> s.phase == Gone || AwaitsWorker(s) || AwaitsTester(s)
  {
    hide Inv, Reports;
    match s.phase {
      case AtRegister => assert Enabled(P, s, if s.registers == [] then EndRegisters else ReadRegister);
      case AtRun => ReadsWait(P, s);
      case AtWait =>
        if p :| p in s.workers && Zombie(s, p) {
          assert Enabled(P, s, Wait(Some(p)));
        } else {
          assert Enabled(P, s, Wait(None));
        }
      case AtReport => ReadsWait(P, s);
      case AtFinish => assert Enabled(P, s, Finish);
      case Gone =>
    }
  }

  /** The input makes the tester send something. */
  predicate Sends(s: State, e: Event) {
    e.TesterInput? && InPhase(s, e.pid, false) && s.testers[e.pid].state.readInput && e.line.Some?
  }

  /** What unblocks the server, exactly: a worker's report when it waits for one, something sent
      by a tester when it waits for that, and nothing once it is gone. */
  lemma UnblockedIff(P: Setup, s: State, e: Event)
    requires Inv(P, s) && ServerBlocked(P, s) && Enabled(P, s, e)
    ensures !ServerBlocked(P, Next(P, s, e)) <==>
            (AwaitsWorker(s) && e.WorkerReport?) || (AwaitsTester(s) && Sends(s, e))
    ensures
      var t := Next(P, s, e);
      t.server == s.server && t.phase == s.phase && s.runs <= t.runs
  {
    hide Inv, Reports, QueueName, Transmitted, Tester.TakeMail, MailIndex, ServerBlocked;
    EventStep(P, s, e);
    BlockedIff(P, s);
    BlockedIff(P, Next(P, s, e));
    OthersActing(P, s, e);
  }

  /** While the server is blocked only testers and workers act. */
  lemma OthersActing(P: Setup, s: State, e: Event)
    requires ServerBlocked(P, s) && Enabled(P, s, e)
    ensures e.StartTester? || e.TesterInput? || e.TesterRead? || e.WorkerReport? || e.WorkerExit? || e.WorkerCrash?
  {
    hide Reports;
    assert forall child :: !Enabled(P, s, Wait(child)) && e != Wait(child);
    assert forall spawned :: !Enabled(P, s, ReadReport(spawned)) && e != ReadReport(spawned);
  }

  /** `t` is reached from `s` without anything sent by a tester. */
  ghost predicate SilentRun(P: Setup, s: State, schedule: seq<Event>, t: State)
    decreases schedule
  {
    if schedule == [] then s == t
    else Enabled(P, s, schedule[0]) && !Sends(s, schedule[0]) && SilentRun(P, Next(P, s, schedule[0]), schedule[1..], t)
  }

  /** A server that waits for a tester does so until a tester sends something, whatever the workers
      report meanwhile: their reports pile up, and it does nothing. */
  lemma {:induction false} WaitsForTester(P: Setup, s: State, schedule: seq<Event>, t: State)
    requires Inv(P, s) && AwaitsTester(s) && SilentRun(P, s, schedule, t)
    ensures ServerBlocked(P, t) && AwaitsTester(t) && t.server == s.server && s.runs <= t.runs
    decreases schedule
  {
    hide Inv, Enabled, Next, ServerBlocked, Sends;
    BlockedIff(P, s);
    if schedule != [] {
      var u := Next(P, s, schedule[0]);
      UnblockedIff(P, s, schedule[0]);
      EventStep(P, s, schedule[0]);
      BlockedIff(P, u);
      WaitsForTester(P, u, schedule[1..], t);
    }
  }

  /** A worker's report waits while the server is blocked exactly when the server is gone or
      waits for a tester. */
  lemma ReportWaitsIff(P: Setup, s: State)
    requires Inv(P, s) && s.runs != []
    ensures ServerBlocked(P, s) <==> s.phase == Gone || AwaitsTester(s)
  {
    hide Inv, ServerBlocked;
    BlockedIff(P, s);
  }

  lemma {:induction false} OneMore(P: Setup, s: State, schedule: seq<Event>, m: State, e: Event)
    requires Runs(P, s, schedule, m) && Enabled(P, m, e)
    ensures Runs(P, s, schedule + [e], Next(P, m, e))
    decreases schedule
  {
    hide Next, Enabled;
    if schedule == [] {
      assert [e][1..] == [];
    } else {
      OneMore(P, Next(P, s, schedule[0]), schedule[1..], m, e);
      assert (schedule + [e])[1..] == schedule[1..] + [e];
    }
  }

  lemma Extends(P: Setup, s: State, e: Event)
    requires Reachable(P, s) && Enabled(P, s, e)
    ensures Reachable(P, Next(P, s, e)) && Inv(P, Next(P, s, e))
  {
    hide Next, Enabled, Inv;
    var schedule :| Runs(P, INITIAL, schedule, s);
    OneMore(P, INITIAL, schedule, s, e);
    ReachableInv(P, Next(P, s, e));
  }

  predicate Idle(P: Setup, s: State) {
    && s.registers == [] && s.runs == [] && !s.server.throttled && !s.server.runBlocking && s.server.reportBlocking
    && !s.server.shouldTerminate && s.server.active <= P.limit
    && forall p :: p in s.workers ==> s.workers[p].status == Running
  }

  /** A turn that finds nothing to read, up to the report queue. */
  lemma IdleTurn(P: Setup, s: State) returns (t: State)
    requires Reachable(P, s) && Idle(P, s) && s.phase == AtRegister
    ensures Reachable(P, t) && t == s.(phase := AtReport, gotRun := false)
  {
    hide Reachable, Inv;
    Extends(P, s, EndRegisters);
    t := Next(P, s, EndRegisters);
    Extends(P, t, ReadRun);
    t := Next(P, t, ReadRun);
    assert s.mail + [] == s.mail;
    Extends(P, t, Wait(None));
    t := Next(P, t, Wait(None));
  }

  /** One tester has sent one request, and the server is about to read it. */
  lemma FirstRequest(P: Setup, word: string) returns (t: State)
    requires P.limit >= 1 && word != "!"
    ensures Reachable(P, t) && Idle(P, t) && t.phase == AtReport
    ensures t.reports == [Parse(1, QueueName(1), 1, Transmitted(word))] && t.workers == map[] && t.server.active == 0
    ensures InPhase(t, 1, true) && Tester.Waiting(t.testers[1].state) && t.sent == map[Token(QueueName(1), 1) := word]
    ensures t.mail == [] && t.printed == [] && t.server.runSlots == []
  {
    hide Reachable, Inv, QueueName, Transmitted, Server.PutTester;
    Unmoved(P);
    Extends(P, INITIAL, StartTester(1));
    t := Next(P, INITIAL, StartTester(1));
    Extends(P, t, TesterInput(1, Some(word)));
    ParseShape(P, t, 1, word);
    t := Next(P, t, TesterInput(1, Some(word)));
    Extends(P, t, ReadRegister);
    t := Next(P, t, ReadRegister);
    t := IdleTurn(P, t);
  }

  lemma Unmoved(P: Setup)
    ensures Reachable(P, INITIAL)
  {
    assert Runs(P, INITIAL, [], INITIAL);
  }

  lemma NotForced(P: Setup, s: State)
    requires Inv(P, s) && !s.server.shouldTerminate
    ensures !s.server.forceTermination
  {
  }

  /** The server starts a worker for the request and ends the turn. */
  lemma StartedWorker(P: Setup, s: State) returns (t: State)
    requires P.limit >= 1 && Reachable(P, s) && Idle(P, s) && s.phase == AtReport && s.workers == map[]
    requires |s.reports| == 1 && s.reports[0].Parse? && s.server.active == 0
    ensures Reachable(P, t) && Idle(P, t) && t.phase == AtRegister && t.reports == [] && t.workers.Keys == {2}
    ensures t.workers[2] == Worker(s.reports[0].pid, s.reports[0].loc, s.reports[0].word, Running, false)
    ensures t.testers == s.testers && t.mail == s.mail && t.printed == s.printed && t.sent == s.sent
    ensures t.server.runSlots == s.server.runSlots + [Server.RunSlot(2, s.reports[0].pid, s.reports[0].loc)]
  {
    hide Reachable, Inv, QueueName, Transmitted, Server.Charge, Server.PutRun, Server.HandleRun;
    ReachableInv(P, s);
    Extends(P, s, ReadReport(Some(2)));
    SpawnShape(P, s, Some(2));
    ChargeOnly(s.server, s.reports[0].pid, s.reports[0].queue);
    t := Next(P, s, ReadReport(Some(2)));
    Extends(P, t, Finish);
    NotForced(P, t);
    t := Next(P, t, Finish);
  }

  /** No liveness: under every automaton and limit the server can come to block on the report
      queue while the answer of its only worker waits in the workers' queue. By `WaitsForTester`
      it then moves only if a tester sends something more. */
  lemma AnswerCanWait(P: Setup) returns (t: State)
    requires P.limit >= 1
    ensures Reachable(P, t) && ServerBlocked(P, t) && AwaitsTester(t) && t.runs != []
    ensures forall p :: p in t.workers ==> t.workers[p].status == Reported
  {
    hide Reachable, Inv, QueueName, Transmitted, Server.HandleReport, Server.HandleRun, AcceptsWord, Reports;
    t := FirstRequest(P, "a");
    t := StartedWorker(P, t);
    t := IdleTurn(P, t);
    var result := if AcceptsWord(P.m, t.workers[2].word) then 1 else 0;
    ReportsRight(P, t.workers[2].word, result);
    Extends(P, t, WorkerReport(2, result));
    t := Next(P, t, WorkerReport(2, result));
  }

  /** The worker has reported, and the server has passed the answer on. */
  lemma AnswerForwarded(P: Setup, s: State, word: string) returns (t: State)
    requires Reachable(P, s) && Idle(P, s) && s.phase == AtRegister && s.workers.Keys == {2}
    requires s.workers[2] == Worker(1, 1, word, Running, false) && IsWord(word) && s.mail == []
    requires s.server.runSlots == [Server.RunSlot(2, 1, 1)]
    ensures Reachable(P, t) && t.testers == s.testers && t.printed == s.printed && t.sent == s.sent
    ensures t.mail == [Server.Mail(QueueName(1), Answer(1, if AcceptsWord(P.m, word) then 1 else 0))]
  {
    hide Reachable, Inv, QueueName, Server.HandleRun, AcceptsWord, Reports;
    var result := if AcceptsWord(P.m, word) then 1 else 0;
    ReportsRight(P, word, result);
    Extends(P, s, WorkerReport(2, result));
    t := Next(P, s, WorkerReport(2, result));
    Extends(P, t, EndRegisters);
    t := Next(P, t, EndRegisters);
    ReachableInv(P, t);
    ReportHasSlot(P, t);
    SessionsOf(P, t);
    assert Server.RunIndex(t.server.runSlots, 2) == 0;
    Extends(P, t, ReadRun);
    RunShape(P, t);
    t := Next(P, t, ReadRun);
  }

  lemma SessionsOf(P: Setup, s: State)
    requires Inv(P, s)
    ensures SessionsNamed(s.server.testerSlots)
  {
  }

  /** The system does its work: under every automaton and limit, every lower-case word can be sent,
      evaluated and answered, with the verdict of the automaton. */
  lemma WordCanBeAnswered(P: Setup, word: string) returns (t: State)
    requires P.limit >= 1 && LowerCase(word)
    ensures Reachable(P, t) && t.printed == [(1, Tester.Line(1, word, AcceptsWord(P.m, word)))]
  {
    hide Reachable, Inv, QueueName, Transmitted, AcceptsWord, LowerCase, IsWord, Idle;
    WordsArrive(word);
    NoStop(word);
    t := FirstRequest(P, word);
    t := StartedWorker(P, t);
    t := AnswerForwarded(P, t, word);
    ReachableInv(P, t);
    AnswerExpected(P, t, 1, 0);
    Extends(P, t, TesterRead(1));
    AnswerShape(P, t, 1);
    t := Next(P, t, TesterRead(1));
  }

  lemma NoStop(word: string)
    requires LowerCase(word)
    ensures word != "!"
  {
    assert "!"[0] == '!';
  }
}
