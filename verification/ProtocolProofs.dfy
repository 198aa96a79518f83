/** The invariant of the whole system, and its preservation by every event. */
module ProtocolProofs {
  import opened Prelude
  import opened Automata
  import opened Graph
  import opened Wire
  import opened Protocol
  import ArrayLists
  import RunWorker
  import Server
  import ServerProofs
  import Tester

  // ----- requests and where they are

  function One(t: Option<Token>): multiset<Token> {
    if t.Some? then multiset{t.value} else multiset{}
  }

  /** The requests among the entries of a queue, table or history. */
  function Tally<T>(s: seq<T>, f: T -> Option<Token>): multiset<Token> {
    if s == [] then multiset{} else Tally(s[..|s| - 1], f) + One(f(s[|s| - 1]))
  }

  function ReportToken(r: ReportMsg): Option<Token> {
    if r.Parse? then Some(Token(r.queue, r.loc)) else None
  }

  function SlotToken(r: Server.RunSlot): Option<Token> {
    Some(Token(QueueName(r.tester), r.loc))
  }

  function MailToken(m: Server.Mail): Option<Token> {
    if m.msg.Answer? then Some(Token(m.queue, m.msg.loc)) else None
  }

  function LineToken(p: (int, Tester.Line)): Option<Token> {
    Some(Token(QueueName(p.0), p.1.loc))
  }

  lemma {:induction false} TallySplit<T>(a: seq<T>, b: seq<T>, f: T -> Option<Token>)
    ensures Tally(a + b, f) == Tally(a, f) + Tally(b, f)
  {
    if b == [] {
      assert a + b == a;
    } else {
      assert (a + b)[..|a + b| - 1] == a + b[..|b| - 1];
      TallySplit(a, b[..|b| - 1], f);
    }
  }

  lemma TallyOne<T>(x: T, f: T -> Option<Token>)
    ensures Tally([x], f) == One(f(x))
  {
    assert [x][..0] == [];
  }

  lemma TallyPush<T>(s: seq<T>, x: T, f: T -> Option<Token>)
    ensures Tally(s + [x], f) == Tally(s, f) + One(f(x))
  {
    TallySplit(s, [x], f);
    TallyOne(x, f);
  }

  lemma SplitAt<T>(s: seq<T>, i: nat)
    requires i < |s|
    ensures s == s[..i] + ([s[i]] + s[i + 1..]) && Without(s, i) == s[..i] + s[i + 1..]
  {
  }

  lemma TallyWithout<T>(s: seq<T>, i: nat, f: T -> Option<Token>)
    requires i < |s|
    ensures Tally(s, f) == Tally(Without(s, i), f) + One(f(s[i]))
  {
    hide Tally, Without, One;
    var before, after := s[..i], s[i + 1..];
    SplitAt(s, i);
    TallySplit(before, [s[i]] + after, f);
    TallySplit([s[i]], after, f);
    TallyOne(s[i], f);
    TallySplit(before, after, f);
  }

  lemma TallyTail<T>(s: seq<T>, f: T -> Option<Token>)
    requires s != []
    ensures Tally(s, f) == Tally(Tail(s), f) + One(f(s[0]))
  {
    TallyWithout(s, 0, f);
    assert Without(s, 0) == s[1..];
  }

  lemma {:induction false} TallyHas<T>(s: seq<T>, i: nat, f: T -> Option<Token>)
    requires i < |s| && f(s[i]).Some?
    ensures f(s[i]).value in Tally(s, f)
  {
    TallyWithout(s, i, f);
  }

  lemma {:induction false} TallyWitness<T>(s: seq<T>, t: Token, f: T -> Option<Token>) returns (i: nat)
    requires t in Tally(s, f)
    ensures i < |s| && f(s[i]) == Some(t)
  {
    var n := |s| - 1;
    if f(s[n]) == Some(t) {
      i := n;
    } else {
      i := TallyWitness(s[..n], t, f);
    }
  }

  /** Every request ever sent is in exactly one place: the report queue, an open run slot, a
      tester's queue, the requests given up, or the lines printed. */
  ghost predicate Conserved(
    reports: seq<ReportMsg>, slots: seq<Server.RunSlot>, mail: seq<Server.Mail>, failed: seq<Token>,
    printed: seq<(int, Tester.Line)>, sent: map<Token, string>)
  {
    Tally(reports, ReportToken) + Tally(slots, SlotToken) + Tally(mail, MailToken) + multiset(failed)
    + Tally(printed, LineToken) == multiset(sent.Keys)
  }

  // ----- what is in the queues and tables

  predicate SessionsNamed(slots: seq<Server.TesterSlot>) {
    forall i :: 0 <= i < |slots| ==> slots[i].queue == QueueName(slots[i].pid)
  }

  predicate RegistersNamed(registers: seq<RegisterMsg>) {
    forall i :: 0 <= i < |registers| ==> registers[i].Register? && registers[i].queue == QueueName(registers[i].pid)
  }

  predicate ReportOk(r: ReportMsg, sent: map<Token, string>) {
    r.Stop? ||
    (r.Parse? && r.queue == QueueName(r.pid) && Token(r.queue, r.loc) in sent &&
     r.word == Transmitted(sent[Token(r.queue, r.loc)]))
  }

  predicate ReportsOk(reports: seq<ReportMsg>, sent: map<Token, string>) {
    forall i :: 0 <= i < |reports| ==> ReportOk(reports[i], sent)
  }

  predicate WorkersOk(workers: map<int, Worker>, sent: map<Token, string>) {
    forall p :: p in workers ==>
      workers[p].Request() in sent && workers[p].word == Transmitted(sent[workers[p].Request()])
  }

  /** The result for a word the tables can hold is that of the automaton. */
  ghost predicate Right(P: Setup, word: string, result: int) {
    IsWord(word) ==> result == if AcceptsWord(P.m, word) then 1 else 0
  }

  /** A worker can report exactly the right results. */
  lemma ReportsRight(P: Setup, word: string, result: int)
    ensures Reports(P, word, result) <==> Right(P, word, result)
  {
    hide RunWorker.Answers, AcceptsWord;
    RunWorker.AnswersIff(P.m, P.evaluator, word, true);
    RunWorker.AnswersIff(P.m, P.evaluator, word, false);
  }

  ghost predicate RunOk(P: Setup, r: RunMsg, workers: map<int, Worker>) {
    r.Terminate? && r.pid in workers && Right(P, workers[r.pid].word, r.result)
  }

  ghost predicate RunsOk(P: Setup, runs: seq<RunMsg>, workers: map<int, Worker>) {
    forall i :: 0 <= i < |runs| ==> RunOk(P, runs[i], workers)
  }

  predicate SlotsOk(slots: seq<Server.RunSlot>, workers: map<int, Worker>) {
    forall i :: 0 <= i < |slots| ==>
      slots[i].pid in workers && slots[i].tester == workers[slots[i].pid].tester &&
      slots[i].loc == workers[slots[i].pid].loc
  }

  ghost predicate AnswerOk(P: Setup, m: Server.Mail, sent: map<Token, string>) {
    m.msg.ServerExit? ||
    (m.msg.Answer? && Token(m.queue, m.msg.loc) in sent &&
     Right(P, Transmitted(sent[Token(m.queue, m.msg.loc)]), m.msg.result))
  }

  ghost predicate MailOk(P: Setup, mail: seq<Server.Mail>, sent: map<Token, string>) {
    forall i :: 0 <= i < |mail| ==> AnswerOk(P, mail[i], sent)
  }

  /** A printed line is for a word sent under its local id, with the right verdict. */
  ghost predicate LineOk(P: Setup, p: (int, Tester.Line), sent: map<Token, string>) {
    var t := Token(QueueName(p.0), p.1.loc);
    && t in sent && p.1.word == sent[t]
    && (IsWord(Transmitted(sent[t])) ==> (p.1.accepted <==> AcceptsWord(P.m, Transmitted(sent[t]))))
  }

  ghost predicate LinesOk(P: Setup, printed: seq<(int, Tester.Line)>, sent: map<Token, string>) {
    forall i :: 0 <= i < |printed| ==> LineOk(P, printed[i], sent)
  }

  // ----- workers

  predicate HasRun(slots: seq<Server.RunSlot>, pid: int) {
    Server.RunIndex(slots, pid) < |slots|
  }

  predicate Reporting(runs: seq<RunMsg>, pid: int) {
    exists i :: 0 <= i < |runs| && runs[i].Terminate? && runs[i].pid == pid
  }

  predicate OneReportEach(runs: seq<RunMsg>) {
    forall i, j :: 0 <= i < j < |runs| && runs[i].Terminate? && runs[j].Terminate? ==> runs[i].pid != runs[j].pid
  }

  /** A worker has a run slot until its report is read. */
  predicate Crew(workers: map<int, Worker>, slots: seq<Server.RunSlot>, runs: seq<RunMsg>) {
    && OneReportEach(runs)
    && (forall p :: p in workers && Reporting(runs, p) ==> HasRun(slots, p))
    && (forall p :: p in workers && (workers[p].status.Running? || workers[p].status.Crashed?) ==>
          HasRun(slots, p) && !Reporting(runs, p))
  }

  /** Once it has none, its answer is in its tester's queue or printed. */
  predicate Delivered(workers: map<int, Worker>, slots: seq<Server.RunSlot>, mail: seq<Server.Mail>,
                      printed: seq<(int, Tester.Line)>)
  {
    forall p :: p in workers ==>
      HasRun(slots, p) || workers[p].Request() in Tally(mail, MailToken) + Tally(printed, LineToken)
  }

  predicate Failed(workers: map<int, Worker>, p: int) {
    p in workers && workers[p].status.Crashed? && workers[p].reaped
  }

  /** The count of active workers is that of the run slots less the crashes waited for, and
      only workers that ended have been waited for. */
  ghost predicate Counted(workers: map<int, Worker>, slots: seq<Server.RunSlot>, crashes: seq<int>, active: int) {
    && active == |slots| - |crashes|
    && Distinct(crashes)
    && (forall p :: p in crashes <==> Failed(workers, p))
    && forall p :: p in workers && workers[p].reaped ==> workers[p].status.Exited? || workers[p].status.Crashed?
  }

  // ----- testers

  /** The table of a tester holds exactly its requests without a printed answer. */
  ghost predicate Table(pid: int, t: Tester.State, sent: map<Token, string>, printed: seq<(int, Tester.Line)>) {
    forall l :: ArrayLists.At(t.results, l) ==
                if Token(QueueName(pid), l) in sent && Token(QueueName(pid), l) !in Tally(printed, LineToken)
                then Some(sent[Token(QueueName(pid), l)]) else None
  }

  ghost predicate Tables(testers: map<int, TesterProcess>, sent: map<Token, string>, printed: seq<(int, Tester.Line)>) {
    forall pid :: pid in testers ==> Table(pid, testers[pid].state, sent, printed)
  }

  predicate Owner(pid: int, t: Token, testers: map<int, TesterProcess>) {
    pid in testers && t.queue == QueueName(pid) && 0 < t.loc <= testers[pid].state.loc
  }

  ghost predicate Owned(sent: map<Token, string>, testers: map<int, TesterProcess>) {
    forall t :: t in sent ==> exists pid :: Owner(pid, t, testers)
  }

  // ----- the end

  /** No answer follows an exit message to the same tester; exits are sent last; and a tester
      that has read one will find no more answers. */
  predicate Farewell(mail: seq<Server.Mail>, testers: map<int, TesterProcess>, phase: Phase) {
    && (forall i :: 0 <= i < |mail| && mail[i].msg.ServerExit? ==> phase == Gone)
    && (forall i, j :: 0 <= i < j < |mail| && mail[i].queue == mail[j].queue && mail[i].msg.ServerExit? ==>
          !mail[j].msg.Answer?)
    && (forall pid :: pid in testers && testers[pid].dismissed ==>
          phase == Gone && forall i :: 0 <= i < |mail| && mail[i].queue == QueueName(pid) ==> !mail[i].msg.Answer?)
  }

  /** The server only decides to stop when every open slot is that of a crashed worker. */
  predicate Forced(server: Server.State, phase: Phase, workers: map<int, Worker>) {
    && (phase == Gone ==> server.forceTermination)
    && (server.forceTermination ==>
          && server.shouldTerminate && (phase == AtReport || phase == AtFinish || phase == Gone)
          && forall i :: 0 <= i < |server.runSlots| ==> Failed(workers, server.runSlots[i].pid))
  }

  ghost predicate Inv(P: Setup, s: State) {
    && SessionsNamed(s.server.testerSlots) && RegistersNamed(s.registers)
    && ReportsOk(s.reports, s.sent) && WorkersOk(s.workers, s.sent) && RunsOk(P, s.runs, s.workers)
    && SlotsOk(s.server.runSlots, s.workers) && MailOk(P, s.mail, s.sent) && LinesOk(P, s.printed, s.sent)
    && Crew(s.workers, s.server.runSlots, s.runs)
    && Delivered(s.workers, s.server.runSlots, s.mail, s.printed)
    && Counted(s.workers, s.server.runSlots, s.crashes, s.server.active)
    && Conserved(s.reports, s.server.runSlots, s.mail, s.failed, s.printed, s.sent)
    && Tables(s.testers, s.sent, s.printed) && Owned(s.sent, s.testers)
    && Farewell(s.mail, s.testers, s.phase)
    && Forced(s.server, s.phase, s.workers)
    && ServerProofs.Kept(s.server, |s.failed|)
  }

  // ----- a tester's events

  lemma TokenOwner(s: State, pid: int, loc: int)
    requires Owned(s.sent, s.testers) && Token(QueueName(pid), loc) in s.sent
    ensures Owner(pid, Token(QueueName(pid), loc), s.testers)
  {
    var p :| Owner(p, Token(QueueName(pid), loc), s.testers);
    QueueNameInjective(p, pid);
  }

  lemma StartStep(P: Setup, s: State, pid: int)
    requires Inv(P, s) && Enabled(P, s, StartTester(pid))
    ensures Inv(P, Next(P, s, StartTester(pid)))
  {
    hide Tally, AcceptsWord, QueueName, Transmitted, ServerProofs.Kept;
    var t := Next(P, s, StartTester(pid));
    forall l: int
      ensures Token(QueueName(pid), l) !in s.sent
    {
      if Token(QueueName(pid), l) in s.sent {
        TokenOwner(s, pid, l);
      }
    }
    forall k | k in s.sent
      ensures exists p :: Owner(p, k, t.testers)
    {
      var p :| Owner(p, k, s.testers);
      assert Owner(p, k, t.testers);
    }
  }

  lemma SentGrows(P: Setup, s: State, k: Token, word: string)
    requires Inv(P, s) && k !in s.sent
    ensures
      var sent := s.sent[k := word];
      ReportsOk(s.reports, sent) && WorkersOk(s.workers, sent) && MailOk(P, s.mail, sent) && LinesOk(P, s.printed, sent)
  {
    hide Tally, AcceptsWord, QueueName, Transmitted, ServerProofs.Kept;
  }

  /** Requests printed are among those sent. */
  lemma PrintedAreSent(s: State, t: Token)
    requires Conserved(s.reports, s.server.runSlots, s.mail, s.failed, s.printed, s.sent)
    requires t in Tally(s.printed, LineToken)
    ensures t in s.sent
  {
    hide Tally;
    assert t in multiset(s.sent.Keys);
  }

  lemma SentConserved(s: State, r: ReportMsg, word: string)
    requires Conserved(s.reports, s.server.runSlots, s.mail, s.failed, s.printed, s.sent)
    requires r.Parse? && Token(r.queue, r.loc) !in s.sent
    ensures Conserved(s.reports + [r], s.server.runSlots, s.mail, s.failed, s.printed,
                      s.sent[Token(r.queue, r.loc) := word])
  {
    hide Tally;
    var k := Token(r.queue, r.loc);
    TallyPush(s.reports, r, ReportToken);
    var sent := s.sent[k := word];
    assert sent.Keys == s.sent.Keys + {k};
    assert multiset(sent.Keys) == multiset(s.sent.Keys) + multiset{k};
  }

  lemma ParseShape(P: Setup, s: State, pid: int, word: string)
    requires Enabled(P, s, TesterInput(pid, Some(word))) && s.testers[pid].state.readInput && word != "!"
    ensures
      var st := s.testers[pid].state;
      var loc := st.loc + 1;
      Next(P, s, TesterInput(pid, Some(word))) == s.(
        testers := s.testers[pid := TesterProcess(
          st.(loc := loc, results := ArrayLists.Written(st.results, loc, Some(word)), req := st.req + 1),
          true, s.testers[pid].dismissed)],
        reports := s.reports + [Parse(pid, QueueName(pid), loc, Transmitted(word))],
        sent := s.sent[Token(QueueName(pid), loc) := word])
  {
    hide QueueName, Transmitted, ArrayLists.Written;
  }

  /** A new request is in the report queue and in the table of its tester. */
  lemma ParseStep(P: Setup, s: State, pid: int, word: string)
    requires Inv(P, s) && Enabled(P, s, TesterInput(pid, Some(word)))
    requires s.testers[pid].state.readInput && word != "!"
    ensures Inv(P, Next(P, s, TesterInput(pid, Some(word))))
  {
    hide Tally, AcceptsWord, QueueName, Transmitted, ServerProofs.Kept, ArrayLists.Written,
      Next, Conserved, Tables, Crew, Delivered, Counted, Forced, RunsOk, SlotsOk, WorkersOk, MailOk, LinesOk;
    var t, st := Next(P, s, TesterInput(pid, Some(word))), s.testers[pid].state;
    var k, r := Token(QueueName(pid), st.loc + 1), Parse(pid, QueueName(pid), st.loc + 1, Transmitted(word));
    ParseShape(P, s, pid, word);
    if k in s.sent {
      TokenOwner(s, pid, st.loc + 1);
    }
    SentGrows(P, s, k, word);
    SentConserved(s, r, word);
    NewEntry(s, t, pid, word);
    forall x | x in t.sent
      ensures exists p :: Owner(p, x, t.testers)
    {
      if x == k {
        assert Owner(pid, k, t.testers);
      } else {
        var p :| Owner(p, x, s.testers);
        assert Owner(p, x, t.testers);
      }
    }
  }

  lemma NewEntry(s: State, t: State, pid: int, word: string)
    requires pid in s.testers && Tables(s.testers, s.sent, s.printed)
    requires Conserved(s.reports, s.server.runSlots, s.mail, s.failed, s.printed, s.sent)
    requires
      var st := s.testers[pid].state;
      var k := Token(QueueName(pid), st.loc + 1);
      && k !in s.sent && t.sent == s.sent[k := word] && t.printed == s.printed
      && pid in t.testers && t.testers == s.testers[pid := t.testers[pid]]
      && t.testers[pid].state.results == ArrayLists.Written(st.results, st.loc + 1, Some(word))
    ensures Tables(t.testers, t.sent, t.printed)
  {
    hide Tally, QueueName, Conserved;
    var st, u := s.testers[pid].state, t.testers[pid].state;
    var k := Token(QueueName(pid), st.loc + 1);
    if k in Tally(s.printed, LineToken) {
      PrintedAreSent(s, k);
    }
    forall l: int
      ensures l != st.loc + 1 ==> ArrayLists.At(u.results, l) == ArrayLists.At(st.results, l)
      ensures l == st.loc + 1 ==> ArrayLists.At(u.results, l) == Some(word)
    {
    }
    forall p | p in t.testers
      ensures Table(p, t.testers[p].state, t.sent, t.printed)
    {
      if p != pid && QueueName(p) == QueueName(pid) {
        QueueNameInjective(p, pid);
      }
      assert p != pid ==> Table(p, s.testers[p].state, s.sent, s.printed);
      assert Table(pid, st, s.sent, s.printed);
    }
  }

  lemma OtherInputShape(P: Setup, s: State, pid: int, line: Option<string>)
    requires Enabled(P, s, TesterInput(pid, line))
    requires !(s.testers[pid].state.readInput && line.Some? && line.value != "!")
    ensures
      var t := Next(P, s, TesterInput(pid, line));
      && pid in t.testers
      && t == s.(testers := s.testers[pid := t.testers[pid]], reports := t.reports)
      && (t.reports == s.reports || t.reports == s.reports + [Stop])
      && t.testers[pid].state.results == s.testers[pid].state.results
      && t.testers[pid].state.loc >= s.testers[pid].state.loc
      && t.testers[pid].dismissed == s.testers[pid].dismissed
  {
    hide QueueName;
  }

  /** Input that is no request: nothing, or a request to stop. */
  lemma OtherInputStep(P: Setup, s: State, pid: int, line: Option<string>)
    requires Inv(P, s) && Enabled(P, s, TesterInput(pid, line))
    requires !(s.testers[pid].state.readInput && line.Some? && line.value != "!")
    ensures Inv(P, Next(P, s, TesterInput(pid, line)))
  {
    hide Tally, AcceptsWord, QueueName, Transmitted, ServerProofs.Kept, Next, Conserved, Crew,
      Delivered, Counted, Forced, RunsOk, SlotsOk, WorkersOk, MailOk, LinesOk;
    var t := Next(P, s, TesterInput(pid, line));
    OtherInputShape(P, s, pid, line);
    StopConserved(s);
    SameTables(s, t, pid);
    forall x | x in t.sent
      ensures exists p :: Owner(p, x, t.testers)
    {
      var p :| Owner(p, x, s.testers);
      assert Owner(p, x, t.testers);
    }
  }

  lemma SameTables(s: State, t: State, pid: int)
    requires pid in s.testers && pid in t.testers && Tables(s.testers, s.sent, s.printed)
    requires t.testers == s.testers[pid := t.testers[pid]] && t.sent == s.sent && t.printed == s.printed
    requires t.testers[pid].state.results == s.testers[pid].state.results
    ensures Tables(t.testers, t.sent, t.printed)
  {
    hide Tally, QueueName;
    assert Table(pid, s.testers[pid].state, s.sent, s.printed);
    assert Table(pid, t.testers[pid].state, t.sent, t.printed);
  }

  lemma StopConserved(s: State)
    requires Conserved(s.reports, s.server.runSlots, s.mail, s.failed, s.printed, s.sent)
    ensures Conserved(s.reports + [Stop], s.server.runSlots, s.mail, s.failed, s.printed, s.sent)
  {
    TallyPush(s.reports, Stop, ReportToken);
  }

  lemma InputStep(P: Setup, s: State, pid: int, line: Option<string>)
    requires Inv(P, s) && Enabled(P, s, TesterInput(pid, line))
    ensures Inv(P, Next(P, s, TesterInput(pid, line)))
  {
    hide Inv, Next;
    if s.testers[pid].state.readInput && line.Some? && line.value != "!" {
      ParseStep(P, s, pid, line.value);
    } else {
      OtherInputStep(P, s, pid, line);
    }
  }

  // ----- a tester reads its queue

  lemma WithoutAt<T>(s: seq<T>, i: nat)
    requires i < |s|
    ensures |Without(s, i)| == |s| - 1
    ensures forall j :: 0 <= j < |s| - 1 ==> Without(s, i)[j] == s[if j < i then j else j + 1]
  {
  }

  function ReadMessage(s: State, pid: int): Option<TesterMsg>
    requires pid in s.testers
  {
    if Tester.Waiting(s.testers[pid].state) then FirstMail(s.mail, QueueName(pid)) else None
  }

  lemma QuietShape(P: Setup, s: State, pid: int)
    requires Enabled(P, s, TesterRead(pid))
    requires ReadMessage(s, pid) == None
    ensures
      var t := Next(P, s, TesterRead(pid));
      && pid in t.testers
      && t == s.(testers := s.testers[pid := t.testers[pid]])
      && t.testers[pid].state.results == s.testers[pid].state.results
      && t.testers[pid].state.loc == s.testers[pid].state.loc
      && t.testers[pid].dismissed == s.testers[pid].dismissed
  {
    hide QueueName, MailIndex, FirstMail;
    assert s.printed + [] == s.printed;
  }

  lemma ExitShape(P: Setup, s: State, pid: int)
    requires Enabled(P, s, TesterRead(pid))
    requires ReadMessage(s, pid) == Some(ServerExit)
    ensures
      var t := Next(P, s, TesterRead(pid));
      && pid in t.testers
      && t == s.(testers := s.testers[pid := t.testers[pid]],
                 mail := Without(s.mail, MailIndex(s.mail, QueueName(pid))))
      && t.testers[pid].state.results == s.testers[pid].state.results
      && t.testers[pid].state.loc == s.testers[pid].state.loc
      && t.testers[pid].dismissed
  {
    hide QueueName, MailIndex, FirstMail, Without;
    assert s.printed + [] == s.printed;
  }

  lemma AnswerShape(P: Setup, s: State, pid: int)
    requires Enabled(P, s, TesterRead(pid))
    requires ReadMessage(s, pid).Some? && ReadMessage(s, pid).value.Answer?
    requires ArrayLists.At(s.testers[pid].state.results, ReadMessage(s, pid).value.loc).Some?
    ensures
      var t := Next(P, s, TesterRead(pid));
      var msg, st := ReadMessage(s, pid).value, s.testers[pid].state;
      && pid in t.testers
      && t == s.(testers := s.testers[pid := t.testers[pid]],
                 mail := Without(s.mail, MailIndex(s.mail, QueueName(pid))),
                 printed := s.printed +
                   [(pid, Tester.Line(msg.loc, ArrayLists.At(st.results, msg.loc).value, msg.result != 0))])
      && t.testers[pid].state.results == st.results[msg.loc := None]
      && t.testers[pid].state.loc == st.loc
      && t.testers[pid].dismissed == s.testers[pid].dismissed
  {
    hide QueueName, MailIndex, FirstMail, Without;
    var msg, st := ReadMessage(s, pid).value, s.testers[pid].state;
    var line := Tester.Line(msg.loc, ArrayLists.At(st.results, msg.loc).value, msg.result != 0);
    assert Printed(pid, [line]) == [(pid, line)];
    assert ArrayLists.Touched(st.results, msg.loc) == st.results;
  }

  lemma SameOwners(s: State, t: State, pid: int)
    requires pid in s.testers && pid in t.testers && Owned(s.sent, s.testers)
    requires t.testers == s.testers[pid := t.testers[pid]] && t.sent == s.sent
    requires t.testers[pid].state.loc >= s.testers[pid].state.loc
    ensures Owned(t.sent, t.testers)
  {
    forall x | x in t.sent
      ensures exists p :: Owner(p, x, t.testers)
    {
      var p :| Owner(p, x, s.testers);
      assert Owner(p, x, t.testers);
    }
  }

  lemma QuietStep(P: Setup, s: State, pid: int)
    requires Inv(P, s) && Enabled(P, s, TesterRead(pid)) && ReadMessage(s, pid) == None
    ensures Inv(P, Next(P, s, TesterRead(pid)))
  {
    hide Tally, AcceptsWord, QueueName, Transmitted, ServerProofs.Kept, Next, Conserved, Crew,
      Delivered, Counted, Forced, RunsOk, SlotsOk, WorkersOk, MailOk, LinesOk, Tables, Owned, ReadMessage;
    QuietShape(P, s, pid);
    var t := Next(P, s, TesterRead(pid));
    SameTables(s, t, pid);
    SameOwners(s, t, pid);
  }

  lemma ExitFarewell(s: State, t: State, pid: int, i: nat)
    requires Farewell(s.mail, s.testers, s.phase)
    requires i < |s.mail| && i == MailIndex(s.mail, QueueName(pid)) && s.mail[i].msg.ServerExit?
    requires pid in t.testers && t.testers == s.testers[pid := t.testers[pid]]
    requires t.mail == Without(s.mail, i) && t.phase == s.phase
    ensures Farewell(t.mail, t.testers, t.phase)
  {
    hide QueueName, MailIndex, Without;
    WithoutAt(s.mail, i);
  }

  lemma ExitReadStep(P: Setup, s: State, pid: int)
    requires Inv(P, s) && Enabled(P, s, TesterRead(pid)) && ReadMessage(s, pid) == Some(ServerExit)
    ensures Inv(P, Next(P, s, TesterRead(pid)))
  {
    hide Tally, AcceptsWord, QueueName, Transmitted, ServerProofs.Kept, Next, Crew,
      Counted, Forced, RunsOk, SlotsOk, WorkersOk, LinesOk, Tables, Owned, Without, MailIndex, Farewell;
    ExitShape(P, s, pid);
    var t, i := Next(P, s, TesterRead(pid)), MailIndex(s.mail, QueueName(pid));
    SameTables(s, t, pid);
    SameOwners(s, t, pid);
    WithoutAt(s.mail, i);
    TallyWithout(s.mail, i, MailToken);
    ExitFarewell(s, t, pid, i);
  }

  /** The tester finds the word of every answer it reads, and has not printed it before. */
  lemma AnswerExpected(P: Setup, s: State, pid: int, i: nat)
    requires Inv(P, s) && pid in s.testers
    requires i < |s.mail| && s.mail[i].queue == QueueName(pid) && s.mail[i].msg.Answer?
    ensures
      var k := Token(QueueName(pid), s.mail[i].msg.loc);
      && k in s.sent && k !in Tally(s.printed, LineToken)
      && ArrayLists.At(s.testers[pid].state.results, k.loc) == Some(s.sent[k])
  {
    hide Tally, AcceptsWord, QueueName, Transmitted, ServerProofs.Kept, Crew, Delivered, Counted, Forced;
    var k := Token(QueueName(pid), s.mail[i].msg.loc);
    assert AnswerOk(P, s.mail[i], s.sent);
    TallyHas(s.mail, i, MailToken);
    assert multiset(s.sent.Keys)[k] == 1;
    assert Table(pid, s.testers[pid].state, s.sent, s.printed);
  }

  lemma PrintedTables(s: State, t: State, pid: int, line: Tester.Line)
    requires pid in s.testers && pid in t.testers && Tables(s.testers, s.sent, s.printed)
    requires t.testers == s.testers[pid := t.testers[pid]] && t.sent == s.sent
    requires t.printed == s.printed + [(pid, line)]
    requires ArrayLists.At(s.testers[pid].state.results, line.loc).Some?
    requires t.testers[pid].state.results == s.testers[pid].state.results[line.loc := None]
    ensures Tables(t.testers, t.sent, t.printed)
  {
    hide Tally, QueueName;
    TallyPush(s.printed, (pid, line), LineToken);
    forall p | p in t.testers
      ensures Table(p, t.testers[p].state, t.sent, t.printed)
    {
      if p != pid && QueueName(p) == QueueName(pid) {
        QueueNameInjective(p, pid);
      }
      assert Table(p, s.testers[p].state, s.sent, s.printed);
    }
  }

  lemma AnswerFarewell(s: State, t: State, pid: int, i: nat)
    requires Farewell(s.mail, s.testers, s.phase) && i < |s.mail|
    requires pid in s.testers && pid in t.testers && t.testers == s.testers[pid := t.testers[pid]]
    requires t.testers[pid].dismissed == s.testers[pid].dismissed
    requires t.mail == Without(s.mail, i) && t.phase == s.phase
    ensures Farewell(t.mail, t.testers, t.phase)
  {
    hide QueueName, MailIndex, Without;
    WithoutAt(s.mail, i);
  }

  lemma AnswerReadStep(P: Setup, s: State, pid: int)
    requires Inv(P, s) && Enabled(P, s, TesterRead(pid))
    requires ReadMessage(s, pid).Some? && ReadMessage(s, pid).value.Answer?
    ensures Inv(P, Next(P, s, TesterRead(pid)))
  {
    hide Tally, AcceptsWord, QueueName, Transmitted, ServerProofs.Kept, Next, Crew, Counted, Forced,
      RunsOk, SlotsOk, WorkersOk, Tables, Owned, Without, MailIndex, Farewell, ArrayLists.At;
    var i := MailIndex(s.mail, QueueName(pid));
    var msg, st := s.mail[i].msg, s.testers[pid].state;
    AnswerExpected(P, s, pid, i);
    AnswerShape(P, s, pid);
    var t, k := Next(P, s, TesterRead(pid)), Token(QueueName(pid), msg.loc);
    var line := Tester.Line(msg.loc, s.sent[k], msg.result != 0);
    assert AnswerOk(P, s.mail[i], s.sent);
    assert LineOk(P, (pid, line), s.sent);
    PrintedTables(s, t, pid, line);
    SameOwners(s, t, pid);
    WithoutAt(s.mail, i);
    TallyWithout(s.mail, i, MailToken);
    TallyPush(s.printed, (pid, line), LineToken);
    AnswerFarewell(s, t, pid, i);
  }

  lemma ReadStep(P: Setup, s: State, pid: int)
    requires Inv(P, s) && Enabled(P, s, TesterRead(pid))
    ensures Inv(P, Next(P, s, TesterRead(pid)))
  {
    hide Next, Tally, AcceptsWord, QueueName, Transmitted, ServerProofs.Kept;
    if ReadMessage(s, pid) == None {
      QuietStep(P, s, pid);
    } else {
      assert AnswerOk(P, s.mail[MailIndex(s.mail, QueueName(pid))], s.sent);
      if ReadMessage(s, pid).value.Answer? {
        AnswerReadStep(P, s, pid);
      } else {
        ExitReadStep(P, s, pid);
      }
    }
  }

  // ----- the server registers testers

  lemma PutNamed(s: seq<Server.TesterSlot>, slot: Server.TesterSlot)
    requires SessionsNamed(s) && slot.queue == QueueName(slot.pid)
    ensures SessionsNamed(Server.PutTester(s, slot))
  {
    hide QueueName, Without;
    var i := Server.TesterIndex(s, slot.pid);
    if i < |s| {
      WithoutAt(s, i);
    } else {
      assert Without(s, i) == s by { WithoutNone(s, i); }
    }
  }

  lemma WithoutNone<T>(s: seq<T>, i: nat)
    requires i >= |s|
    ensures Without(s, i) == s
  {
  }

  lemma RegisterStep(P: Setup, s: State)
    requires Inv(P, s) && Enabled(P, s, ReadRegister)
    ensures Inv(P, Next(P, s, ReadRegister))
  {
    hide Tally, AcceptsWord, QueueName, Transmitted, ServerProofs.Kept, Crew, Delivered, Counted, Conserved,
      SlotsOk, WorkersOk, ReportsOk, RunsOk, MailOk, LinesOk, Farewell, Tables, Owned, Server.PutTester, SessionsNamed;
    var m := s.registers[0];
    assert Server.RegisterAll(s.server, [m]) == Server.RegisterOne(s.server, m) by {
      assert [m][..0] == [];
      RegisterNone(s.server);
    }
    ServerProofs.RegisterKeeps(s.server, |s.failed|, [m]);
    PutNamed(s.server.testerSlots, Server.TesterSlot(m.pid, m.queue, 0, 0));
  }

  lemma RegisterNone(s: Server.State)
    ensures Server.RegisterAll(s, []) == s
  {
  }

  lemma ThrottleStep(P: Setup, s: State)
    requires Inv(P, s) && Enabled(P, s, EndRegisters)
    ensures Inv(P, Next(P, s, EndRegisters))
  {
    hide Tally, AcceptsWord, QueueName, Transmitted, Crew, Delivered, Counted, Conserved, ServerProofs.SumRcd,
      SlotsOk, WorkersOk, ReportsOk, RunsOk, MailOk, LinesOk, Tables, Owned, SessionsNamed, ServerProofs.SumAcc;
  }

  // ----- the server reads a report

  /** The server's part of reading a report by the worker of an open slot. */
  lemma HandledRun(s: Server.State, limit: int, msg: RunMsg)
    requires msg.Terminate? && HasRun(s.runSlots, msg.pid) && SessionsNamed(s.testerSlots)
    requires ServerProofs.HasSession(s.testerSlots, s.runSlots[Server.RunIndex(s.runSlots, msg.pid)].tester)
    ensures
      var (u, mail) := Server.HandleRun(s, limit, Some(msg));
      var r := Server.RunIndex(s.runSlots, msg.pid);
      && mail == [Server.Mail(QueueName(s.runSlots[r].tester), Answer(s.runSlots[r].loc, msg.result))]
      && u.runSlots == Without(s.runSlots, r) && u.active == s.active - 1
      && u.forceTermination == s.forceTermination && u.shouldTerminate == s.shouldTerminate
      && SessionsNamed(u.testerSlots)
  {
    hide QueueName, Server.RunIndex, Without, Server.TesterIndex;
    var t := Server.Unthrottle(s.(active := s.active - 1), limit);
    var r := Server.RunIndex(t.runSlots, msg.pid);
    ServerProofs.ScanFinds(t.testerSlots, t.runSlots[r].tester);
  }

  lemma RunShape(P: Setup, s: State)
    requires Enabled(P, s, ReadRun) && s.runs != [] && s.runs[0].Terminate?
    requires HasRun(s.server.runSlots, s.runs[0].pid) && SessionsNamed(s.server.testerSlots)
    requires
      var rs := s.server.runSlots[Server.RunIndex(s.server.runSlots, s.runs[0].pid)];
      ServerProofs.HasSession(s.server.testerSlots, rs.tester)
    ensures
      var t, r := Next(P, s, ReadRun), Server.RunIndex(s.server.runSlots, s.runs[0].pid);
      var rs, u := s.server.runSlots[r], t.server;
      && t == s.(server := u, phase := AtWait, gotRun := true, runs := s.runs[1..],
                 mail := s.mail + [Server.Mail(QueueName(rs.tester), Answer(rs.loc, s.runs[0].result))])
      && u.runSlots == Without(s.server.runSlots, r) && u.active == s.server.active - 1
      && u.forceTermination == s.server.forceTermination && u.shouldTerminate == s.server.shouldTerminate
      && SessionsNamed(u.testerSlots)
  {
    hide QueueName, Server.RunIndex, Without, Server.TesterIndex, Server.HandleRun, SessionsNamed;
    HandledRun(s.server, P.limit, s.runs[0]);
  }

  lemma RunCrew(workers: map<int, Worker>, slots: seq<Server.RunSlot>, runs: seq<RunMsg>)
    requires Crew(workers, slots, runs) && ServerProofs.OnePidEach(slots)
    requires runs != [] && runs[0].Terminate? && HasRun(slots, runs[0].pid)
    ensures
      var p, rest := runs[0].pid, Without(slots, Server.RunIndex(slots, runs[0].pid));
      && Crew(workers, rest, runs[1..])
      && forall q :: q != p && HasRun(slots, q) ==> HasRun(rest, q)
  {
    hide Server.RunIndex, Without;
    var p, i := runs[0].pid, Server.RunIndex(slots, runs[0].pid);
    ServerProofs.WithoutRun(slots, i);
    var rest := Without(slots, i);
    forall q | q != p && HasRun(slots, q)
      ensures HasRun(rest, q)
    {
      var j := Server.RunIndex(slots, q);
      assert rest[if j < i then j else j - 1].pid == q;
    }
    forall q | Reporting(runs[1..], q)
      ensures q != p && Reporting(runs, q)
    {
      var j :| 0 <= j < |runs[1..]| && runs[1..][j].Terminate? && runs[1..][j].pid == q;
      assert runs[j + 1] == runs[1..][j];
    }
    assert Reporting(runs, p);
  }

  lemma RunDelivers(s: State, t: State, r: nat, m: Server.Mail)
    requires Delivered(s.workers, s.server.runSlots, s.mail, s.printed)
    requires SlotsOk(s.server.runSlots, s.workers) && r < |s.server.runSlots|
    requires m.msg.Answer? && MailToken(m) == SlotToken(s.server.runSlots[r])
    requires t.workers == s.workers && t.mail == s.mail + [m] && t.printed == s.printed
    requires forall q :: q != s.server.runSlots[r].pid && HasRun(s.server.runSlots, q) ==> HasRun(t.server.runSlots, q)
    ensures Delivered(t.workers, t.server.runSlots, t.mail, t.printed)
  {
    hide Tally, QueueName, Server.RunIndex;
    TallyPush(s.mail, m, MailToken);
  }

  lemma RunConserves(s: State, t: State, r: nat, m: Server.Mail)
    requires Conserved(s.reports, s.server.runSlots, s.mail, s.failed, s.printed, s.sent)
    requires r < |s.server.runSlots| && t.server.runSlots == Without(s.server.runSlots, r)
    requires MailToken(m) == SlotToken(s.server.runSlots[r])
    requires t.mail == s.mail + [m]
    ensures Conserved(s.reports, t.server.runSlots, t.mail, s.failed, s.printed, s.sent)
  {
    hide Tally, QueueName, Without;
    TallyPush(s.mail, m, MailToken);
    TallyWithout(s.server.runSlots, r, SlotToken);
  }

  /** The answer forwarded for a report has the right verdict and goes to the right tester. */
  lemma ForwardedOk(P: Setup, s: State, r: nat)
    requires Inv(P, s) && s.runs != [] && r < |s.server.runSlots| && s.server.runSlots[r].pid == s.runs[0].pid
    ensures s.runs[0].Terminate?
    ensures
      var rs := s.server.runSlots[r];
      AnswerOk(P, Server.Mail(QueueName(rs.tester), Answer(rs.loc, s.runs[0].result)), s.sent)
  {
    hide Tally, AcceptsWord, QueueName, Transmitted, ServerProofs.Kept, Crew, Delivered, Counted, Conserved;
    assert RunOk(P, s.runs[0], s.workers);
    var w := s.workers[s.runs[0].pid];
    assert w.Request() == Token(QueueName(s.server.runSlots[r].tester), s.server.runSlots[r].loc);
  }

  lemma AnswerFollows(s: State, m: Server.Mail)
    requires Farewell(s.mail, s.testers, s.phase) && s.phase != Gone && m.msg.Answer?
    ensures Farewell(s.mail + [m], s.testers, AtWait)
  {
  }

  lemma AnswersStep(P: Setup, s: State)
    requires Inv(P, s) && Enabled(P, s, ReadRun) && s.runs != []
    ensures Inv(P, Next(P, s, ReadRun))
  {
    hide Tally, AcceptsWord, QueueName, Transmitted, ServerProofs.Kept, Crew, Delivered, Conserved, Next,
      WorkersOk, ReportsOk, LinesOk, Tables, Owned, Farewell, Server.RunIndex, Without, SessionsNamed,
      ServerProofs.HasSession;
    var p, slots := s.runs[0].pid, s.server.runSlots;
    var r := Server.RunIndex(slots, p);
    ReportHasSlot(P, s);
    RunShape(P, s);
    var t := Next(P, s, ReadRun);
    var m := Server.Mail(QueueName(slots[r].tester), Answer(slots[r].loc, s.runs[0].result));
    ForwardedOk(P, s, r);
    RunCrew(s.workers, slots, s.runs);
    RunDelivers(s, t, r, m);
    RunConserves(s, t, r, m);
    AnswerFollows(s, m);
    ServerProofs.WithoutRun(slots, r);
    RunKept(P, s);
  }

  lemma ReportHasSlot(P: Setup, s: State)
    requires Inv(P, s) && s.runs != []
    ensures s.runs[0].Terminate? && HasRun(s.server.runSlots, s.runs[0].pid)
    ensures ServerProofs.OnePidEach(s.server.runSlots)
    ensures
      var rs := s.server.runSlots[Server.RunIndex(s.server.runSlots, s.runs[0].pid)];
      ServerProofs.HasSession(s.server.testerSlots, rs.tester)
  {
    hide Tally, AcceptsWord, QueueName, Transmitted, Delivered, Conserved, ServerProofs.SumRcd, ServerProofs.SumAcc,
      Server.RunIndex, Server.TesterIndex;
    assert RunOk(P, s.runs[0], s.workers);
    assert Reporting(s.runs, s.runs[0].pid);
  }

  lemma RunKept(P: Setup, s: State)
    requires Enabled(P, s, ReadRun) && ServerProofs.Kept(s.server, |s.failed|)
    ensures ServerProofs.Kept(Next(P, s, ReadRun).server, |s.failed|)
  {
    hide ServerProofs.Kept, Server.HandleRun;
    ServerProofs.RunKeeps(s.server, P.limit, |s.failed|, Head(s.runs));
  }

  lemma RunStep(P: Setup, s: State)
    requires Inv(P, s) && Enabled(P, s, ReadRun)
    ensures Inv(P, Next(P, s, ReadRun))
  {
    hide Tally, AcceptsWord, QueueName, Transmitted, ServerProofs.Kept, Crew, Delivered, Conserved, WorkersOk, ReportsOk,
      LinesOk, Tables, Owned, SessionsNamed, Server.Forward;
    if s.runs == [] {
      assert s.mail + [] == s.mail;
    } else {
      AnswersStep(P, s);
    }
  }

  // ----- the server waits for a child

  /** No worker counts as active exactly when every open slot is that of a crashed worker that
      was waited for. */
  lemma NoneActive(s: State)
    requires SlotsOk(s.server.runSlots, s.workers) && Crew(s.workers, s.server.runSlots, s.runs)
    requires Counted(s.workers, s.server.runSlots, s.crashes, s.server.active)
    requires ServerProofs.OnePidEach(s.server.runSlots)
    ensures s.server.active <= 0 <==>
            forall i :: 0 <= i < |s.server.runSlots| ==> Failed(s.workers, s.server.runSlots[i].pid)
  {
    var slots := s.server.runSlots;
    var pids := seq(|slots|, i requires 0 <= i < |slots| => slots[i].pid);
    forall x | x in s.crashes
      ensures x in pids
    {
      assert Failed(s.workers, x) && HasRun(slots, x);
      assert pids[Server.RunIndex(slots, x)] == x;
    }
    if s.server.active <= 0 {
      SubsetCovers(s.crashes, pids);
      forall i | 0 <= i < |slots|
        ensures Failed(s.workers, slots[i].pid)
      {
        assert pids[i] in s.crashes;
      }
    } else if forall i :: 0 <= i < |slots| ==> Failed(s.workers, slots[i].pid) {
      SubsetSize(pids, s.crashes);
    }
  }

  /** The decision to terminate: taken by a wait that finds no child exactly when termination was
      requested, no report was read this turn, and every open slot is that of a crashed worker. */
  lemma TerminationDecided(P: Setup, s: State)
    requires Inv(P, s) && Enabled(P, s, Wait(None))
    ensures Next(P, s, Wait(None)).server.forceTermination <==>
            && s.server.shouldTerminate && !s.gotRun
            && forall i :: 0 <= i < |s.server.runSlots| ==> Failed(s.workers, s.server.runSlots[i].pid)
  {
    hide Tally, AcceptsWord, QueueName, Transmitted, Delivered, Conserved, WorkersOk, ReportsOk, RunsOk, Server.RunIndex,
      MailOk, LinesOk, Tables, Owned, SessionsNamed, ServerProofs.SumRcd, ServerProofs.SumAcc, ServerProofs.HasSession;
    NoneActive(s);
  }

  lemma IdleStep(P: Setup, s: State)
    requires Inv(P, s) && Enabled(P, s, Wait(None))
    ensures Inv(P, Next(P, s, Wait(None)))
  {
    hide Tally, AcceptsWord, QueueName, Transmitted, Delivered, Conserved, WorkersOk, ReportsOk, RunsOk, Server.RunIndex,
      MailOk, LinesOk, Tables, Owned, SessionsNamed, ServerProofs.SumRcd, ServerProofs.SumAcc, ServerProofs.HasSession;
    NoneActive(s);
  }

  /** Waiting for a child marks it, and counts it if it failed. */
  lemma ReapShape(P: Setup, s: State, c: int)
    requires Enabled(P, s, Wait(Some(c))) && s.phase == AtWait
    ensures
      var t, failed := Next(P, s, Wait(Some(c))), s.workers[c].status.Crashed?;
      t == s.(
        phase := AtReport,
        server := s.server.(active := s.server.active - if failed then 1 else 0),
        workers := s.workers[c := s.workers[c].(reaped := true)],
        crashes := if failed then s.crashes + [c] else s.crashes)
  {
  }

  lemma ReapRecords(P: Setup, s: State, c: int)
    requires c in s.workers
    requires WorkersOk(s.workers, s.sent) && RunsOk(P, s.runs, s.workers) && SlotsOk(s.server.runSlots, s.workers)
    ensures
      var workers := s.workers[c := s.workers[c].(reaped := true)];
      WorkersOk(workers, s.sent) && RunsOk(P, s.runs, workers) && SlotsOk(s.server.runSlots, workers)
  {
    hide QueueName, Transmitted, AcceptsWord;
    var workers := s.workers[c := s.workers[c].(reaped := true)];
    assert workers[c].Request() == s.workers[c].Request();
  }

  lemma ReapCrew(s: State, c: int)
    requires Zombie(s, c)
    requires Crew(s.workers, s.server.runSlots, s.runs)
    requires Delivered(s.workers, s.server.runSlots, s.mail, s.printed)
    ensures
      var workers := s.workers[c := s.workers[c].(reaped := true)];
      && Crew(workers, s.server.runSlots, s.runs)
      && Delivered(workers, s.server.runSlots, s.mail, s.printed)
  {
    hide Tally, QueueName, HasRun, Reporting;
    var workers := s.workers[c := s.workers[c].(reaped := true)];
    assert workers[c].Request() == s.workers[c].Request();
  }

  lemma ReapCounts(s: State, c: int)
    requires Zombie(s, c) && Counted(s.workers, s.server.runSlots, s.crashes, s.server.active)
    ensures
      var workers, failed := s.workers[c := s.workers[c].(reaped := true)], s.workers[c].status.Crashed?;
      Counted(workers, s.server.runSlots, if failed then s.crashes + [c] else s.crashes,
              s.server.active - if failed then 1 else 0)
  {
    var workers := s.workers[c := s.workers[c].(reaped := true)];
    forall p
      ensures Failed(workers, p) <==> Failed(s.workers, p) || (p == c && s.workers[c].status.Crashed?)
    {
    }
    assert !Failed(s.workers, c);
  }

  /** Waiting for a child keeps the accounting: a crash is counted once, and leaves the slot of
      the failed worker open. */
  lemma ReapStep(P: Setup, s: State, c: int)
    requires Inv(P, s) && Enabled(P, s, Wait(Some(c)))
    ensures Inv(P, Next(P, s, Wait(Some(c))))
  {
    hide Tally, AcceptsWord, QueueName, Transmitted, Conserved, ReportsOk, ServerProofs.SumRcd, ServerProofs.SumAcc,
      ServerProofs.HasSession, MailOk, LinesOk, Tables, Owned, SessionsNamed, Next, WorkersOk, RunsOk, SlotsOk, Crew,
      Delivered, Counted;
    ReapShape(P, s, c);
    ReapRecords(P, s, c);
    ReapCrew(s, c);
    ReapCounts(s, c);
  }

  // ----- the server reads a request

  lemma ChargeNamed(s: Server.State, pid: int)
    requires SessionsNamed(s.testerSlots)
    ensures SessionsNamed(Server.Charge(s, pid, QueueName(pid)).testerSlots)
  {
    hide QueueName, Server.PutTester;
    PutNamed(s.testerSlots, Server.TesterSlot(pid, QueueName(pid), 0, 0));
  }

  lemma UnusedPid(slots: seq<Server.RunSlot>, workers: map<int, Worker>, pid: int)
    requires SlotsOk(slots, workers) && pid !in workers
    ensures Server.RunIndex(slots, pid) == |slots|
    ensures forall slot: Server.RunSlot :: slot.pid == pid ==> Server.PutRun(slots, slot) == slots + [slot]
  {
    WithoutNone(slots, |slots|);
  }

  lemma ReportKept(P: Setup, s: State, spawned: Option<int>)
    requires Inv(P, s) && Enabled(P, s, ReadReport(spawned))
    ensures
      var t := Next(P, s, ReadReport(spawned));
      ServerProofs.Kept(t.server, |t.failed|) && SessionsNamed(t.server.testerSlots)
  {
    hide Tally, AcceptsWord, QueueName, Transmitted, Delivered, Conserved, WorkersOk, RunsOk, Counted, Crew,
      MailOk, LinesOk, Tables, Owned, Farewell, SessionsNamed, ServerProofs.Kept, Server.Charge, Server.RunIndex,
      Server.PutRun;
    var msg := NextReport(s);
    if spawned.Some? {
      UnusedPid(s.server.runSlots, s.workers, spawned.value);
    }
    ServerProofs.ReportKeeps(s.server, |s.failed|, msg, spawned);
    if Starts(s) {
      assert ReportOk(s.reports[0], s.sent);
      ChargeNamed(s.server, msg.value.pid);
    }
  }

  /** The state after a read that starts no worker. */
  lemma OtherReportStep(P: Setup, s: State, spawned: Option<int>)
    requires Inv(P, s) && Enabled(P, s, ReadReport(spawned)) && !Starts(s)
    ensures Inv(P, Next(P, s, ReadReport(spawned)))
  {
    hide Tally, AcceptsWord, QueueName, Transmitted, Delivered, WorkersOk, RunsOk, Crew,
      MailOk, LinesOk, Tables, Owned, SessionsNamed, ServerProofs.Kept, Server.Charge, Server.RunIndex, Server.PutRun;
    ReportKept(P, s, spawned);
    var t := Next(P, s, ReadReport(spawned));
    if NextReport(s).Some? {
      assert ReportOk(s.reports[0], s.sent);
      TallyTail(s.reports, ReportToken);
    }
    assert t.server.runSlots == s.server.runSlots && t.server.active == s.server.active;
  }

  lemma ChargeOnly(s: Server.State, pid: int, queue: string)
    ensures
      var t := Server.Charge(s, pid, queue);
      t == s.(rcd := t.rcd, testerSlots := t.testerSlots)
  {
    hide Server.TesterIndex, Server.PutTester;
  }

  lemma SpawnShape(P: Setup, s: State, spawned: Option<int>)
    requires Inv(P, s) && Enabled(P, s, ReadReport(spawned)) && Starts(s)
    ensures
      var t, m := Next(P, s, ReadReport(spawned)), s.reports[0];
      && t == s.(phase := AtFinish, reports := s.reports[1..], server := t.server, failed := t.failed,
                 workers := t.workers)
      && t.server.forceTermination == s.server.forceTermination && t.server.shouldTerminate == s.server.shouldTerminate
      && if spawned == None then
           && t.failed == s.failed + [Token(m.queue, m.loc)] && t.workers == s.workers
           && t.server.runSlots == s.server.runSlots && t.server.active == s.server.active
         else
           && t.failed == s.failed
           && t.workers == s.workers[spawned.value := Worker(m.pid, m.loc, m.word, Running, false)]
           && t.server.runSlots == s.server.runSlots + [Server.RunSlot(spawned.value, m.pid, m.loc)]
           && t.server.active == s.server.active + 1
  {
    hide Tally, AcceptsWord, QueueName, Transmitted, Delivered, Conserved, WorkersOk, RunsOk, Counted, Crew, ReportsOk,
      MailOk, LinesOk, Tables, Owned, Farewell, SessionsNamed, ServerProofs.Kept, Server.Charge, Server.RunIndex,
      Server.PutRun;
    var m := s.reports[0];
    ChargeOnly(s.server, m.pid, m.queue);
    if spawned.Some? {
      UnusedPid(s.server.runSlots, s.workers, spawned.value);
    }
  }

  lemma GiveUpStep(P: Setup, s: State)
    requires Inv(P, s) && Enabled(P, s, ReadReport(None)) && Starts(s)
    ensures Inv(P, Next(P, s, ReadReport(None)))
  {
    hide Tally, AcceptsWord, QueueName, Transmitted, Delivered, WorkersOk, RunsOk, Crew, Next, Counted,
      MailOk, LinesOk, Tables, Owned, SessionsNamed, ServerProofs.Kept, Server.Charge, Server.RunIndex, Server.PutRun;
    ReportKept(P, s, None);
    SpawnShape(P, s, None);
    TallyTail(s.reports, ReportToken);
    var t := Next(P, s, ReadReport(None));
    assert multiset(t.failed) == multiset(s.failed) + One(ReportToken(s.reports[0]));
  }

  lemma PushedSlot(slots: seq<Server.RunSlot>, slot: Server.RunSlot)
    ensures HasRun(slots + [slot], slot.pid)
    ensures forall q :: HasRun(slots, q) ==> HasRun(slots + [slot], q)
  {
    assert (slots + [slot])[|slots|] == slot;
    forall q | HasRun(slots, q)
      ensures HasRun(slots + [slot], q)
    {
      assert (slots + [slot])[Server.RunIndex(slots, q)].pid == q;
    }
  }

  /** Workers, slots and reports once one more worker was started. */
  lemma SpawnCrew(P: Setup, s: State, p: int, w: Worker)
    requires Inv(P, s) && p !in s.workers && w.status == Running && !w.reaped
    ensures
      var workers, slots := s.workers[p := w], s.server.runSlots + [Server.RunSlot(p, w.tester, w.loc)];
      && RunsOk(P, s.runs, workers) && SlotsOk(slots, workers) && Crew(workers, slots, s.runs)
      && Delivered(workers, slots, s.mail, s.printed)
      && Counted(workers, slots, s.crashes, s.server.active + 1)
  {
    hide Tally, AcceptsWord, QueueName, Transmitted, Conserved, ReportsOk, MailOk, LinesOk, Tables, Owned,
      Farewell, ServerProofs.Kept, Server.RunIndex, WorkersOk;
    PushedSlot(s.server.runSlots, Server.RunSlot(p, w.tester, w.loc));
    forall q | Reporting(s.runs, q)
      ensures q in s.workers
    {
      var i :| 0 <= i < |s.runs| && s.runs[i].Terminate? && s.runs[i].pid == q;
      assert RunOk(P, s.runs[i], s.workers);
    }
  }

  lemma SpawnConserves(s: State, slot: Server.RunSlot)
    requires Conserved(s.reports, s.server.runSlots, s.mail, s.failed, s.printed, s.sent)
    requires s.reports != [] && ReportToken(s.reports[0]) == SlotToken(slot)
    ensures Conserved(s.reports[1..], s.server.runSlots + [slot], s.mail, s.failed, s.printed, s.sent)
  {
    hide Tally, QueueName;
    TallyTail(s.reports, ReportToken);
    TallyPush(s.server.runSlots, slot, SlotToken);
  }

  lemma SpawnStep(P: Setup, s: State, p: int)
    requires Inv(P, s) && Enabled(P, s, ReadReport(Some(p))) && Starts(s)
    ensures Inv(P, Next(P, s, ReadReport(Some(p))))
  {
    hide Tally, AcceptsWord, QueueName, Transmitted, Delivered, RunsOk, Crew, Next, Conserved, Counted,
      MailOk, LinesOk, Tables, Owned, SessionsNamed, ServerProofs.Kept, Server.Charge, Server.RunIndex, Server.PutRun,
      SlotsOk;
    var m := s.reports[0];
    var w := Worker(m.pid, m.loc, m.word, Running, false);
    ReportKept(P, s, Some(p));
    SpawnShape(P, s, Some(p));
    assert ReportOk(m, s.sent);
    SpawnCrew(P, s, p, w);
    SpawnConserves(s, Server.RunSlot(p, m.pid, m.loc));
  }

  lemma ReportStep(P: Setup, s: State, spawned: Option<int>)
    requires Inv(P, s) && Enabled(P, s, ReadReport(spawned))
    ensures Inv(P, Next(P, s, ReadReport(spawned)))
  {
    hide Inv, Next;
    if !Starts(s) {
      OtherReportStep(P, s, spawned);
    } else if spawned == None {
      GiveUpStep(P, s);
    } else {
      SpawnStep(P, s, spawned.value);
    }
  }

  // ----- the end of a turn, and of the server

  lemma {:induction false} BroadcastExits(slots: seq<Server.TesterSlot>)
    ensures
      var b := Server.Broadcast(slots);
      && |b| == |slots| && (forall i :: 0 <= i < |b| ==> b[i].msg == ServerExit && b[i].queue == slots[i].queue)
      && Tally(b, MailToken) == multiset{}
  {
    if slots != [] {
      var n := |slots| - 1;
      BroadcastExits(slots[..n]);
      TallyPush(Server.Broadcast(slots[..n]), Server.Mail(slots[n].queue, ServerExit), MailToken);
    }
  }

  lemma FinishStep(P: Setup, s: State)
    requires Inv(P, s) && Enabled(P, s, Finish)
    ensures Inv(P, Next(P, s, Finish))
  {
    hide Tally, AcceptsWord, QueueName, Transmitted, ServerProofs.Kept, Crew, Counted, WorkersOk, RunsOk, ReportsOk,
      LinesOk, Tables, Owned, SessionsNamed, SlotsOk, Server.Broadcast, Server.RunIndex;
    var exits := Server.Broadcast(s.server.testerSlots);
    BroadcastExits(s.server.testerSlots);
    TallySplit(s.mail, exits, MailToken);
  }

  // ----- workers

  /** A report is evaluated, hence right, and the first of its worker. */
  lemma WorkerReportStep(P: Setup, s: State, p: int, result: int)
    requires Inv(P, s) && Enabled(P, s, WorkerReport(p, result))
    ensures Inv(P, Next(P, s, WorkerReport(p, result)))
  {
    hide Tally, AcceptsWord, QueueName, Transmitted, ServerProofs.Kept, Conserved, ReportsOk, MailOk,
      LinesOk, Tables, Owned, SessionsNamed, Server.RunIndex, Farewell, Reports, Right;
    var m := Terminate(p, result);
    ReportsRight(P, s.workers[p].word, result);
    var t := Next(P, s, WorkerReport(p, result));
    assert t.runs == s.runs + [m];
    ReportingMore(s.runs, m);
    assert HasRun(s.server.runSlots, p) && !Reporting(s.runs, p);
    SameRequests(s, t, p);
  }

  lemma ReportingMore(runs: seq<RunMsg>, m: RunMsg)
    requires m.Terminate?
    ensures forall q :: Reporting(runs + [m], q) <==> q == m.pid || Reporting(runs, q)
  {
    forall q
      ensures Reporting(runs + [m], q) <==> q == m.pid || Reporting(runs, q)
    {
      assert (runs + [m])[|runs|] == m;
      if Reporting(runs, q) {
        var i :| 0 <= i < |runs| && runs[i].Terminate? && runs[i].pid == q;
        assert (runs + [m])[i].pid == q;
      }
    }
  }

  /** A change of status leaves the requests as they are. */
  lemma SameRequests(s: State, t: State, p: int)
    requires p in s.workers && p in t.workers
    requires t.workers == s.workers[p := s.workers[p].(status := t.workers[p].status)]
    ensures forall q :: q in s.workers ==>
              q in t.workers && t.workers[q].word == s.workers[q].word && t.workers[q].Request() == s.workers[q].Request()
  {
  }

  lemma WorkerEndStep(P: Setup, s: State, p: int, e: Event)
    requires Inv(P, s) && Enabled(P, s, e) && (e == WorkerExit(p) || e == WorkerCrash(p))
    ensures Inv(P, Next(P, s, e))
  {
    hide Tally, AcceptsWord, QueueName, Transmitted, ServerProofs.Kept, Conserved, ReportsOk, MailOk,
      LinesOk, Tables, Owned, SessionsNamed, HasRun, Reporting, Farewell, Right;
    SameRequests(s, Next(P, s, e), p);
  }

  // ----- every event

  lemma EventStep(P: Setup, s: State, e: Event)
    requires Inv(P, s) && Enabled(P, s, e)
    ensures Inv(P, Next(P, s, e))
  {
    hide Inv, Next, Enabled;
    match e {
      case StartTester(pid) => StartStep(P, s, pid);
      case TesterInput(pid, line) => InputStep(P, s, pid, line);
      case TesterRead(pid) => ReadStep(P, s, pid);
      case ReadRegister => RegisterStep(P, s);
      case EndRegisters => ThrottleStep(P, s);
      case ReadRun => RunStep(P, s);
      case Wait(child) => if child.Some? { ReapStep(P, s, child.value); } else { IdleStep(P, s); }
      case ReadReport(spawned) => ReportStep(P, s, spawned);
      case Finish => FinishStep(P, s);
      case WorkerReport(p, result) => WorkerReportStep(P, s, p, result);
      case WorkerExit(p) => WorkerEndStep(P, s, p, e);
      case WorkerCrash(p) => WorkerEndStep(P, s, p, e);
    }
  }

  lemma Initially(P: Setup)
    ensures Inv(P, INITIAL)
  {
    assert multiset(INITIAL.sent.Keys) == multiset{};
  }

  lemma {:induction false} ScheduleKeeps(P: Setup, s: State, schedule: seq<Event>, t: State)
    requires Inv(P, s) && Runs(P, s, schedule, t)
    ensures Inv(P, t)
    decreases schedule
  {
    hide Inv, Next, Enabled;
    if schedule != [] {
      EventStep(P, s, schedule[0]);
      ScheduleKeeps(P, Next(P, s, schedule[0]), schedule[1..], t);
    }
  }

  lemma ReachableInv(P: Setup, t: State)
    requires Reachable(P, t)
    ensures Inv(P, t)
  {
    hide Inv, Next, Enabled;
    var schedule :| Runs(P, INITIAL, schedule, t);
    Initially(P);
    ScheduleKeeps(P, INITIAL, schedule, t);
  }
}
