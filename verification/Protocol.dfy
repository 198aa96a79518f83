/** The whole system: any number of testers, the server, and its workers, over first-in
    first-out queues, as a machine whose events are single reads and sends of one process. */
module Protocol {
  import opened Prelude
  import opened Automata
  import opened Graph
  import opened Wire
  import RunWorker
  import Server
  import Tester

  /** The automaton the server was started with, the limit on its workers, and the limits
      within which each worker evaluates. */
  datatype Setup = Setup(m: Automaton, limit: int, evaluator: RunWorker.Limits)

  /** A worker may report what some schedule of its own processes answers. On a word with letters
      outside the tables it may report anything. */
  ghost predicate Reports(P: Setup, word: string, result: int) {
    IsWord(word) ==> exists v :: RunWorker.Answers(P.m, P.evaluator, word, v) && result == if v then 1 else 0
  }

  /** One request: the queue its answer is to go to, and the tester's local id. */
  datatype Token = Token(queue: string, loc: int)

  datatype Status = Running | Reported | Exited | Crashed

  datatype Worker = Worker(tester: int, loc: int, word: string, status: Status, reaped: bool)
  {
    function Request(): Token { Token(QueueName(tester), loc) }
  }

  /** `reading` is set between the two halves of a turn; `dismissed` once it read an exit. */
  datatype TesterProcess = TesterProcess(state: Tester.State, reading: bool, dismissed: bool)

  /** The place of the server in its loop. */
  datatype Phase = AtRegister | AtRun | AtWait | AtReport | AtFinish | Gone

  /** `sent`, `failed`, `printed` and `crashes` are histories: the word of every request ever
      sent, the requests for which no worker started, the lines printed, and the crashed
      workers that were waited for. */
  datatype State = State(
    server: Server.State, phase: Phase, gotRun: bool,
    testers: map<int, TesterProcess>, workers: map<int, Worker>,
    registers: seq<RegisterMsg>, reports: seq<ReportMsg>, runs: seq<RunMsg>, mail: seq<Server.Mail>,
    sent: map<Token, string>, failed: seq<Token>, printed: seq<(int, Tester.Line)>, crashes: seq<int>)

  const INITIAL := State(Server.INITIAL, AtRegister, false, map[], map[], [], [], [], [], map[], [], [], [])

  datatype Event =
    | StartTester(pid: int)
    | TesterInput(pid: int, line: Option<string>)
    | TesterRead(pid: int)
    | ReadRegister
    | EndRegisters
    | ReadRun
    | Wait(child: Option<int>)
    | ReadReport(spawned: Option<int>)
    | Finish
    | WorkerReport(pid: int, result: int)
    | WorkerExit(pid: int)
    | WorkerCrash(pid: int)

  // ----- messages travel as text

  /** What the server reads of a message that a tester prints. */
  function Arriving(m: ReportMsg): ReportMsg {
    if m.Parse? then m.(word := Transmitted(m.word)) else m
  }

  /** Printing and scanning a tester's message has just this effect. */
  lemma ReportArrives(m: ReportMsg)
    requires m.Stop? || (m.Parse? && m.queue == QueueName(m.pid))
    ensures DecodeReport(EncodeReport(m)) == Arriving(m)
  {
    hide Transmitted, EncodeReport, DecodeReport, QueueName;
    if m.Parse? {
      QueueNameBlankFree(m.pid);
      ParseTransmits(m.pid, m.queue, m.loc, m.word);
    } else {
      ExitRoundTrip();
    }
  }

  /** All other messages arrive as they were sent. */
  lemma OthersArrive(pid: int, loc: int, result: int)
    ensures DecodeRegister(EncodeRegister(Register(pid, QueueName(pid)))) == Register(pid, QueueName(pid))
    ensures DecodeRun(EncodeRun(Terminate(pid, result))) == Terminate(pid, result)
    ensures DecodeAnswer(EncodeAnswer(Answer(loc, result))) == Answer(loc, result)
    ensures DecodeAnswer(EncodeAnswer(ServerExit)) == ServerExit
  {
    hide DecodeRegister, EncodeRegister, DecodeRun, EncodeRun, DecodeAnswer, EncodeAnswer, QueueName;
    QueueNameBlankFree(pid);
    RegisterRoundTrip(pid, QueueName(pid));
    RunRoundTrip(pid, result);
    AnswerRoundTrip(loc, result);
    ExitRoundTrip();
  }

  // ----- events

  /** The first message in a tester's queue. */
  function MailIndex(mail: seq<Server.Mail>, queue: string): (i: nat)
    ensures i <= |mail| && (i < |mail| ==> mail[i].queue == queue)
    ensures forall j :: 0 <= j < i ==> mail[j].queue != queue
  {
    if mail == [] || mail[0].queue == queue then 0 else 1 + MailIndex(mail[1..], queue)
  }

  function FirstMail(mail: seq<Server.Mail>, queue: string): Option<TesterMsg> {
    var i := MailIndex(mail, queue);
    if i < |mail| then Some(mail[i].msg) else None
  }

  function Head<T>(q: seq<T>): Option<T> {
    if q == [] then None else Some(q[0])
  }

  function Tail<T>(q: seq<T>): seq<T> {
    if q == [] then [] else q[1..]
  }

  predicate Zombie(s: State, p: int) {
    p in s.workers && !s.workers[p].reaped && (s.workers[p].status.Exited? || s.workers[p].status.Crashed?)
  }

  /** The report queue is only read while no termination was requested. */
  function NextReport(s: State): Option<ReportMsg> {
    if s.server.shouldTerminate then None else Head(s.reports)
  }

  /** The message makes the server start a worker. */
  predicate Starts(s: State) {
    !s.server.shouldTerminate && NextReport(s).Some? && NextReport(s).value.Parse?
  }

  predicate InPhase(s: State, pid: int, reading: bool) {
    pid in s.testers && !s.testers[pid].state.stopped && s.testers[pid].reading == reading
  }

  predicate HasStatus(s: State, pid: int, status: Status) {
    pid in s.workers && s.workers[pid].status == status
  }

  /** A blocking read waits for a message, a non-blocking one returns without. Process ids are
      not used twice; a worker either reports once and exits with 0, or fails without a report;
      and what it reports it has evaluated on a dependable schedule (`RunWorker.Dependable`). */
  ghost predicate Enabled(P: Setup, s: State, e: Event) {
    match e
    case StartTester(pid) => pid !in s.testers
    case TesterInput(pid, line) => InPhase(s, pid, false)
    case TesterRead(pid) => InPhase(s, pid, true)
    case ReadRegister => s.phase == AtRegister && s.registers != []
    case EndRegisters => s.phase == AtRegister && s.registers == []
    case ReadRun => s.phase == AtRun && (s.server.runBlocking ==> s.runs != [])
    case Wait(child) =>
      && s.phase == AtWait
      && if child.Some? then Zombie(s, child.value) else forall p :: p in s.workers ==> !Zombie(s, p)
    case ReadReport(spawned) =>
      && s.phase == AtReport
      && (!s.server.shouldTerminate && s.server.reportBlocking ==> s.reports != [])
      && (spawned.Some? ==> spawned.value !in s.workers)
    case Finish => s.phase == AtFinish
    case WorkerReport(p, result) => HasStatus(s, p, Running) && Reports(P, s.workers[p].word, result)
    case WorkerExit(p) => HasStatus(s, p, Reported)
    case WorkerCrash(p) => HasStatus(s, p, Running)
  }

  function WithTester(s: State, pid: int, t: Tester.State, reading: bool, dismissed: bool): State {
    s.(testers := s.testers[pid := TesterProcess(t, reading, dismissed)])
  }

  function WithStatus(s: State, pid: int, status: Status): State
    requires pid in s.workers
  {
    s.(workers := s.workers[pid := s.workers[pid].(status := status)])
  }

  function NextInput(s: State, pid: int, line: Option<string>): State
    requires pid in s.testers
  {
    var t := s.testers[pid];
    var (u, out) := Tester.TakeLine(t.state, pid, line);
    var v := WithTester(s, pid, u, true, t.dismissed);
    if out == [] || out[0].BadReport? then v
    else if out[0].Stop? then v.(reports := s.reports + [Stop])
    else v.(reports := s.reports + [Arriving(out[0])],
            sent := s.sent[Token(out[0].queue, out[0].loc) := out[0].word])
  }

  function Printed(pid: int, lines: seq<Tester.Line>): seq<(int, Tester.Line)> {
    seq(|lines|, i requires 0 <= i < |lines| => (pid, lines[i]))
  }

  function NextMail(s: State, pid: int): State
    requires pid in s.testers
  {
    var t, queue := s.testers[pid], QueueName(pid);
    var msg := if Tester.Waiting(t.state) then FirstMail(s.mail, queue) else None;
    var (u, lines) := Tester.TakeMail(t.state, msg);
    WithTester(s, pid, u, false, t.dismissed || msg == Some(ServerExit)).(
      mail := if msg.Some? then Without(s.mail, MailIndex(s.mail, queue)) else s.mail,
      printed := s.printed + Printed(pid, lines))
  }

  function NextRun(P: Setup, s: State): State {
    var (u, answers) := Server.HandleRun(s.server, P.limit, Head(s.runs));
    s.(server := u, phase := AtWait, gotRun := s.runs != [], runs := Tail(s.runs),
       mail := s.mail + answers)
  }

  /** What the non-blocking wait returns. */
  function WaitStatus(s: State, child: Option<int>): int
    requires child.Some? ==> child.value in s.workers
  {
    if child == None then 0 else if s.workers[child.value].status.Crashed? then -1 else 1
  }

  function NextWait(s: State, child: Option<int>): State
    requires child.Some? ==> child.value in s.workers
  {
    var status := WaitStatus(s, child);
    var t := s.(phase := AtReport,
                server := Server.CheckTermination(Server.HandleReap(s.server, status), status, s.gotRun));
    if child == None then t
    else
      t.(workers := s.workers[child.value := s.workers[child.value].(reaped := true)],
         crashes := if status == -1 then s.crashes + [child.value] else s.crashes)
  }

  function NextReportRead(s: State, spawned: Option<int>): State {
    var msg := NextReport(s);
    var t := s.(phase := AtFinish, server := Server.HandleReport(s.server, msg, spawned),
                reports := if msg.Some? then Tail(s.reports) else s.reports);
    if !Starts(s) then t
    else
      var m := msg.value;
      if spawned == None then t.(failed := s.failed + [Token(m.queue, m.loc)])
      else t.(workers := s.workers[spawned.value := Worker(m.pid, m.loc, m.word, Running, false)])
  }

  function NextFinish(s: State): State {
    if s.server.forceTermination
    then s.(phase := Gone, mail := s.mail + Server.Broadcast(s.server.testerSlots))
    else s.(phase := AtRegister)
  }

  ghost function Next(P: Setup, s: State, e: Event): State
    requires Enabled(P, s, e)
  {
    match e
    case StartTester(pid) =>
      WithTester(s, pid, Tester.INITIAL, false, false).(
        registers := s.registers + [Register(pid, QueueName(pid))])
    case TesterInput(pid, line) => NextInput(s, pid, line)
    case TesterRead(pid) => NextMail(s, pid)
    case ReadRegister =>
      s.(server := Server.RegisterOne(s.server, s.registers[0]), registers := s.registers[1..])
    case EndRegisters => s.(server := Server.Throttle(s.server, P.limit), phase := AtRun)
    case ReadRun => NextRun(P, s)
    case Wait(child) => NextWait(s, child)
    case ReadReport(spawned) => NextReportRead(s, spawned)
    case Finish => NextFinish(s)
    case WorkerReport(p, result) => WithStatus(s, p, Reported).(runs := s.runs + [Terminate(p, result)])
    case WorkerExit(p) => WithStatus(s, p, Exited)
    case WorkerCrash(p) => WithStatus(s, p, Crashed)
  }

  /** `t` is reached from `s` by the schedule. */
  ghost predicate Runs(P: Setup, s: State, schedule: seq<Event>, t: State)
    decreases schedule
  {
    if schedule == [] then s == t
    else Enabled(P, s, schedule[0]) && Runs(P, Next(P, s, schedule[0]), schedule[1..], t)
  }

  ghost predicate Reachable(P: Setup, t: State) {
    exists schedule :: Runs(P, INITIAL, schedule, t)
  }
}
