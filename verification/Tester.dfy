/** The tester: its loop, and the ledger of requests, answers and outstanding words. */
module Tester {
  import opened Prelude
  import opened ArrayLists
  import opened Wire

  /** `results[l]` is the word sent under local id `l` while its answer is outstanding. */
  datatype State = State(
    results: seq<Option<string>>, req: nat, ans: nat, acc: nat, loc: nat, readInput: bool, stopped: bool)

  const INITIAL := State([], 0, 0, 0, 0, true, false)

  /** A line of output: the word, and A or N. */
  datatype Line = Line(loc: int, word: string, accepted: bool)

  /** One line of input, or its end. */
  function ReadInput(s: State, pid: int, line: Option<string>): (State, seq<ReportMsg>) {
    var t := s.(loc := s.loc + 1);
    match line
    case None => (t.(readInput := false), [])
    case Some(w) =>
      if w == "!" then (t.(readInput := false), [Stop])
      else (t.(results := Written(s.results, t.loc, Some(w)), req := s.req + 1),
            [Parse(pid, QueueName(pid), t.loc, w)])
  }

  /** One message from the server. */
  function HandleMessage(s: State, msg: TesterMsg): (State, seq<Line>) {
    match msg
    case ServerExit => (s.(stopped := true), [])
    case BadAnswer => (s, [])
    case Answer(l, r) =>
      match At(s.results, l)
      case None => (s.(results := Touched(s.results, l)), [])
      case Some(w) =>
        (s.(results := Written(Touched(s.results, l), l, None),
            ans := s.ans + 1, acc := s.acc + if r != 0 then 1 else 0),
         [Line(l, w, r != 0)])
  }

  function CheckEnd(s: State): State {
    if !s.readInput && !(s.ans < s.req) then s.(stopped := true) else s
  }

  /** What one turn of the loop reads: a line of input if it still reads input, and a message
      if one is outstanding and there. */
  datatype Turn = Turn(line: Option<string>, msg: Option<TesterMsg>)

  /** The first half of a turn. */
  function TakeLine(s: State, pid: int, line: Option<string>): (State, seq<ReportMsg>) {
    if s.readInput then ReadInput(s, pid, line) else (s, [])
  }

  /** Whether the second half of a turn reads the queue at all. */
  predicate Waiting(s: State) {
    s.ans < s.req
  }

  /** The second half, with what was read, and the test for the end. */
  function TakeMail(s: State, msg: Option<TesterMsg>): (State, seq<Line>) {
    var (t, printed) := if Waiting(s) && msg.Some? then HandleMessage(s, msg.value) else (s, []);
    (if t.stopped then t else CheckEnd(t), printed)
  }

  function Step(s: State, pid: int, t: Turn): (State, seq<ReportMsg>, seq<Line>) {
    var (s1, sent) := TakeLine(s, pid, t.line);
    var (s2, printed) := TakeMail(s1, t.msg);
    (s2, sent, printed)
  }

  function RunTester(pid: int, trace: seq<Turn>): (State, seq<ReportMsg>, seq<Line>) {
    if trace == [] then (INITIAL, [], [])
    else
      var (s, sent, printed) := RunTester(pid, trace[..|trace| - 1]);
      if s.stopped then (s, sent, printed)
      else
        var (t, more, lines) := Step(s, pid, trace[|trace| - 1]);
        (t, sent + more, printed + lines)
  }

  // ----- the loop

  class Process {
    const pid: int
    const results: ArrayList<string>
    var reqCount: nat
    var ansCount: nat
    var accCount: nat
    var locId: nat
    var readInput: bool
    var stopped: bool

    ghost function Value(): State
      requires results.Valid()
      reads this, results, results.data
    {
      State(results.Contents(), reqCount, ansCount, accCount, locId, readInput, stopped)
    }

    constructor (pid: int)
      ensures results.Valid() && fresh(results) && fresh(results.data)
      ensures this.pid == pid && Value() == INITIAL
    {
      this.pid := pid;
      results := new ArrayList<string>();
      reqCount, ansCount, accCount, locId := 0, 0, 0, 0;
      readInput, stopped := true, false;
    }

    method TakeInput(line: Option<string>) returns (sent: seq<ReportMsg>)
      requires results.Valid()
      modifies this, results, results.data
      ensures results.Valid() && (results.data == old(results.data) || fresh(results.data))
      ensures (Value(), sent) == ReadInput(old(Value()), pid, line)
    {
      locId := locId + 1;
      sent := [];
      if line.Some? {
        if line.value == "!" {
          sent := [Stop];
          readInput := false;
        } else {
          var previous := results.SetValueAt(locId, line);
          sent := [Parse(pid, QueueName(pid), locId, line.value)];
          reqCount := reqCount + 1;
        }
      } else {
        readInput := false;
      }
    }

    method TakeMessage(msg: TesterMsg) returns (printed: seq<Line>)
      requires results.Valid()
      modifies this, results, results.data
      ensures results.Valid() && (results.data == old(results.data) || fresh(results.data))
      ensures (Value(), printed) == HandleMessage(old(Value()), msg)
    {
      printed := [];
      match msg {
        case Answer(l, r) =>
          var savedWord := results.GetValueAt(l);
          if savedWord.Some? {
            printed := [Line(l, savedWord.value, r != 0)];
            if r != 0 {
              accCount := accCount + 1;
            }
            ansCount := ansCount + 1;
            var previous := results.SetValueAt(l, None);
          }
        case ServerExit => stopped := true;
        case BadAnswer =>
      }
    }

    method Loop(trace: seq<Turn>) returns (sent: seq<ReportMsg>, printed: seq<Line>)
      requires results.Valid() && Value() == INITIAL
      modifies this, results, results.data
      ensures results.Valid() && (Value(), sent, printed) == RunTester(pid, trace)
    {
      hide ReadInput, HandleMessage;
      sent, printed := [], [];
      var turn := 0;
      while turn < |trace| && !stopped
        invariant 0 <= turn <= |trace|
        invariant results.Valid() && (results.data == old(results.data) || fresh(results.data))
        invariant (Value(), sent, printed) == RunTester(pid, trace[..turn])
      {
        var t := trace[turn];
        assert trace[..turn + 1][..turn] == trace[..turn];
        var more: seq<ReportMsg> := [];
        if readInput {
          more := TakeInput(t.line);
        }
        var lines: seq<Line> := [];
        if ansCount < reqCount && t.msg.Some? {
          lines := TakeMessage(t.msg.value);
        }
        if !stopped && !readInput && !(ansCount < reqCount) {
          stopped := true;
        }
        sent := sent + more;
        printed := printed + lines;
        turn := turn + 1;
      }
      AfterStop(pid, trace, turn);
    }
  }

  lemma {:induction false} AfterStop(pid: int, trace: seq<Turn>, turn: nat)
    requires turn <= |trace| && (turn == |trace| || RunTester(pid, trace[..turn]).0.stopped)
    ensures RunTester(pid, trace) == RunTester(pid, trace[..turn])
  {
    if turn == |trace| {
      assert trace[..turn] == trace;
    } else {
      var shorter := trace[..|trace| - 1];
      assert shorter[..turn] == trace[..turn];
      AfterStop(pid, shorter, turn);
    }
  }

  // ----- the ledger

  /** The number of words whose answer is outstanding. */
  function Outstanding(s: seq<Option<string>>): nat {
    if s == [] then 0 else Outstanding(s[..|s| - 1]) + if s[|s| - 1].Some? then 1 else 0
  }

  lemma {:induction false} OutstandingUpdate(s: seq<Option<string>>, i: nat, v: Option<string>)
    requires i < |s|
    ensures Outstanding(s[i := v]) ==
            Outstanding(s) - (if s[i].Some? then 1 else 0) + (if v.Some? then 1 else 0)
  {
    var n := |s| - 1;
    if i == n {
      assert s[i := v][..n] == s[..n];
    } else {
      OutstandingUpdate(s[..n], i, v);
      assert s[i := v][..n] == s[..n][i := v];
    }
  }

  lemma {:induction false} OutstandingNulls(s: seq<Option<string>>, n: nat)
    ensures Outstanding(s + Nulls(n)) == Outstanding(s)
  {
    if n == 0 {
      assert s + Nulls<string>(0) == s;
    } else {
      OutstandingNulls(s, n - 1);
      assert (s + Nulls<string>(n))[..|s| + n - 1] == s + Nulls<string>(n - 1);
    }
  }

  lemma OutstandingTouched(s: seq<Option<string>>, position: int)
    ensures Outstanding(Touched(s, position)) == Outstanding(s)
  {
    if !(0 <= position < |s| || position + GET_MARGIN <= |s|) {
      OutstandingNulls(s, position + GET_MARGIN - |s|);
    }
  }

  /** Requests sent are answers counted plus words outstanding, accepted answers are answers,
      and no local id beyond the last one handed out is in use. */
  predicate Balanced(s: State) {
    && s.req == s.ans + Outstanding(s.results)
    && s.acc <= s.ans
    && forall l :: s.loc < l < |s.results| ==> s.results[l] == None
  }

  lemma InputKeeps(s: State, pid: int, line: Option<string>)
    requires Balanced(s)
    ensures Balanced(ReadInput(s, pid, line).0)
  {
    var l := s.loc + 1;
    OutstandingTouched(s.results, l);
    var r := Touched(s.results, l);
    if line.Some? && line.value != "!" {
      OutstandingUpdate(r, l, line);
    }
  }

  lemma MessageKeeps(s: State, msg: TesterMsg)
    requires Balanced(s)
    ensures Balanced(HandleMessage(s, msg).0)
    ensures HandleMessage(s, msg).0.req == s.req
  {
    if msg.Answer? {
      OutstandingTouched(s.results, msg.loc);
      if At(s.results, msg.loc).Some? {
        OutstandingUpdate(s.results, msg.loc, None);
      }
    }
  }

  /** Some turn of the trace reads an exit message. */
  predicate ExitRead(pid: int, trace: seq<Turn>) {
    trace != [] &&
    var shorter, t := trace[..|trace| - 1], trace[|trace| - 1];
    var s := RunTester(pid, shorter).0;
    || ExitRead(pid, shorter)
    || (!s.stopped && Waiting(TakeLine(s, pid, t.line).0) && t.msg == Some(ServerExit))
  }

  /** The ledger over every stream of input and server messages, unknown, repeated and negative
      local ids included. The loop is left exactly when an exit message was read, or the input is
      finished and nothing is outstanding. */
  lemma {:induction false} TesterLedger(pid: int, trace: seq<Turn>)
    ensures
      var s := RunTester(pid, trace).0;
      && Balanced(s)
      && (s.stopped <==> ExitRead(pid, trace) || (!s.readInput && Outstanding(s.results) == 0))
  {
    hide TakeLine, TakeMail, Balanced, Outstanding;
    if trace != [] {
      var n := |trace| - 1;
      TesterLedger(pid, trace[..n]);
      var s := RunTester(pid, trace[..n]).0;
      if !s.stopped {
        StepKeeps(s, pid, trace[n]);
      }
    } else {
      Initially();
    }
  }

  lemma Initially()
    ensures Balanced(INITIAL)
  {
  }

  lemma StepKeeps(s: State, pid: int, t: Turn)
    requires Balanced(s) && !s.stopped
    ensures
      var u, r := TakeLine(s, pid, t.line).0, Step(s, pid, t).0;
      && Balanced(r)
      && (r.stopped <==> (Waiting(u) && t.msg == Some(ServerExit)) || (!r.readInput && Outstanding(r.results) == 0))
  {
    hide Outstanding;
    InputKeeps(s, pid, t.line);
    var u := TakeLine(s, pid, t.line).0;
    if t.msg.Some? {
      MessageKeeps(u, t.msg.value);
    }
  }

  // ----- what is sent and printed

  /** The requests among the messages sent. */
  function Requests(sent: seq<ReportMsg>): nat {
    if sent == [] then 0 else Requests(sent[..|sent| - 1]) + if sent[|sent| - 1].Parse? then 1 else 0
  }

  /** The lines that say A. */
  function AcceptedLines(printed: seq<Line>): nat {
    if printed == [] then 0
    else AcceptedLines(printed[..|printed| - 1]) + if printed[|printed| - 1].accepted then 1 else 0
  }

  /** What the `i`-th line of input makes the tester send. */
  function Sending(pid: int, i: nat, word: string): ReportMsg {
    if word == "!" then Stop else Parse(pid, QueueName(pid), i + 1, word)
  }

  /** Each turn sends its line of input, until the input ends. */
  ghost predicate SentOk(pid: int, trace: seq<Turn>, s: State, sent: seq<ReportMsg>) {
    && |sent| <= |trace| && Requests(sent) == s.req
    && (forall i :: 0 <= i < |sent| ==> trace[i].line.Some? && sent[i] == Sending(pid, i, trace[i].line.value))
    && (s.readInput ==> s.loc == |sent| && (forall i :: 0 <= i < |sent| ==> sent[i].Parse?))
    && (s.readInput && !s.stopped ==> |sent| == |trace|)
    && (!s.readInput ==>
          (|sent| > 0 && sent[|sent| - 1] == Stop) || (|sent| < |trace| && trace[|sent|].line == None))
  }

  lemma RequestsPush(sent: seq<ReportMsg>, m: ReportMsg)
    ensures Requests(sent + [m]) == Requests(sent) + if m.Parse? then 1 else 0
  {
    assert (sent + [m])[..|sent|] == sent;
  }

  lemma AcceptedPush(printed: seq<Line>, l: Line)
    ensures AcceptedLines(printed + [l]) == AcceptedLines(printed) + if l.accepted then 1 else 0
  {
    assert (printed + [l])[..|printed|] == printed;
  }

  lemma MailOnly(s: State, msg: Option<TesterMsg>)
    ensures
      var t := TakeMail(s, msg).0;
      t == s.(results := t.results, ans := t.ans, acc := t.acc, stopped := t.stopped)
  {
  }

  lemma QuietTurn(pid: int, trace: seq<Turn>, t: Turn, s: State, sent: seq<ReportMsg>)
    requires SentOk(pid, trace, s, sent) && (s.stopped || !s.readInput)
    ensures SentOk(pid, trace + [t], s, sent)
  {
    hide Requests, Sending;
    assert forall i :: 0 <= i < |trace| ==> (trace + [t])[i] == trace[i];
  }

  lemma LineSent(pid: int, trace: seq<Turn>, t: Turn, s: State, sent: seq<ReportMsg>)
    requires SentOk(pid, trace, s, sent) && !s.stopped && s.readInput
    ensures
      var (u, more) := TakeLine(s, pid, t.line);
      SentOk(pid, trace + [t], u, sent + more)
  {
    hide Requests, QueueName;
    var (u, more) := TakeLine(s, pid, t.line);
    assert forall i :: 0 <= i < |trace| ==> (trace + [t])[i] == trace[i];
    if t.line == None {
      assert sent + more == sent;
    } else {
      assert more == [Sending(pid, |sent|, t.line.value)];
      RequestsPush(sent, more[0]);
    }
  }

  lemma MailSent(pid: int, trace: seq<Turn>, s: State, sent: seq<ReportMsg>, msg: Option<TesterMsg>)
    requires SentOk(pid, trace, s, sent) && !s.stopped
    ensures SentOk(pid, trace, TakeMail(s, msg).0, sent)
  {
    hide Requests, Sending, TakeMail;
    MailOnly(s, msg);
  }

  /** What is sent is the input: one message for each line, in order, a request under the line's
      number or a request to stop, up to the end of the input; and the requests are counted. */
  lemma {:induction false} SentIsInput(pid: int, trace: seq<Turn>)
    ensures SentOk(pid, trace, RunTester(pid, trace).0, RunTester(pid, trace).1)
  {
    hide TakeLine, TakeMail, SentOk;
    if trace == [] {
      NothingSent(pid);
    } else {
      var shorter, t := trace[..|trace| - 1], trace[|trace| - 1];
      SentIsInput(pid, shorter);
      var (s, sent, printed) := RunTester(pid, shorter);
      assert shorter + [t] == trace;
      if s.stopped {
        QuietTurn(pid, shorter, t, s, sent);
      } else {
        var (u, more) := TakeLine(s, pid, t.line);
        if s.readInput {
          LineSent(pid, shorter, t, s, sent);
        } else {
          QuietTurn(pid, shorter, t, s, sent);
          NoInput(s, pid, t.line);
          assert sent + [] == sent;
        }
        LineStops(s, pid, t.line);
        MailSent(pid, trace, u, sent + more, t.msg);
      }
    }
  }

  lemma NothingSent(pid: int)
    ensures SentOk(pid, [], INITIAL, [])
  {
  }

  lemma NoInput(s: State, pid: int, line: Option<string>)
    requires !s.readInput
    ensures TakeLine(s, pid, line) == (s, [])
  {
  }

  lemma LineStops(s: State, pid: int, line: Option<string>)
    ensures TakeLine(s, pid, line).0.stopped == s.stopped
  {
  }

  /** A line of output is for a request sent, and the table holds the requests without one. */
  ghost predicate PrintedOk(pid: int, s: State, sent: seq<ReportMsg>, printed: seq<Line>) {
    && |printed| == s.ans && AcceptedLines(printed) == s.acc
    && (forall m :: m in sent && m.Parse? ==> m.loc <= s.loc)
    && (forall k :: 0 <= k < |printed| ==> Parse(pid, QueueName(pid), printed[k].loc, printed[k].word) in sent)
    && (forall j, k :: 0 <= j < k < |printed| ==> printed[j].loc != printed[k].loc)
    && (forall l :: At(s.results, l).Some? ==>
          Parse(pid, QueueName(pid), l, At(s.results, l).value) in sent
          && forall k :: 0 <= k < |printed| ==> printed[k].loc != l)
  }

  /** The turns `read` are in order, and each read the answer that the line says. */
  predicate InOrder(trace: seq<Turn>, printed: seq<Line>, read: seq<nat>) {
    && |read| == |printed|
    && (forall j, k :: 0 <= j < k < |read| ==> read[j] < read[k])
    && (forall k :: 0 <= k < |read| ==>
          && read[k] < |trace| && trace[read[k]].msg.Some? && trace[read[k]].msg.value.Answer?
          && trace[read[k]].msg.value.loc == printed[k].loc
          && (printed[k].accepted <==> trace[read[k]].msg.value.result != 0))
  }

  lemma LinePrinted(pid: int, s: State, sent: seq<ReportMsg>, printed: seq<Line>, line: Option<string>)
    requires PrintedOk(pid, s, sent, printed)
    ensures
      var (u, more) := TakeLine(s, pid, line);
      PrintedOk(pid, u, sent + more, printed)
  {
    hide QueueName, AcceptedLines;
    var (u, more) := TakeLine(s, pid, line);
    var q := QueueName(pid);
    forall k | 0 <= k < |printed|
      ensures Parse(pid, q, printed[k].loc, printed[k].word) in sent + more && printed[k].loc <= s.loc
    {
      assert Parse(pid, q, printed[k].loc, printed[k].word) in sent;
    }
    if more != [] && more[0].Parse? {
      assert more[0] in sent + more;
      forall l | At(u.results, l).Some?
        ensures l == u.loc || At(s.results, l) == At(u.results, l)
      {
      }
    }
  }

  lemma MailPrinted(pid: int, s: State, sent: seq<ReportMsg>, printed: seq<Line>, msg: Option<TesterMsg>)
    requires PrintedOk(pid, s, sent, printed)
    ensures
      var (u, lines) := TakeMail(s, msg);
      PrintedOk(pid, u, sent, printed + lines)
    ensures
      var lines := TakeMail(s, msg).1;
      lines == [] ||
      (|lines| == 1 && msg.Some? && msg.value.Answer? && lines[0].loc == msg.value.loc
       && (lines[0].accepted <==> msg.value.result != 0))
  {
    hide QueueName, AcceptedLines;
    var (u, lines) := TakeMail(s, msg);
    assert printed + [] == printed;
    if lines != [] {
      AcceptedPush(printed, lines[0]);
      assert lines == [lines[0]];
      forall l | At(u.results, l).Some?
        ensures l != lines[0].loc && At(s.results, l) == At(u.results, l)
      {
      }
    } else {
      forall l | At(u.results, l).Some?
        ensures At(s.results, l) == At(u.results, l)
      {
      }
    }
  }

  /** What is printed, over every stream: one line for each answer counted, and A for each accepted;
      each line for a word sent under its local id, no local id twice; and the lines in the order in
      which the answers were read, each with the verdict read. */
  lemma {:induction false} LinesPrinted(pid: int, trace: seq<Turn>) returns (read: seq<nat>)
    ensures
      var (s, sent, printed) := RunTester(pid, trace);
      PrintedOk(pid, s, sent, printed) && InOrder(trace, printed, read)
  {
    hide TakeLine, TakeMail, QueueName, PrintedOk;
    if trace == [] {
      read := [];
      NothingPrinted(pid);
    } else {
      var shorter, t := trace[..|trace| - 1], trace[|trace| - 1];
      read := LinesPrinted(pid, shorter);
      var (s, sent, printed) := RunTester(pid, shorter);
      if !s.stopped {
        var (u, more) := TakeLine(s, pid, t.line);
        LinePrinted(pid, s, sent, printed, t.line);
        MailPrinted(pid, u, sent + more, printed, t.msg);
        if TakeMail(u, t.msg).1 != [] {
          read := read + [|shorter|];
        } else {
          assert printed + [] == printed;
        }
      }
    }
  }

  lemma NothingPrinted(pid: int)
    ensures PrintedOk(pid, INITIAL, [], [])
  {
  }
}
