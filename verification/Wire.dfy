/** The messages between testers, server and workers, as printed and as scanned back. */
module Wire {
  import opened Prelude
  import opened Text

  /** To the server's report queue. */
  datatype ReportMsg = Stop | Parse(pid: int, queue: string, loc: int, word: string) | BadReport

  /** To the server's register queue. */
  datatype RegisterMsg = Register(pid: int, queue: string) | BadRegister

  /** From a worker. */
  datatype RunMsg = Terminate(pid: int, result: int) | BadRun

  /** From the server to a tester. */
  datatype TesterMsg = Answer(loc: int, result: int) | ServerExit | BadAnswer

  datatype PipeID = PipeID(readEnd: int, writeEnd: int, buffSize: int)

  const PARSE_FORMAT := [Lit("parse:"), Blank, Int, Blank, Str, Blank, Int, Blank, Rest]
  const REGISTER_FORMAT := [Lit("register_tester:"), Blank, Int, Blank, Str]
  const RUN_FORMAT := [Lit("run-terminate:"), Blank, Int, Blank, Int]
  const ANSWER_FORMAT := [Int, Blank, Lit("answer:"), Blank, Int]
  const PIPE_FORMAT := [Lit("p"), Int, Lit("@"), Int, Lit("["), Int, Lit("]")]

  function EncodeReport(m: ReportMsg): string
    requires !m.BadReport?
  {
    match m
    case Stop => "exit"
    case Parse(pid, queue, loc, word) => Print(PARSE_FORMAT, [Num(pid), Chars(queue), Num(loc), Chars(word)])
  }

  /** The word buffer is emptied before the scan, so a missing word reads as empty. */
  function DecodeReport(s: string): ReportMsg {
    if s == "exit" then Stop
    else
      var v := Scan(PARSE_FORMAT, s).values;
      if |v| >= 3 && v[0].Num? && v[1].Chars? && v[2].Num? && (|v| == 3 || v[3].Chars?) then
        Parse(v[0].n, v[1].s, v[2].n, if |v| == 3 then "" else v[3].s)
      else BadReport
  }

  function EncodeRegister(m: RegisterMsg): string
    requires m.Register?
  {
    Print(REGISTER_FORMAT, [Num(m.pid), Chars(m.queue)])
  }

  function DecodeRegister(s: string): RegisterMsg {
    var v := Scan(REGISTER_FORMAT, s).values;
    if |v| == 2 && v[0].Num? && v[1].Chars? then Register(v[0].n, v[1].s) else BadRegister
  }

  function EncodeRun(m: RunMsg): string
    requires m.Terminate?
  {
    Print(RUN_FORMAT, [Num(m.pid), Num(m.result)])
  }

  function DecodeRun(s: string): RunMsg {
    var v := Scan(RUN_FORMAT, s).values;
    if |v| == 2 && v[0].Num? && v[1].Num? then Terminate(v[0].n, v[1].n) else BadRun
  }

  function EncodeAnswer(m: TesterMsg): string
    requires !m.BadAnswer?
  {
    match m
    case ServerExit => "exit"
    case Answer(loc, result) => Print(ANSWER_FORMAT, [Num(loc), Num(result)])
  }

  /** The tester tries the answer format first and compares with `exit` only if nothing was
      converted. */
  function DecodeAnswer(s: string): TesterMsg {
    var r := Scan(ANSWER_FORMAT, s);
    if r.Code() == 2 && r.values[0].Num? && r.values[1].Num? then Answer(r.values[0].n, r.values[1].n)
    else if r.Code() == 0 && s == "exit" then ServerExit
    else BadAnswer
  }

  function EncodePipe(p: PipeID): string {
    Print(PIPE_FORMAT, [Num(p.readEnd), Num(p.writeEnd), Num(p.buffSize)])
  }

  function DecodePipe(s: string): Option<PipeID> {
    var v := Scan(PIPE_FORMAT, s).values;
    if |v| == 3 && v[0].Num? && v[1].Num? && v[2].Num? then Some(PipeID(v[0].n, v[1].n, v[2].n)) else None
  }

  /** The name of the input queue of the tester with this pid. */
  function QueueName(pid: int): (q: string)
    ensures q != []
  {
    "/FinAutomTesterInQ" + ShowInt(pid)
  }

  predicate BlankFree(s: string) {
    forall c :: c in s ==> Graphic(c)
  }

  // ----- scanning undoes printing

  lemma {:induction false} ShowNatBlankFree(n: nat)
    ensures BlankFree(ShowNat(n))
  {
    forall c | c in ShowNat(n)
      ensures Graphic(c)
    {
      var i :| 0 <= i < |ShowNat(n)| && ShowNat(n)[i] == c;
      assert IsDigit(ShowNat(n)[i]);
    }
  }

  lemma QueueNameBlankFree(pid: int)
    ensures BlankFree(QueueName(pid))
  {
    ShowNatBlankFree(if pid < 0 then -pid else pid);
  }

  lemma QueueNameInjective(p: int, q: int)
    requires QueueName(p) == QueueName(q)
    ensures p == q
  {
    var prefix := "/FinAutomTesterInQ";
    Halves(prefix, ShowInt(p));
    Halves(prefix, ShowInt(q));
    NumberOfShow(p, "");
    NumberOfShow(q, "");
    assert ShowInt(p) + "" == ShowInt(p) && ShowInt(q) + "" == ShowInt(q);
  }

  lemma RegisterRoundTrip(pid: int, queue: string)
    requires queue != [] && BlankFree(queue)
    ensures DecodeRegister(EncodeRegister(Register(pid, queue))) == Register(pid, queue)
  {
    var f, v := REGISTER_FORMAT, [Num(pid), Chars(queue)];
    assert queue[0] in queue;
    assert f[4..] == [Str] && v[1..] == [Chars(queue)];
    assert f[3..][1..] == f[4..] && WellSeparated(f[3..], v[1..]);
    assert f[2..][1..] == f[3..] && WellSeparated(f[2..], v);
    assert f[1..][1..] == f[2..] && WellSeparated(f[1..], v);
    ScanPrint(f, v);
  }

  lemma RunRoundTrip(pid: int, result: int)
    ensures DecodeRun(EncodeRun(Terminate(pid, result))) == Terminate(pid, result)
  {
    var f, v := RUN_FORMAT, [Num(pid), Num(result)];
    assert f[4..] == [Int] && v[1..] == [Num(result)];
    assert f[3..][1..] == f[4..] && WellSeparated(f[3..], v[1..]);
    assert f[2..][1..] == f[3..] && WellSeparated(f[2..], v);
    assert f[1..][1..] == f[2..] && WellSeparated(f[1..], v);
    ScanPrint(f, v);
  }

  lemma AnswerRoundTrip(loc: int, result: int)
    ensures DecodeAnswer(EncodeAnswer(Answer(loc, result))) == Answer(loc, result)
  {
    var f, v := ANSWER_FORMAT, [Num(loc), Num(result)];
    assert f[4..] == [Int] && v[1..] == [Num(result)];
    assert f[3..][1..] == f[4..] && WellSeparated(f[3..], v[1..]);
    assert f[2..][1..] == f[3..] && WellSeparated(f[2..], v[1..]);
    assert f[1..][1..] == f[2..] && WellSeparated(f[1..], v[1..]);
    ScanPrint(f, v);
  }

  /** The exit message converts nothing, so it is never taken for an answer. */
  lemma ExitRoundTrip()
    ensures DecodeAnswer(EncodeAnswer(ServerExit)) == ServerExit
    ensures DecodeReport(EncodeReport(Stop)) == Stop
  {
    assert SkipBlanks("exit") == "exit";
    assert Run("exit", IsDigit) == 0;
  }

  lemma PipeRoundTrip(p: PipeID)
    ensures DecodePipe(EncodePipe(p)) == Some(p)
  {
    var f, v := PIPE_FORMAT, [Num(p.readEnd), Num(p.writeEnd), Num(p.buffSize)];
    assert f[6..] == [Lit("]")] && v[2..] == [Num(p.buffSize)] && v[2..][1..] == [];
    assert [Lit("]")][1..] == [] && Print(f[6..], []) == "]" + "" == "]";
    assert f[5..][1..] == f[6..] && WellSeparated(f[5..], v[2..]);
    assert f[4..][1..] == f[5..] && WellSeparated(f[4..], v[2..]);
    assert f[3..][1..] == f[4..] && v[1..][1..] == v[2..] && WellSeparated(f[3..], v[1..]);
    assert f[2..][1..] == f[3..] && WellSeparated(f[2..], v[1..]);
    assert f[1..][1..] == f[2..] && WellSeparated(f[1..], v);
    ScanPrint(f, v);
  }

  /** What the server makes of a word: leading blanks are lost, and everything from the first
      N, U or L on. */
  function Transmitted(word: string): string {
    SkipBlanks(word)[..Run(SkipBlanks(word), NotNul)]
  }

  lemma ScanWord(word: string)
    ensures
      var v := Scan([Blank, Rest], " " + word).values;
      v == if Transmitted(word) == "" then [] else [Chars(Transmitted(word))]
  {
    hide SkipBlanks, Run;
    SkipSpace(word);
    assert [Blank, Rest][1..] == [Rest];
    ScanTail(SkipBlanks(word));
  }

  lemma SkipSpace(word: string)
    ensures SkipBlanks(" " + word) == SkipBlanks(word)
  {
    assert (" " + word)[1..] == word;
  }

  lemma ScanTail(s: string)
    ensures
      var n := Run(s, NotNul);
      Scan([Rest], s).values == if n == 0 then [] else [Chars(s[..n])]
  {
    hide Run;
    assert [Rest][1..] == [];
  }

  /** A space and a conversion, in front of the format `more`. */
  lemma ScanSpaced(d: Directive, more: seq<Directive>, v: Value, next: string)
    requires (d.Int? || d.Str?) && Separated(d, v, next)
    ensures Scan([Blank, d] + more, " " + (Printed(d, v) + next)) == Scan(more, next).After(v)
  {
    var format, shown := [Blank, d] + more, Printed(d, v);
    assert shown[0] in shown && !IsBlank((shown + next)[0]);
    ScanConstant(format, shown + next);
    ScanConversion(format[1..], v, next);
    assert format[1..][1..] == more;
  }

  /** The fields of a request, after its keyword. */
  lemma ScanFields(pid: int, queue: string, loc: int, word: string)
    requires queue != [] && BlankFree(queue)
    ensures Scan([Blank, Int] + ([Blank, Str] + ([Blank, Int] + [Blank, Rest])),
                 " " + (ShowInt(pid) + (" " + (queue + (" " + (ShowInt(loc) + (" " + word))))))).values
            == [Num(pid), Chars(queue), Num(loc)] + if Transmitted(word) == "" then [] else [Chars(Transmitted(word))]
  {
    hide Scan, Run, SkipBlanks;
    var f1 := [Blank, Rest];
    var f2 := [Blank, Int] + f1;
    var f3 := [Blank, Str] + f2;
    var t1 := " " + word;
    var t2 := " " + (ShowInt(loc) + t1);
    var t3 := " " + (queue + t2);
    ScanWord(word);
    ScanSpaced(Int, f1, Num(loc), t1);
    ScanSpaced(Str, f2, Chars(queue), t2);
    ScanSpaced(Int, f3, Num(pid), t3);
  }

  /** The format of a request, keyword first and field by field. */
  lemma ParseFormat()
    ensures PARSE_FORMAT == [Lit("parse:")] + ([Blank, Int] + ([Blank, Str] + ([Blank, Int] + [Blank, Rest])))
  {
  }

  lemma ScanParse(pid: int, queue: string, loc: int, word: string)
    requires queue != [] && BlankFree(queue)
    ensures Scan(PARSE_FORMAT, EncodeReport(Parse(pid, queue, loc, word))).values ==
            [Num(pid), Chars(queue), Num(loc)] + if Transmitted(word) == "" then [] else [Chars(Transmitted(word))]
  {
    var f := [Blank, Int] + ([Blank, Str] + ([Blank, Int] + [Blank, Rest]));
    var t := " " + (ShowInt(pid) + (" " + (queue + (" " + (ShowInt(loc) + (" " + word))))));
    hide Scan, Run, SkipBlanks, Print, Transmitted;
    ScanFields(pid, queue, loc, word);
    PrintParse([Num(pid), Chars(queue), Num(loc), Chars(word)]);
    ScanKeyword("parse:", f, t);
    ParseFormat();
  }

  lemma ScanKeyword(text: string, more: seq<Directive>, next: string)
    ensures Scan([Lit(text)] + more, text + next) == Scan(more, next)
  {
    ScanConstant([Lit(text)] + more, next);
    assert ([Lit(text)] + more)[1..] == more;
  }

  lemma ParseTransmits(pid: int, queue: string, loc: int, word: string)
    requires queue != [] && BlankFree(queue)
    ensures DecodeReport(EncodeReport(Parse(pid, queue, loc, word))) == Parse(pid, queue, loc, Transmitted(word))
  {
    hide Scan, Run, SkipBlanks, Print;
    ScanParse(pid, queue, loc, word);
    PrintParse([Num(pid), Chars(queue), Num(loc), Chars(word)]);
    assert EncodeReport(Parse(pid, queue, loc, word))[0] == 'p';
  }

  lemma PrintParse(v: seq<Value>)
    requires |v| == 4 && v[0].Num? && v[1].Chars? && v[2].Num? && v[3].Chars?
    ensures Print(PARSE_FORMAT, v) ==
            "parse:" + (" " + (ShowInt(v[0].n) + (" " + (v[1].s + (" " + (ShowInt(v[2].n) + (" " + v[3].s)))))))
  {
    hide Print;
    ParseFormat();
    PrintRest(v[3]);
    PrintSpaced(Int, [Blank, Rest], v[2], [v[3]]);
    PrintSpaced(Str, [Blank, Int] + [Blank, Rest], v[1], [v[2]] + [v[3]]);
    PrintSpaced(Int, [Blank, Str] + ([Blank, Int] + [Blank, Rest]), v[0], [v[1]] + ([v[2]] + [v[3]]));
    assert v == [v[0]] + ([v[1]] + ([v[2]] + [v[3]]));
    PrintKeyword("parse:", [Blank, Int] + ([Blank, Str] + ([Blank, Int] + [Blank, Rest])), v);
  }

  lemma PrintKeyword(text: string, more: seq<Directive>, v: seq<Value>)
    ensures Print([Lit(text)] + more, v) == text + Print(more, v)
  {
    assert ([Lit(text)] + more)[1..] == more;
  }

  lemma PrintSpaced(d: Directive, more: seq<Directive>, v: Value, rest: seq<Value>)
    requires d.Int? || d.Str?
    ensures Print([Blank, d] + more, [v] + rest) == " " + (Printed(d, v) + Print(more, rest))
  {
    var format := [Blank, d] + more;
    assert format[1..][1..] == more && ([v] + rest)[1..] == rest;
  }

  lemma PrintRest(v: Value)
    requires v.Chars?
    ensures Print([Blank, Rest], [v]) == " " + v.s
  {
    assert [Blank, Rest][1..] == [Rest] && [Rest][1..] == [] && [v][1..] == [];
    assert v.s + "" == v.s;
  }

  /** The text of every message. */
  lemma MessagesAsText(pid: int, queue: string, loc: int, word: string, result: int)
    ensures EncodeRegister(Register(pid, queue)) == "register_tester: " + ShowInt(pid) + " " + queue
    ensures EncodeReport(Parse(pid, queue, loc, word)) ==
            "parse: " + ShowInt(pid) + " " + queue + " " + ShowInt(loc) + " " + word
    ensures EncodeRun(Terminate(pid, result)) == "run-terminate: " + ShowInt(pid) + " " + ShowInt(result)
    ensures EncodeAnswer(Answer(loc, result)) == ShowInt(loc) + " answer: " + ShowInt(result)
    ensures EncodeAnswer(ServerExit) == EncodeReport(Stop) == "exit"
  {
    assert EncodeAnswer(ServerExit) == EncodeReport(Stop) == "exit";
    hide EncodeRegister, EncodeReport, EncodeRun, EncodeAnswer, ShowInt;
    ParseText(pid, queue, loc, word);
    RegisterText(pid, queue);
    RunText(pid, result);
    AnswerText(loc, result);
  }

  lemma ParseText(pid: int, queue: string, loc: int, word: string)
    ensures EncodeReport(Parse(pid, queue, loc, word)) ==
            "parse: " + ShowInt(pid) + " " + queue + " " + ShowInt(loc) + " " + word
  {
    hide Print, ShowInt;
    PrintParse([Num(pid), Chars(queue), Num(loc), Chars(word)]);
    assert "parse:" + " " == "parse: ";
    Joined("parse:", ShowInt(pid), queue, ShowInt(loc), word);
  }

  lemma Joined(a: string, b: string, c: string, d: string, e: string)
    ensures a + (" " + (b + (" " + (c + (" " + (d + (" " + e))))))) == a + " " + b + " " + c + " " + d + " " + e
  {
    var x := d + (" " + e);
    assert x == d + " " + e;
    var y := c + (" " + x);
    assert y == c + " " + d + " " + e;
    var z := b + (" " + y);
    assert z == b + " " + c + " " + d + " " + e;
  }

  lemma RegisterText(pid: int, queue: string)
    ensures EncodeRegister(Register(pid, queue)) == "register_tester: " + ShowInt(pid) + " " + queue
  {
    hide Print, ShowInt;
    assert REGISTER_FORMAT == [Lit("register_tester:")] + ([Blank, Int] + ([Blank, Str] + []));
    PrintNothing();
    PrintSpaced(Str, [], Chars(queue), []);
    PrintSpaced(Int, [Blank, Str] + [], Num(pid), [Chars(queue)] + []);
    assert [Num(pid), Chars(queue)] == [Num(pid)] + ([Chars(queue)] + []);
    PrintKeyword("register_tester:", [Blank, Int] + ([Blank, Str] + []), [Num(pid), Chars(queue)]);
    assert "register_tester:" + " " == "register_tester: ";
  }

  lemma RunText(pid: int, result: int)
    ensures EncodeRun(Terminate(pid, result)) == "run-terminate: " + ShowInt(pid) + " " + ShowInt(result)
  {
    hide Print, ShowInt;
    assert RUN_FORMAT == [Lit("run-terminate:")] + ([Blank, Int] + ([Blank, Int] + []));
    PrintNothing();
    PrintSpaced(Int, [], Num(result), []);
    PrintSpaced(Int, [Blank, Int] + [], Num(pid), [Num(result)] + []);
    assert [Num(pid), Num(result)] == [Num(pid)] + ([Num(result)] + []);
    PrintKeyword("run-terminate:", [Blank, Int] + ([Blank, Int] + []), [Num(pid), Num(result)]);
    assert "run-terminate:" + " " == "run-terminate: ";
  }

  lemma AnswerText(loc: int, result: int)
    ensures EncodeAnswer(Answer(loc, result)) == ShowInt(loc) + " answer: " + ShowInt(result)
  {
    hide Print, ShowInt;
    assert ANSWER_FORMAT == [Int, Blank] + ([Lit("answer:")] + ([Blank, Int] + []));
    PrintNothing();
    PrintSpaced(Int, [], Num(result), []);
    PrintKeyword("answer:", [Blank, Int] + [], [Num(result)] + []);
    assert [Num(loc), Num(result)] == [Num(loc)] + ([Num(result)] + []);
    PrintFirst([Lit("answer:")] + ([Blank, Int] + []), loc, [Num(result)] + []);
    assert " " + "answer:" + " " == " answer: ";
  }

  lemma PrintFirst(more: seq<Directive>, n: int, rest: seq<Value>)
    ensures Print([Int, Blank] + more, [Num(n)] + rest) == ShowInt(n) + (" " + Print(more, rest))
  {
    var format := [Int, Blank] + more;
    assert format[1..][1..] == more && ([Num(n)] + rest)[1..] == rest;
  }

  lemma PrintNothing()
    ensures Print([], []) == "" && forall s: string :: s + "" == s
  {
  }

  /** Only the text `exit` is read as a request to stop, or as an exit message. */
  lemma ExitIff(s: string)
    ensures DecodeReport(s) == Stop <==> s == "exit"
    ensures DecodeAnswer(s) == ServerExit <==> s == "exit"
  {
    hide Scan;
    if s == "exit" {
      ExitRoundTrip();
    }
  }

  /** A word arrives unchanged exactly when it has no leading blank and no N, U or L. */
  lemma ParseRoundTripIff(pid: int, queue: string, loc: int, word: string)
    requires queue != [] && BlankFree(queue)
    ensures DecodeReport(EncodeReport(Parse(pid, queue, loc, word))) == Parse(pid, queue, loc, word)
            <==> (word != [] ==> !IsBlank(word[0])) && forall i :: 0 <= i < |word| ==> NotNul(word[i])
  {
    ParseTransmits(pid, queue, loc, word);
    var t := SkipBlanks(word);
    assert Transmitted(word) == word ==> |t| == |word| && t == word;
    assert (word != [] ==> !IsBlank(word[0])) ==> t == word;
  }

  /** The words of the specification: lower-case letters, possibly none. */
  predicate LowerCase(word: string) {
    forall i :: 0 <= i < |word| ==> 'a' <= word[i] <= 'z'
  }

  lemma ParseRoundTrip(pid: int, queue: string, loc: int, word: string)
    requires queue != [] && BlankFree(queue) && LowerCase(word)
    ensures DecodeReport(EncodeReport(Parse(pid, queue, loc, word))) == Parse(pid, queue, loc, word)
  {
    ParseRoundTripIff(pid, queue, loc, word);
  }
}
