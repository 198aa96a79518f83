/** Loading a transition graph from its description. */
module Loader {
  import opened Prelude
  import opened Automata
  import opened Text
  import opened Lines
  import opened Graph

  /** A transition line: the targets of one state on one letter. */
  datatype Transition = Transition(q: int, a: int, targets: seq<int>)

  /** An automaton as its description gives it. */
  datatype Description = Description(
    n: int, alphabet: int, states: int, universal: int,
    initial: int, finals: seq<int>, transitions: seq<Transition>)

  /** Numbers separated by single spaces. */
  function ShowNumbers(ns: seq<int>): (s: string)
    ensures ns == [] <==> s == []
    ensures ns != [] ==> !IsBlank(s[0])
  {
    if ns == [] then ""
    else if |ns| == 1 then ShowInt(ns[0])
    else ShowInt(ns[0]) + " " + ShowNumbers(ns[1..])
  }

  const LETTERS := "abcdefghijklmnopqrstuvwxyz"

  function ShowLetter(a: int): char {
    if 0 <= a < 26 then LETTERS[a] else '?'
  }

  /** What follows a token: a space and more numbers, or nothing. */
  function Tail(ns: seq<int>): string {
    if ns == [] then "" else " " + ShowNumbers(ns)
  }

  function ShowTransition(t: Transition): string {
    ShowInt(t.q) + " " + [ShowLetter(t.a)] + Tail(t.targets)
  }

  /** What may stand in a transition line: a state, a letter, and states. The grammar asks for at
      least one target, the loader does not. */
  predicate TransitionOk(t: Transition) {
    && IsState(t.q) && 0 <= t.a < 26
    && (forall p :: p in t.targets ==> IsState(p))
    && |ShowTransition(t)| <= LINE_BUFFER - 2
  }

  function ShowTransitions(ts: seq<Transition>): seq<string> {
    if ts == [] then [] else [ShowTransition(ts[0])] + ShowTransitions(ts[1..])
  }

  /** The first line without targets, if there is one. */
  function FirstBare(ts: seq<Transition>): (n: nat)
    ensures n <= |ts| && (n < |ts| ==> ts[n].targets == [])
    ensures forall i :: 0 <= i < n ==> ts[i].targets != []
  {
    if ts == [] || ts[0].targets == [] then 0 else 1 + FirstBare(ts[1..])
  }

  /** No line with targets comes after one without. */
  predicate NothingMissed(ts: seq<Transition>) {
    forall i :: FirstBare(ts) <= i < |ts| ==> ts[i].targets == []
  }

  /** The part of a description that the loader reads. */
  function Read(d: Description): Description {
    d.(transitions := d.transitions[..FirstBare(d.transitions)])
  }

  function Header(d: Description): seq<int> {
    [d.n, d.alphabet, d.states, d.universal, |d.finals|]
  }

  /** All targets listed for `q` and `a`, in file order. */
  function Listed(ts: seq<Transition>, q: int, a: int): seq<int> {
    if ts == [] then []
    else
      var before := Listed(ts[..|ts| - 1], q, a);
      var t := ts[|ts| - 1];
      if t.q == q && t.a == a then before + t.targets else before
  }

  ghost predicate DescriptionOk(d: Description) {
    && IsState(d.initial)
    && (forall q :: q in d.finals ==> IsState(q))
    && |ShowNumbers(Header(d))| <= LINE_BUFFER - 2
    && |ShowNumbers(d.finals)| <= LINE_BUFFER - 2
    && |ShowInt(d.initial)| <= LINE_BUFFER - 2
    && (forall t :: t in d.transitions ==> TransitionOk(t))
    && (forall q, a :: |Listed(d.transitions, q, a)| <= MAX_Q)
  }

  /** The text of a description, in the grammar of the specification. */
  ghost function Show(d: Description): string
    requires DescriptionOk(d)
  {
    JoinLines([ShowNumbers(Header(d)), ShowInt(d.initial), ShowNumbers(d.finals)] + ShowTransitions(d.transitions))
  }

  // ----- scanning the lines of a description

  lemma NumbersUnfold(ns: seq<int>)
    requires ns != []
    ensures ShowNumbers(ns) == ShowInt(ns[0]) + Tail(ns[1..])
  {
    if |ns| == 1 {
      assert ShowInt(ns[0]) + "" == ShowInt(ns[0]);
    } else {
      assert ShowInt(ns[0]) + " " + ShowNumbers(ns[1..]) == ShowInt(ns[0]) + (" " + ShowNumbers(ns[1..]));
    }
  }

  /** Scanning one number takes it and leaves the tail. */
  lemma ScanNext(format: seq<Directive>, ns: seq<int>)
    requires ns != [] && format != [] && format[0].Int?
    ensures Scan(format, ShowNumbers(ns)) == Scan(format[1..], Tail(ns[1..])).After(Num(ns[0]))
    ensures Scan(format, Tail(ns)) == Scan(format[1..], Tail(ns[1..])).After(Num(ns[0]))
  {
    NumbersUnfold(ns);
    ScanConversion(format, Num(ns[0]), Tail(ns[1..]));
    assert SkipBlanks(Tail(ns)) == SkipBlanks(ShowNumbers(ns)) by {
      assert Tail(ns)[1..] == ShowNumbers(ns);
    }
  }

  /** %d %d ... %d */
  function Ints(n: nat): seq<Directive> {
    if n == 0 then [] else if n == 1 then [Int] else [Int, Blank] + Ints(n - 1)
  }

  function Nums(ns: seq<int>): seq<Value> {
    if ns == [] then [] else [Num(ns[0])] + Nums(ns[1..])
  }

  lemma {:induction false} ScanNumbers(ns: seq<int>)
    requires ns != []
    ensures Scan(Ints(|ns|), ShowNumbers(ns)).values == Nums(ns)
  {
    hide Scan, ShowNumbers;
    var format := Ints(|ns|);
    ScanNext(format, ns);
    if |ns| == 1 {
      assert format[1..] == [] && ns[1..] == [];
      ScanNothing(Tail(ns[1..]));
    } else {
      assert format[1..] == [Blank] + Ints(|ns| - 1) && format[1..][1..] == Ints(|ns| - 1);
      ScanConstant(format[1..], ShowNumbers(ns[1..]));
      ScanNumbers(ns[1..]);
    }
  }

  lemma ScanNothing(s: string)
    ensures Scan([], s) == Scanned([], false, s)
  {
  }

  const EDGE_FORMAT := [Int, Blank, OneChar]

  lemma LetterFacts(a: int)
    requires 0 <= a < 26
    ensures Letter(ShowLetter(a)) == a && !IsBlank(ShowLetter(a))
  {
  }

  lemma ScanEdge(t: Transition)
    requires TransitionOk(t)
    ensures Scan(EDGE_FORMAT, ShowTransition(t)) ==
            Scanned([Num(t.q), Chars([ShowLetter(t.a)])], false, Tail(t.targets))
  {
    hide Scan, ShowNumbers, ShowInt, ShowLetter, IsBlank;
    var c, tail := [ShowLetter(t.a)], Tail(t.targets);
    LetterFacts(t.a);
    assert ShowTransition(t) == ShowInt(t.q) + (" " + (c + tail));
    ScanConversion(EDGE_FORMAT, Num(t.q), " " + (c + tail));
    assert EDGE_FORMAT[1..] == [Blank, OneChar] && [Blank, OneChar][1..] == [OneChar];
    ScanConstant([Blank, OneChar], c + tail);
    ScanConversion([OneChar], Chars(c), tail);
    ScanNothing(tail);
    assert [OneChar][1..] == [];
  }

  // ----- the characters of a description

  predicate Plain(s: string) {
    forall c :: c in s ==> c != '\n' && c != '\0'
  }

  lemma PlainInt(n: int)
    ensures Plain(ShowInt(n))
  {
    var digits := ShowNat(if n < 0 then -n else n);
    forall c | c in digits
      ensures c != '\n' && c != '\0'
    {
      var i :| 0 <= i < |digits| && digits[i] == c;
      assert IsDigit(digits[i]);
    }
  }

  lemma {:induction false} PlainNumbers(ns: seq<int>)
    ensures Plain(ShowNumbers(ns))
  {
    if ns != [] {
      PlainInt(ns[0]);
      PlainNumbers(ns[1..]);
    }
  }

  lemma PlainTransition(t: Transition)
    ensures Plain(ShowTransition(t))
  {
    PlainInt(t.q);
    PlainNumbers(t.targets);
  }

  lemma {:induction false} JoinPlain(lines: seq<string>)
    requires forall l :: l in lines ==> Plain(l)
    ensures NoTerminator(JoinLines(lines))
  {
    if lines != [] {
      assert lines[0] in lines;
      JoinPlain(lines[1..]);
      forall i | 0 <= i < |JoinLines(lines)|
        ensures JoinLines(lines)[i] != '\0'
      {
        if i < |lines[0]| {
          assert JoinLines(lines)[i] == lines[0][i] && lines[0][i] in lines[0];
        }
      }
    }
  }

  /** Where the text continues with the lines `ls`, the next read returns the first of them. */
  lemma NextLine(text: string, pos: nat, ls: seq<string>)
    requires pos <= |text| && text[pos..] == JoinLines(ls) && ls != [] && Plain(ls[0])
    ensures pos < |text| && LineLength(text, pos) == |ls[0]|
    ensures text[pos..pos + |ls[0]|] == ls[0]
    ensures text[NextStart(text, pos)..] == JoinLines(ls[1..])
  {
    var rest := text[pos..];
    assert rest == ls[0] + "\n" + JoinLines(ls[1..]);
    hide JoinLines;
    FirstLine(ls[0], JoinLines(ls[1..]));
    assert rest[0..] == rest;
    assert LineLength(rest, 0) == LineLength(text, pos);
    assert text[pos..pos + |ls[0]|] == rest[..|ls[0]|];
    assert text[pos + |ls[0]| + 1..] == rest[|ls[0]| + 1..];
  }

  // ----- the loader

  /** The row of `q` and `a` as stored. */
  ghost function Stored(g: TransitionGraph, q: nat, a: nat): seq<int>
    requires g.Shaped() && q < MAX_Q && a < MAX_A && 0 <= g.size[q, a] <= MAX_Q
    reads g.graph, g.size
  {
    g.Row(q, a, g.size[q, a])
  }

  /** Every row is what `expected` says, and all stored indices are states. */
  ghost predicate RowsAre(g: TransitionGraph, expected: (int, int) -> seq<int>)
    reads g.graph, g.size
  {
    && g.Shaped()
    && (forall q, a :: 0 <= q < MAX_Q && 0 <= a < MAX_A ==>
          0 <= g.size[q, a] <= MAX_Q && Stored(g, q, a) == expected(q, a))
    && (forall q, a, i :: 0 <= q < MAX_Q && 0 <= a < MAX_A && 0 <= i < g.size[q, a] ==> IsState(g.graph[q, a, i]))
  }

  /** The rows of a list of transitions. */
  ghost function Rows(ts: seq<Transition>): (int, int) -> seq<int> {
    (q: int, a: int) => Listed(ts, q, a)
  }

  /** The rows after the first `i` transitions and the first `k` targets of the next. */
  ghost function Loaded(ts: seq<Transition>, i: nat, k: nat): (int, int) -> seq<int>
    requires i <= |ts| && (if i < |ts| then k <= |ts[i].targets| else k == 0)
  {
    (q: int, a: int) =>
      Listed(ts[..i], q, a) + if i < |ts| && ts[i].q == q && ts[i].a == a then ts[i].targets[..k] else []
  }

  lemma {:induction false} ListedGrows(ts: seq<Transition>, i: nat, q: int, a: int)
    requires i <= |ts|
    ensures |Listed(ts[..i], q, a)| <= |Listed(ts, q, a)|
    decreases |ts| - i
  {
    if i == |ts| {
      assert ts[..i] == ts;
    } else {
      assert ts[..i + 1][..i] == ts[..i];
      ListedGrows(ts, i + 1, q, a);
    }
  }

  /** graph[q][a][size[q][a]++] = r */
  method StoreTarget(g: TransitionGraph, q: nat, a: nat, r: int, ghost before: (int, int) -> seq<int>)
    requires RowsAre(g, before) && q < MAX_Q && a < MAX_A && IsState(r)
    requires |before(q, a)| < MAX_Q
    modifies g.graph, g.size
    ensures RowsAre(g, (p: int, b: int) => if p == q && b == a then before(p, b) + [r] else before(p, b))
  {
    assert Stored(g, q, a) == before(q, a);
    g.graph[q, a, g.size[q, a]] := r;
    g.size[q, a] := g.size[q, a] + 1;
    forall p, b | 0 <= p < MAX_Q && 0 <= b < MAX_A
      ensures Stored(g, p, b) == if p == q && b == a then before(p, b) + [r] else before(p, b)
    {
      assert old(Stored(g, p, b)) == before(p, b);
    }
  }

  lemma ScanOne(ns: seq<int>)
    requires ns != []
    ensures Scan([Int], ShowNumbers(ns)) == Scanned([Num(ns[0])], false, Tail(ns[1..]))
    ensures Scan([Int], Tail(ns)) == Scanned([Num(ns[0])], false, Tail(ns[1..]))
  {
    hide Scan, ShowNumbers;
    ScanNext([Int], ns);
    ScanNothing(Tail(ns[1..]));
    assert [Int][1..] == [];
  }

  /** Dropping the next number of a line from position `pos`. */
  lemma DropNumber(line: string, pos: nat, ns: seq<int>)
    requires pos <= |line| && ns != [] && (line[pos..] == Tail(ns) || line[pos..] == ShowNumbers(ns))
    ensures
      var rest := Tail(ns[1..]);
      |rest| < |line[pos..]| && line[pos + (|line[pos..]| - |rest|)..] == rest
  {
    hide ShowNumbers, ShowInt;
    NumbersUnfold(ns);
    var rest := Tail(ns[1..]);
    if line[pos..] == ShowNumbers(ns) {
      DropLead(line, pos, ShowInt(ns[0]), rest);
    } else {
      assert Tail(ns) == (" " + ShowInt(ns[0])) + rest;
      DropLead(line, pos, " " + ShowInt(ns[0]), rest);
    }
  }

  /** Scanning the next number of a line from position `pos`. */
  lemma NextNumber(line: string, pos: nat, ns: seq<int>)
    requires pos <= |line| && ns != [] && (line[pos..] == Tail(ns) || line[pos..] == ShowNumbers(ns))
    ensures
      var r := Scan([Int], line[pos..]);
      && r.values == [Num(ns[0])] && r.Code() == 1
      && |r.rest| < |line[pos..]| && line[pos + (|line[pos..]| - |r.rest|)..] == Tail(ns[1..])
  {
    hide Scan, ShowNumbers, ShowInt, Tail;
    ScanOne(ns);
    DropNumber(line, pos, ns);
  }

  lemma DropLead(line: string, pos: nat, lead: string, rest: string)
    requires pos <= |line| && line[pos..] == lead + rest && lead != []
    ensures |rest| < |line[pos..]| && line[pos + (|line[pos..]| - |rest|)..] == rest
  {
    assert line[pos + |lead|..] == line[pos..][|lead|..];
  }

  lemma TailEmpty(ns: seq<int>)
    ensures Tail(ns) == "" <==> ns == []
  {
  }

  /** The loop over the final states of the third line. */
  method LoadFinals(g: TransitionGraph, line: string, ghost finals: seq<int>)
    requires g.Shaped() && line == ShowNumbers(finals) && g.F == |finals|
    requires forall q :: q in finals ==> IsState(q)
    requires forall q :: 0 <= q < MAX_Q ==> g.acceptingStates[q] == 0
    modifies g.acceptingStates
    ensures forall q :: 0 <= q < MAX_Q ==> g.acceptingStates[q] == if q in finals then 1 else 0
  {
    hide Scan, ShowNumbers, Tail;
    var pos := 0;
    for i := 0 to g.F
      invariant 0 <= pos <= |line|
      invariant line[pos..] == if i == 0 then ShowNumbers(finals) else Tail(finals[i..])
      invariant forall q :: 0 <= q < MAX_Q ==> g.acceptingStates[q] == if q in finals[..i] then 1 else 0
    {
      var t := Scan([Int], line[pos..]);
      assert finals[i..][1..] == finals[i + 1..] && finals[0..] == finals;
      NextNumber(line, pos, finals[i..]);
      var npos := |line[pos..]| - |t.rest|;
      assert finals[i] in finals;
      g.acceptingStates[t.values[0].n] := 1;
      pos := pos + npos;
      assert finals[..i + 1] == finals[..i] + [finals[i]];
    }
    assert finals[..|finals|] == finals;
  }

  lemma RowsChange(g: TransitionGraph, e: (int, int) -> seq<int>, f: (int, int) -> seq<int>)
    requires RowsAre(g, e) && forall q, a :: e(q, a) == f(q, a)
    ensures RowsAre(g, f)
  {
  }

  /** One more target, or one more finished transition. */
  lemma LoadedStep(ts: seq<Transition>, i: nat, k: nat)
    requires i < |ts| && k < |ts[i].targets|
    ensures forall p, b :: Loaded(ts, i, k + 1)(p, b) ==
                           Loaded(ts, i, k)(p, b) + if p == ts[i].q && b == ts[i].a then [ts[i].targets[k]] else []
    ensures forall p, b :: Loaded(ts, i + 1, 0)(p, b) == Loaded(ts, i, |ts[i].targets|)(p, b)
  {
    assert ts[i].targets[..k + 1] == ts[i].targets[..k] + [ts[i].targets[k]];
    assert ts[i].targets[..|ts[i].targets|] == ts[i].targets;
    assert ts[..i + 1][..i] == ts[..i];
  }

  lemma RoomForTarget(ts: seq<Transition>, i: nat, k: nat)
    requires i < |ts| && k < |ts[i].targets| && |Listed(ts, ts[i].q, ts[i].a)| <= MAX_Q
    ensures |Loaded(ts, i, k)(ts[i].q, ts[i].a)| < MAX_Q
  {
    assert ts[..i + 1][..i] == ts[..i];
    ListedGrows(ts, i + 1, ts[i].q, ts[i].a);
  }

  /** The inner loop over the targets of a transition line, from position `start`. */
  method LoadTargets(
    g: TransitionGraph, q: nat, a: nat, line: string, start: nat, ghost ts: seq<Transition>, ghost i: nat)
    requires i < |ts| && TransitionOk(ts[i]) && q == ts[i].q && a == ts[i].a && ts[i].targets != []
    requires start <= |line| && line[start..] == Tail(ts[i].targets)
    requires RowsAre(g, Loaded(ts, i, 0))
    requires |Listed(ts, q, a)| <= MAX_Q
    modifies g.graph, g.size
    ensures RowsAre(g, Loaded(ts, i + 1, 0))
  {
    hide Scan, RowsAre, Loaded, Listed, Tail, ShowTransition;
    ghost var t, k := ts[i], 0;
    var pos := start;
    assert t.targets[0..] == t.targets;
    while true
      invariant 0 <= k < |t.targets| && 0 <= pos <= |line|
      invariant line[pos..] == Tail(t.targets[k..])
      invariant RowsAre(g, Loaded(ts, i, k))
      decreases |line| - pos
    {
      NextNumber(line, pos, t.targets[k..]);
      TailEmpty(t.targets[k + 1..]);
      var r := Scan([Int], line[pos..]);
      if r.Code() == 0 {
        break;
      }
      var npos := |line[pos..]| - |r.rest|;
      pos := pos + npos;
      assert t.targets[k] in t.targets && t.targets[k..][1..] == t.targets[k + 1..];
      RoomForTarget(ts, i, k);
      LoadedStep(ts, i, k);
      ghost var now := Loaded(ts, i, k);
      StoreTarget(g, q, a, r.values[0].n, now);
      k := k + 1;
      RowsChange(g, (p, b) => if p == q && b == a then now(p, b) + [t.targets[k - 1]] else now(p, b), Loaded(ts, i, k));
      if pos == |line| {
        break;
      }
    }
    RowsChange(g, Loaded(ts, i, k), Loaded(ts, i + 1, 0));
  }

  /** The automaton a description stands for. */
  ghost function Meaning(d: Description): Automaton {
    Automaton(
      d.initial, d.universal, Elements(d.finals),
      map q, a | 0 <= q < MAX_Q && 0 <= a < MAX_A :: (q, a) := Listed(d.transitions, q, a))
  }

  const HEADER_FORMAT := [Int, Blank, Int, Blank, Int, Blank, Int, Blank, Int]

  lemma ScanHeader(d: Description)
    ensures Scan(HEADER_FORMAT, ShowNumbers(Header(d))).values ==
            [Num(d.n), Num(d.alphabet), Num(d.states), Num(d.universal), Num(|d.finals|)]
  {
    hide Scan, ShowNumbers;
    ScanNumbers(Header(d));
    assert HEADER_FORMAT == Ints(5) by {
      assert Ints(1) == [Int] && Ints(2) == [Int, Blank] + Ints(1) && Ints(3) == [Int, Blank] + Ints(2);
      assert Ints(4) == [Int, Blank] + Ints(3) && Ints(5) == [Int, Blank] + Ints(4);
    }
    var h := Header(d);
    assert h[1..][1..][1..][1..][1..] == [];
    assert Nums(h[1..][1..][1..][1..]) == [Num(h[4])];
    assert Nums(h[1..][1..][1..]) == [Num(h[3]), Num(h[4])];
    assert Nums(h[1..][1..]) == [Num(h[2]), Num(h[3]), Num(h[4])];
    assert Nums(h[1..]) == [Num(h[1]), Num(h[2]), Num(h[3]), Num(h[4])];
  }

  lemma ScanInitial(n: int)
    ensures Scan([Int], ShowInt(n)) == Scanned([Num(n)], false, "")
  {
    ScanOne([n]);
    assert ShowNumbers([n]) == ShowInt(n);
  }

  lemma {:induction false} TransitionsAt(ts: seq<Transition>, i: nat)
    requires i < |ts|
    ensures ShowTransitions(ts[i..]) == [ShowTransition(ts[i])] + ShowTransitions(ts[i + 1..])
  {
    assert ts[i..][0] == ts[i] && ts[i..][1..] == ts[i + 1..];
  }

  lemma {:induction false} PlainTransitions(ts: seq<Transition>)
    ensures forall l :: l in ShowTransitions(ts) ==> Plain(l)
  {
    if ts != [] {
      PlainTransition(ts[0]);
      PlainTransitions(ts[1..]);
    }
  }

  lemma PlainShow(d: Description)
    requires DescriptionOk(d)
    ensures NoTerminator(Show(d))
  {
    PlainNumbers(Header(d));
    PlainInt(d.initial);
    PlainNumbers(d.finals);
    PlainTransitions(d.transitions);
    JoinPlain([ShowNumbers(Header(d)), ShowInt(d.initial), ShowNumbers(d.finals)] + ShowTransitions(d.transitions));
  }

  /** The transition lines, from position `start` to the end of the text or the first line without
      targets. */
  method LoadTransitions(g: TransitionGraph, text: string, start: nat, previous: string, ghost ts: seq<Transition>)
    requires forall t :: t in ts ==> TransitionOk(t)
    requires forall q, a :: |Listed(ts, q, a)| <= MAX_Q
    requires NoTerminator(text) && start <= |text| && text[start..] == JoinLines(ShowTransitions(ts))
    requires RowsAre(g, Loaded(ts, 0, 0))
    modifies g.graph, g.size
    ensures RowsAre(g, Rows(ts[..FirstBare(ts)]))
  {
    hide Scan, RowsAre, Rows, FirstBare, Listed, Loaded, JoinLines, ShowTransitions, ShowTransition, Tail, LineLength,
      NextStart, NoTerminator;
    var pos, line := start, previous;
    ghost var i := 0;
    assert ts[0..] == ts;
    while true
      invariant 0 <= i <= FirstBare(ts) && 0 <= pos <= |text|
      invariant text[pos..] == JoinLines(ShowTransitions(ts[i..]))
      invariant RowsAre(g, Loaded(ts, i, 0))
      decreases |text| - pos
    {
      ReadsTransition(text, pos, ts, i);
      assert i < |ts| ==> ts[i] in ts;
      var length;
      length, line, pos := StrGetline(line, text, pos);
      if length == -1 {
        break;
      }
      EdgeFacts(ts[i]);
      if length > 0 {
        var e := Scan(EDGE_FORMAT, line);
        if e.Code() == 0 {
          continue;
        }
        var npos := |line| - |e.rest|;
        if npos == |line| {
          break;
        }
        LoadTargets(g, e.values[0].n, Letter(e.values[1].s[0]), line, npos, ts, i);
      }
      i := i + 1;
    }
    assert i == FirstBare(ts);
    AllListed(g, ts, i);
  }

  lemma AllListed(g: TransitionGraph, ts: seq<Transition>, i: nat)
    requires i <= |ts| && RowsAre(g, Loaded(ts, i, 0))
    ensures RowsAre(g, Rows(ts[..i]))
  {
    RowsChange(g, Loaded(ts, i, 0), Rows(ts[..i]));
  }

  /** The next read returns the next transition's line, or the end of the text. */
  lemma ReadsTransition(text: string, pos: nat, ts: seq<Transition>, i: nat)
    requires i <= |ts| && pos <= |text| && text[pos..] == JoinLines(ShowTransitions(ts[i..]))
    ensures i == |ts| ==> pos == |text| && LineLength(text, pos) == 0
    ensures i < |ts| ==>
              && pos < |text| && LineLength(text, pos) == |ShowTransition(ts[i])|
              && text[pos..pos + LineLength(text, pos)] == ShowTransition(ts[i])
              && text[NextStart(text, pos)..] == JoinLines(ShowTransitions(ts[i + 1..]))
  {
    hide ShowTransition, LineLength, NextStart;
    if i < |ts| {
      var rest := ShowTransitions(ts[i..]);
      TransitionsAt(ts, i);
      PlainTransition(ts[i]);
      assert rest[0] == ShowTransition(ts[i]) && rest[1..] == ShowTransitions(ts[i + 1..]);
      NextLine(text, pos, rest);
    }
  }

  /** What scanning a transition's line gives, and where its targets start. */
  lemma EdgeFacts(t: Transition)
    requires TransitionOk(t)
    ensures
      var line := ShowTransition(t);
      var e := Scan(EDGE_FORMAT, line);
      && line != "" && e.Code() == 2 && e.values[0] == Num(t.q)
      && e.values[1].Chars? && |e.values[1].s| == 1 && Letter(e.values[1].s[0]) == t.a
      && |e.rest| < |line| && line[|line| - |e.rest|..] == Tail(t.targets)
      && (e.rest == "" <==> t.targets == [])
  {
    hide Scan, Tail, ShowInt;
    ScanEdge(t);
    TailEmpty(t.targets);
    var lead := ShowInt(t.q) + " " + [ShowLetter(t.a)];
    assert ShowTransition(t) == lead + Tail(t.targets);
    Halves(lead, Tail(t.targets));
    assert |ShowTransition(t)| - |Tail(t.targets)| == |lead|;
  }

  /** The first three lines of a description's text. */
  lemma HeaderLines(text: string, d: Description)
    requires DescriptionOk(d) && text == Show(d)
    ensures
      var l1, l2, l3 := ShowNumbers(Header(d)), ShowInt(d.initial), ShowNumbers(d.finals);
      var p1 := NextStart(text, 0);
      var p2 := NextStart(text, p1);
      && 0 < |text| && LineLength(text, 0) == |l1| && text[..|l1|] == l1
      && p1 < |text| && LineLength(text, p1) == |l2| && text[p1..p1 + |l2|] == l2
      && p2 < |text| && LineLength(text, p2) == |l3| && text[p2..p2 + |l3|] == l3
      && text[NextStart(text, p2)..] == JoinLines(ShowTransitions(d.transitions))
  {
    hide JoinLines, ShowTransitions, ShowNumbers, ShowInt;
    var l1, l2, l3 := ShowNumbers(Header(d)), ShowInt(d.initial), ShowNumbers(d.finals);
    var lines := ShowTransitions(d.transitions);
    var all := [l1, l2, l3] + lines;
    PlainNumbers(Header(d));
    PlainInt(d.initial);
    PlainNumbers(d.finals);
    assert text[0..] == text && all[1..] == [l2, l3] + lines;
    assert all[1..][1..] == [l3] + lines && all[1..][1..][1..] == lines;
    NextLine(text, 0, all);
    var p1 := NextStart(text, 0);
    NextLine(text, p1, all[1..]);
    NextLine(text, NextStart(text, p1), all[1..][1..]);
  }

  /** Loading the text of a description into an empty graph recovers what stands before the first
      line without targets, and so the whole description exactly if no targets come after it. */
  method LoadTransitionGraph(text: string, g: TransitionGraph, ghost d: Description)
    requires DescriptionOk(d) && text == Show(d)
    requires g.Valid() && g.IsEmpty()
    modifies g, g.graph, g.size, g.acceptingStates
    ensures g.Valid()
    ensures g.A == d.alphabet && g.Q == d.states && g.F == |d.finals|
    ensures g.View() == Meaning(Read(d))
    ensures g.View() == Meaning(d) <==> NothingMissed(d.transitions)
  {
    hide Scan, JoinLines, ShowTransitions, ShowNumbers, ShowInt, Listed, LineLength, NextStart, NoTerminator, RowsAre,
      Rows, FirstBare, NothingMissed, Meaning, ShowTransition;
    PlainShow(d);
    HeaderLines(text, d);
    var length, line, pos := StrGetline("", text, 0);
    ScanHeader(d);
    var h := Scan(HEADER_FORMAT, line).values;
    g.A := h[1].n;
    g.Q := h[2].n;
    g.U := h[3].n;
    g.F := h[4].n;

    length, line, pos := StrGetline(line, text, pos);
    ScanInitial(d.initial);
    g.q0 := Scan([Int], line).values[0].n;

    length, line, pos := StrGetline(line, text, pos);
    LoadFinals(g, line, d.finals);

    EmptyRows(g, d.transitions);
    LoadTransitions(g, text, pos, line, d.transitions);
    ViewIsMeaning(g, Read(d));
    RecoveredIff(d);
  }

  lemma {:induction false} ListedBare(ts: seq<Transition>, n: nat, q: int, a: int)
    requires n <= |ts| && forall i :: n <= i < |ts| ==> ts[i].targets == []
    ensures Listed(ts[..n], q, a) == Listed(ts, q, a)
    decreases |ts|
  {
    if n == |ts| {
      assert ts[..n] == ts;
    } else {
      ListedBare(ts[..|ts| - 1], n, q, a);
      assert ts[..|ts| - 1][..n] == ts[..n];
    }
  }

  lemma AllRead(d: Description)
    requires NothingMissed(d.transitions)
    ensures Meaning(Read(d)) == Meaning(d)
  {
    hide FirstBare, Listed;
    var ts, n := d.transitions, FirstBare(d.transitions);
    forall q, a
      ensures Listed(ts[..n], q, a) == Listed(ts, q, a)
    {
      ListedBare(ts, n, q, a);
    }
    assert Meaning(Read(d)).delta == Meaning(d).delta;
  }

  lemma SomeMissed(d: Description, i: nat)
    requires FirstBare(d.transitions) <= i < |d.transitions| && d.transitions[i].targets != []
    requires IsState(d.transitions[i].q) && 0 <= d.transitions[i].a < MAX_A
    ensures Meaning(Read(d)) != Meaning(d)
  {
    hide FirstBare;
    var ts, n := d.transitions, FirstBare(d.transitions);
    var q, a := ts[i].q, ts[i].a;
    ListedGrows(ts[..i], n, q, a);
    ListedGrows(ts, i + 1, q, a);
    assert ts[..i][..n] == ts[..n] && ts[..i + 1][..i] == ts[..i];
    assert |Listed(ts[..n], q, a)| < |Listed(ts, q, a)|;
    assert Meaning(d).delta[(q, a)] == Listed(ts, q, a);
  }

  lemma RecoveredIff(d: Description)
    requires DescriptionOk(d)
    ensures Meaning(Read(d)) == Meaning(d) <==> NothingMissed(d.transitions)
  {
    hide FirstBare, Listed, Meaning, ShowTransition, ShowNumbers, ShowInt;
    if NothingMissed(d.transitions) {
      AllRead(d);
    } else {
      var i :| FirstBare(d.transitions) <= i < |d.transitions| && d.transitions[i].targets != [];
      assert d.transitions[i] in d.transitions;
      SomeMissed(d, i);
    }
  }

  /** Three states, one of them final, and a line without targets before the one with. */
  const Bare := Description(5, 2, 3, 0, 0, [1], [Transition(0, 0, []), Transition(0, 1, [1])])

  /** A text whose last line is not loaded: the described automaton accepts `b`, the loaded one
      does not. */
  lemma BareLineStopsLoading()
    ensures DescriptionOk(Bare) && Show(Bare) == "5 2 3 0 1\n0\n1\n0 a\n0 b 1\n"
    ensures AcceptsWord(Meaning(Bare), "b") && !AcceptsWord(Meaning(Read(Bare)), "b")
  {
    hide Listed, ShowNumbers, ShowInt, ShowTransition, ShowTransitions, JoinLines;
    BareLines();
    BareJoined();
    BareRows();
    var m, r := Meaning(Bare), Meaning(Read(Bare));
    assert Bare.transitions[..0] == [];
    assert m.Successors(0, 'b') == [1] && r.Successors(0, 'b') == [];
    assert 1 in m.final && Accepts(m, "b", 1, 1);
    AcceptsByIndex(m, "b", 0, 0);
    AcceptsByIndex(r, "b", 0, 0);
    assert m.Successors(0, "b"[0])[0] == 1;
  }

  lemma BareRows()
    ensures forall q, a :: Listed(Bare.transitions, q, a) == if q == 0 && a == 1 then [1] else []
    ensures forall q, a :: Listed([], q, a) == []
  {
    var ts := Bare.transitions;
    assert ts[..1] == [ts[0]] && [ts[0]][..0] == [];
    forall q, a
      ensures Listed(ts, q, a) == if q == 0 && a == 1 then [1] else []
    {
      assert Listed([ts[0]], q, a) == [];
    }
  }

  lemma SmallNumbers()
    ensures ShowInt(0) == "0" && ShowInt(1) == "1" && ShowInt(2) == "2" && ShowInt(3) == "3" && ShowInt(5) == "5"
  {
  }

  lemma BareLines()
    ensures ShowNumbers(Header(Bare)) == "5 2 3 0 1" && ShowInt(Bare.initial) == "0" && ShowNumbers(Bare.finals) == "1"
    ensures ShowTransition(Bare.transitions[0]) == "0 a" && ShowTransition(Bare.transitions[1]) == "0 b 1"
    ensures ShowTransitions(Bare.transitions) == ["0 a", "0 b 1"]
  {
    hide ShowInt, ShowNumbers, ShowTransition;
    SmallNumbers();
    BareHeader();
    NumbersUnfold([1]);
    assert [1][1..] == [];
    var ts := Bare.transitions;
    BareTransitions();
    assert ts[1..] == [ts[1]] && ts[1..][1..] == [];
    assert ShowTransitions([ts[1]]) == [ShowTransition(ts[1])];
  }

  lemma BareTransitions()
    ensures ShowTransition(Bare.transitions[0]) == "0 a" && ShowTransition(Bare.transitions[1]) == "0 b 1"
  {
    hide ShowInt, ShowNumbers;
    SmallNumbers();
    NumbersUnfold([1]);
    assert [1][1..] == [];
  }

  lemma NumbersMore(n: int, ns: seq<int>)
    requires ns != []
    ensures ShowNumbers([n] + ns) == ShowInt(n) + " " + ShowNumbers(ns)
  {
    assert ([n] + ns)[1..] == ns;
  }

  lemma BareHeader()
    ensures ShowNumbers([5, 2, 3, 0, 1]) == "5 2 3 0 1"
  {
    hide ShowInt, ShowNumbers;
    SmallNumbers();
    NumbersUnfold([1]);
    assert [1][1..] == [];
    NumbersMore(0, [1]);
    NumbersMore(3, [0] + [1]);
    NumbersMore(2, [3] + ([0] + [1]));
    NumbersMore(5, [2] + ([3] + ([0] + [1])));
    assert [5, 2, 3, 0, 1] == [5] + ([2] + ([3] + ([0] + [1])));
  }

  lemma JoinedFirst(line: string, lines: seq<string>)
    ensures JoinLines([line] + lines) == line + "\n" + JoinLines(lines)
  {
    assert ([line] + lines)[1..] == lines;
  }

  lemma BareJoined()
    ensures JoinLines(["5 2 3 0 1", "0", "1"] + ["0 a", "0 b 1"]) == "5 2 3 0 1\n0\n1\n0 a\n0 b 1\n"
  {
    var l5 := ["0 b 1"];
    var l4 := ["0 a"] + l5;
    var l3 := ["1"] + l4;
    var l2 := ["0"] + l3;
    assert l5[1..] == [] && l4[1..] == l5 && l3[1..] == l4 && l2[1..] == l3;
    assert (["5 2 3 0 1"] + l2)[1..] == l2;
    assert JoinLines(l5) == "0 b 1\n" && JoinLines(l4) == "0 a\n0 b 1\n";
    hide JoinLines;
    JoinedFirst("1", l4);
    JoinedFirst("0", l3);
    JoinedFirst("5 2 3 0 1", l2);
    assert ["5 2 3 0 1", "0", "1"] + ["0 a", "0 b 1"] == ["5 2 3 0 1"] + l2;
  }

  lemma EmptyRows(g: TransitionGraph, ts: seq<Transition>)
    requires g.Shaped() && forall q, a :: 0 <= q < MAX_Q && 0 <= a < MAX_A ==> g.size[q, a] == 0
    ensures RowsAre(g, Loaded(ts, 0, 0))
  {
    assert ts[..0] == [];
  }

  lemma ViewIsMeaning(g: TransitionGraph, d: Description)
    requires RowsAre(g, Rows(d.transitions))
    requires forall q :: 0 <= q < MAX_Q ==> g.acceptingStates[q] == if q in d.finals then 1 else 0
    requires forall q :: q in d.finals ==> IsState(q)
    requires g.q0 == d.initial && g.U == d.universal && IsState(d.initial)
    ensures g.Valid() && g.View() == Meaning(d)
  {
    forall q, a | 0 <= q < MAX_Q && 0 <= a < MAX_A
      ensures g.Row(q, a, g.size[q, a]) == Listed(d.transitions, q, a)
    {
      assert Stored(g, q, a) == Listed(d.transitions, q, a);
    }
    var v, m := g.View(), Meaning(d);
    assert v.delta == m.delta;
    assert v.final == m.final;
  }
}
