/** Decimal numbers and the scanning and printing directives that the messages and the
    automaton description use. */
module Text {
  import opened Prelude

  predicate IsDigit(c: char) {
    '0' <= c <= '9'
  }

  /** The characters the C library calls white space. */
  predicate IsBlank(c: char) {
    c == ' ' || '\t' <= c <= '\r'
  }

  function Digit(d: nat): (c: char)
    requires d < 10
    ensures IsDigit(c) && DigitValue(c) == d
  {
    ('0' as int + d) as char
  }

  function DigitValue(c: char): nat
    requires IsDigit(c)
  {
    c as int - '0' as int
  }

  function ShowNat(n: nat): (s: string)
    ensures s != [] && forall i :: 0 <= i < |s| ==> IsDigit(s[i])
  {
    if n < 10 then [Digit(n)] else ShowNat(n / 10) + [Digit(n % 10)]
  }

  function ShowInt(n: int): (s: string)
    ensures s != [] && !IsBlank(s[0])
    ensures IsDigit(s[|s| - 1])
  {
    if n < 0 then "-" + ShowNat(-n) else ShowNat(n)
  }

  /** The value of a string of digits. */
  function NatOf(s: string): nat
    requires forall i :: 0 <= i < |s| ==> IsDigit(s[i])
  {
    if s == [] then 0 else 10 * NatOf(s[..|s| - 1]) + DigitValue(s[|s| - 1])
  }

  lemma {:induction false} NatOfShow(n: nat)
    ensures NatOf(ShowNat(n)) == n
  {
    if n < 10 {
      assert ShowNat(n)[..0] == [];
    } else {
      NatOfShow(n / 10);
      assert ShowNat(n)[..|ShowNat(n)| - 1] == ShowNat(n / 10);
    }
  }

  function SkipBlanks(s: string): (r: string)
    ensures r == [] || !IsBlank(r[0])
    ensures |r| <= |s| && r == s[|s| - |r|..]
  {
    if s != [] && IsBlank(s[0]) then SkipBlanks(s[1..]) else s
  }

  /** How many leading characters satisfy `p`. */
  function Run(s: string, p: char -> bool): (n: nat)
    ensures n <= |s| && (forall i :: 0 <= i < n ==> p(s[i])) && (n < |s| ==> !p(s[n]))
  {
    if s != [] && p(s[0]) then 1 + Run(s[1..], p) else 0
  }

  lemma {:induction false} RunExact(s: string, tail: string, p: char -> bool)
    requires forall i :: 0 <= i < |s| ==> p(s[i])
    requires tail == [] || !p(tail[0])
    ensures Run(s + tail, p) == |s|
  {
    assert forall i :: 0 <= i < |s| ==> p((s + tail)[i]);
    assert tail != [] ==> (s + tail)[|s|] == tail[0];
  }

  /** A number without sign at the very start of `s`: its value and the rest. */
  function Unsigned(s: string): Option<(int, string)> {
    var n := Run(s, IsDigit);
    if n == 0 then None else Some((NatOf(s[..n]), s[n..]))
  }

  /** A number with an optional sign at the very start of `s`. */
  function Number(s: string): Option<(int, string)> {
    if s != [] && (s[0] == '-' || s[0] == '+') then
      var u := Unsigned(s[1..]);
      if u.Some? && s[0] == '-' then Some((-u.value.0, u.value.1)) else u
    else Unsigned(s)
  }

  lemma Halves(s: string, t: string)
    ensures (s + t)[..|s|] == s && (s + t)[|s|..] == t
  {
  }

  lemma UnsignedOfShow(n: nat, tail: string)
    requires tail == [] || !IsDigit(tail[0])
    ensures Unsigned(ShowNat(n) + tail) == Some((n, tail))
  {
    NatOfShow(n);
    RunExact(ShowNat(n), tail, IsDigit);
    Halves(ShowNat(n), tail);
  }

  lemma NumberOfShow(n: int, tail: string)
    requires tail == [] || !IsDigit(tail[0])
    ensures Number(ShowInt(n) + tail) == Some((n, tail))
  {
    hide Unsigned, ShowNat, NatOf;
    if n < 0 {
      UnsignedOfShow(-n, tail);
      assert (ShowInt(n) + tail)[1..] == ShowNat(-n) + tail;
    } else {
      UnsignedOfShow(n, tail);
      assert (ShowInt(n) + tail)[0] == ShowNat(n)[0];
    }
  }

  // ----- printf and sscanf

  datatype Directive =
    | Blank              // a space in the format
    | Lit(text: string)  // other characters of the format
    | Int                // %d, %lld
    | Str                // %s
    | OneChar            // %c
    | Rest               // %[^NULL]

  datatype Value = Num(n: int) | Chars(s: string)

  /** What a scan converted, whether it stopped because the input ended, and what is left. */
  datatype Scanned = Scanned(values: seq<Value>, ended: bool, rest: string)
  {
    /** The result code: the number of conversions, or -1 if the input ended before any. */
    function Code(): int {
      if values == [] && ended then -1 else |values|
    }

    function After(v: Value): Scanned {
      this.(values := [v] + values)
    }
  }

  predicate Graphic(c: char) {
    !IsBlank(c)
  }

  predicate NotNul(c: char) {
    c != 'N' && c != 'U' && c != 'L'
  }

  function Scan(format: seq<Directive>, s: string): Scanned
    decreases |format|
  {
    if format == [] then Scanned([], false, s)
    else
      var next := format[1..];
      match format[0]
      case Blank => Scan(next, SkipBlanks(s))
      case Lit(text) =>
        if text <= s then Scan(next, s[|text|..]) else Scanned([], s < text, s)
      case Int =>
        var t := SkipBlanks(s);
        if t == [] then Scanned([], true, t)
        else if Number(t).None? then Scanned([], false, t)
        else Scan(next, Number(t).value.1).After(Num(Number(t).value.0))
      case Str =>
        var t := SkipBlanks(s);
        if t == [] then Scanned([], true, t)
        else
          var n := Run(t, Graphic);
          Scan(next, t[n..]).After(Chars(t[..n]))
      case OneChar =>
        if s == [] then Scanned([], true, s) else Scan(next, s[1..]).After(Chars(s[..1]))
      case Rest =>
        if s == [] then Scanned([], true, s)
        else
          var n := Run(s, NotNul);
          if n == 0 then Scanned([], false, s) else Scan(next, s[n..]).After(Chars(s[..n]))
  }

  predicate TakesValue(d: Directive) {
    !d.Blank? && !d.Lit?
  }

  function Printed(d: Directive, v: Value): string {
    match d
    case Blank => " "
    case Lit(text) => text
    case _ => if v.Num? then ShowInt(v.n) else v.s
  }

  /** Printing; conversions without a value print nothing. */
  function Print(format: seq<Directive>, values: seq<Value>): string
    decreases |format|
  {
    if format == [] then ""
    else if !TakesValue(format[0]) then Printed(format[0], Num(0)) + Print(format[1..], values)
    else if values == [] then ""
    else Printed(format[0], values[0]) + Print(format[1..], values[1..])
  }

  /** `v`, printed for `d` before the text `next`, can be told from `next` by a scanner. */
  predicate Separated(d: Directive, v: Value, next: string) {
    match d
    case Blank => next == [] || !IsBlank(next[0])
    case Lit(text) => true
    case Int => v.Num? && (next == [] || !IsDigit(next[0]))
    case Str => v.Chars? && v.s != [] && (forall c :: c in v.s ==> Graphic(c)) && (next == [] || !Graphic(next[0]))
    case OneChar => v.Chars? && |v.s| == 1
    case Rest => v.Chars? && v.s != [] && (forall c :: c in v.s ==> NotNul(c)) && (next == [] || !NotNul(next[0]))
  }

  /** Every directive of the format is separated from the text printed after it. */
  predicate WellSeparated(format: seq<Directive>, values: seq<Value>)
    decreases |format|
  {
    if format == [] then values == []
    else if !TakesValue(format[0]) then
      Separated(format[0], Num(0), Print(format[1..], values)) && WellSeparated(format[1..], values)
    else
      && values != []
      && Separated(format[0], values[0], Print(format[1..], values[1..]))
      && WellSeparated(format[1..], values[1..])
  }

  lemma SkipNothing(s: string, t: string)
    requires s != [] && !IsBlank(s[0])
    ensures SkipBlanks(s + t) == s + t
  {
  }

  /** Scanning one printed conversion takes exactly its text. */
  lemma ScanConversion(format: seq<Directive>, v: Value, next: string)
    requires format != [] && TakesValue(format[0]) && Separated(format[0], v, next)
    ensures Scan(format, Printed(format[0], v) + next) == Scan(format[1..], next).After(v)
  {
    var d := format[0];
    var shown := Printed(d, v);
    Halves(shown, next);
    if d.Int? {
      SkipNothing(shown, next);
      NumberOfShow(v.n, next);
    } else if d.OneChar? {
    } else {
      assert shown[0] in shown;
      RunExact(shown, next, if d.Str? then Graphic else NotNul);
      if d.Str? {
        SkipNothing(shown, next);
      }
    }
  }

  lemma ScanConstant(format: seq<Directive>, next: string)
    requires format != [] && !TakesValue(format[0]) && Separated(format[0], Num(0), next)
    ensures Scan(format, Printed(format[0], Num(0)) + next) == Scan(format[1..], next)
  {
    Halves(Printed(format[0], Num(0)), next);
    if format[0].Blank? {
      assert SkipBlanks(" " + next) == SkipBlanks(next) == next;
    }
  }

  /** Scanning undoes printing, whatever the format. */
  lemma {:induction false} ScanPrint(format: seq<Directive>, values: seq<Value>)
    requires WellSeparated(format, values)
    ensures Scan(format, Print(format, values)) == Scanned(values, false, "")
    decreases |format|
  {
    if format == [] {
    } else if !TakesValue(format[0]) {
      ScanPrint(format[1..], values);
      ScanConstant(format, Print(format[1..], values));
    } else {
      ScanPrint(format[1..], values[1..]);
      ScanConversion(format, values[0], Print(format[1..], values[1..]));
      assert [values[0]] + values[1..] == values;
    }
  }
}
