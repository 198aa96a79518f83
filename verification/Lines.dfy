/** Reading a text line by line through a fixed buffer. A C string is a sequence whose
    terminator sits just past its end. */
module Lines {
  import opened Prelude
  import opened Text

  const LINE_BUFFER: nat := 256

  predicate InLine(c: char) {
    c != '\n'
  }

  predicate NoTerminator(text: string) {
    forall i :: 0 <= i < |text| ==> text[i] != '\0'
  }

  /** Length of the line that starts at `pos`. */
  function LineLength(text: string, pos: nat): (n: nat)
    requires pos <= |text|
    ensures pos + n <= |text|
    ensures forall i :: pos <= i < pos + n ==> text[i] != '\n'
    ensures pos + n < |text| ==> text[pos + n] == '\n'
  {
    Run(text[pos..], InLine)
  }

  /** Where the next line starts. */
  function NextStart(text: string, pos: nat): (p: nat)
    requires pos <= |text|
    ensures pos <= p <= |text| && (pos < |text| ==> pos < p)
  {
    var end := pos + LineLength(text, pos);
    if end < |text| then end + 1 else end
  }

  /** The lines of a text: what stands before each newline, and after the last if not empty. */
  function SplitLines(text: string): seq<string> {
    if text == "" then []
    else [text[..LineLength(text, 0)]] + SplitLines(text[NextStart(text, 0)..])
  }

  /** Each line followed by a newline. */
  function JoinLines(lines: seq<string>): string {
    if lines == [] then "" else lines[0] + "\n" + JoinLines(lines[1..])
  }

  lemma FirstLine(line: string, rest: string)
    requires forall c :: c in line ==> c != '\n'
    ensures LineLength(line + "\n" + rest, 0) == |line|
    ensures NextStart(line + "\n" + rest, 0) == |line| + 1
  {
    var text := line + "\n" + rest;
    assert text[|line|] == '\n';
    var n := LineLength(text, 0);
    assert forall i :: 0 <= i < |line| ==> text[i] == line[i] && line[i] in line;
  }

  lemma LastLine(last: string)
    requires forall c :: c in last ==> c != '\n'
    ensures SplitLines(last) == if last == "" then [] else [last]
  {
    if last != "" {
      var n := LineLength(last, 0);
      assert forall i :: 0 <= i < |last| ==> last[i] in last;
      assert last[..n] == last && last[n..] == "";
    }
  }

  /** Splitting undoes joining, with or without a last line that lacks its newline. */
  lemma {:induction false} SplitJoin(lines: seq<string>, last: string)
    requires forall l, c :: l in lines && c in l ==> c != '\n'
    requires forall c :: c in last ==> c != '\n'
    ensures SplitLines(JoinLines(lines) + last) == lines + if last == "" then [] else [last]
  {
    hide LineLength, NextStart;
    if lines == [] {
      assert JoinLines(lines) + last == last;
      LastLine(last);
    } else {
      var rest := JoinLines(lines[1..]) + last;
      var text := lines[0] + "\n" + rest;
      assert JoinLines(lines) + last == text;
      assert lines[0] in lines;
      FirstLine(lines[0], rest);
      assert text[..|lines[0]|] == lines[0] && text[|lines[0]| + 1..] == rest;
      SplitJoin(lines[1..], last);
      assert [lines[0]] + (lines[1..] + if last == "" then [] else [last]) ==
             lines + if last == "" then [] else [last];
    }
  }

  /** A buffer filled character by character, and its terminator. */
  lemma Filled(out: array<char>, n: nat, text: string, pos: nat)
    requires n < out.Length && pos + n <= |text|
    requires (forall j :: 0 <= j < n ==> out[j] == text[pos + j]) && out[n] == '\0'
    ensures out[..n + 1] == text[pos..pos + n] + "\0"
  {
  }

  /** The last index of its buffer that a copy of at most `n` characters writes. */
  function LastWritten(text: string, pos: nat, n: nat): (i: nat)
    requires pos <= |text|
    ensures LineLength(text, pos) + 2 <= n ==> i < n
  {
    var length := LineLength(text, pos);
    if length >= n then n else if pos + length < |text| then length + 1 else length
  }

  /** The reader's buffer holds exactly the lines of at most 254 characters, and 255 at the end
      of a text that does not end in a newline; a longer line is written past its end. */
  lemma BufferHolds(text: string, pos: nat)
    requires pos <= |text|
    ensures LastWritten(text, pos, LINE_BUFFER) < LINE_BUFFER <==>
            LineLength(text, pos) <= 254 || (LineLength(text, pos) == 255 && pos + 255 == |text|)
  {
  }

  /** Copies at most `n` characters up to and including a newline, and a terminator. */
  method StrGets(out: array<char>, n: nat, text: string, pos: nat) returns (ok: bool, next: nat)
    requires pos <= |text| && NoTerminator(text) && n > 0
    requires LastWritten(text, pos, n) < out.Length
    modifies out
    ensures
      var length := LineLength(text, pos);
      if pos == |text| then
        !ok && next == pos
      else if length >= n then
        ok && next == pos + n && out[..n + 1] == text[pos..next] + "\0"
      else
        ok && next == NextStart(text, pos) && out[..next - pos + 1] == text[pos..next] + "\0"
  {
    hide NoTerminator;
    var length := LineLength(text, pos);
    for i := 0 to n
      invariant i <= length && pos + i <= |text|
      invariant i < out.Length
      invariant forall j :: 0 <= j < i ==> out[j] == text[pos + j]
    {
      if pos + i == |text| {
        out[i] := '\0';
        return i != 0, pos + i;
      } else if text[pos + i] == '\n' {
        out[i] := text[pos + i];
        out[i + 1] := '\0';
        Filled(out, i + 1, text, pos);
        return true, pos + i + 1;
      } else {
        out[i] := text[pos + i];
      }
    }
    out[n] := '\0';
    Filled(out, n, text, pos);
    return true, pos + n;
  }

  /** One line of the text without its newline, or -1 at the end with the buffer as it was. */
  method StrGetline(previous: string, text: string, pos: nat) returns (length: int, line: string, next: nat)
    requires pos <= |text| && NoTerminator(text)
    requires LastWritten(text, pos, LINE_BUFFER) < LINE_BUFFER
    ensures pos == |text| ==> length == -1 && line == previous && next == pos
    ensures pos < |text| ==>
              length == LineLength(text, pos) && line == text[pos..pos + length] && next == NextStart(text, pos)
  {
    var buffer := new char[LINE_BUFFER];
    var ok;
    ok, next := StrGets(buffer, LINE_BUFFER, text, pos);
    if !ok {
      return -1, previous, next;
    }
    ghost var n := LineLength(text, pos);
    assert forall i :: 0 <= i < next - pos ==> buffer[i] == (text[pos..next] + "\0")[i] == text[pos + i];
    assert buffer[next - pos] == (text[pos..next] + "\0")[next - pos] == '\0';
    // the newline, if any, becomes the terminator
    var end := 0;
    while buffer[end] != '\n' && buffer[end] != '\0'
      invariant 0 <= end <= n
      decreases n - end
    {
      end := end + 1;
    }
    buffer[end] := '\0';
    assert end == n;
    assert buffer[..end] == text[pos..pos + n];
    return end, buffer[..end], next;
  }

  lemma SplitStep(text: string, pos: nat)
    requires pos <= |text|
    ensures SplitLines(text[pos..]) ==
            if pos == |text| then []
            else [text[pos..pos + LineLength(text, pos)]] + SplitLines(text[NextStart(text, pos)..])
  {
    var rest := text[pos..];
    assert rest[0..] == rest;
    assert LineLength(rest, 0) == LineLength(text, pos);
    assert rest[..LineLength(rest, 0)] == text[pos..pos + LineLength(text, pos)];
    assert rest[NextStart(rest, 0)..] == text[NextStart(text, pos)..];
  }

  /** Every line of the text from `pos` on fits the buffer. */
  predicate AllFit(text: string, pos: nat)
    requires pos <= |text|
    decreases |text| - pos
  {
    LastWritten(text, pos, LINE_BUFFER) < LINE_BUFFER && (pos < |text| ==> AllFit(text, NextStart(text, pos)))
  }

  /** Repeated reading yields exactly the lines of the text, and then -1. */
  method ReadLines(text: string) returns (lines: seq<string>)
    requires NoTerminator(text)
    requires AllFit(text, 0)
    ensures lines == SplitLines(text)
  {
    hide SplitLines;
    lines := [];
    var pos, line, length := 0, "", 0;
    assert text[0..] == text;
    while length != -1
      invariant 0 <= pos <= |text| && -1 <= length && AllFit(text, pos)
      invariant lines + SplitLines(text[pos..]) == SplitLines(text)
      invariant length == -1 ==> pos == |text|
      decreases length != -1, |text| - pos
    {
      SplitStep(text, pos);
      length, line, pos := StrGetline(line, text, pos);
      if length != -1 {
        lines := lines + [line];
      }
    }
    SplitStep(text, pos);
  }
}
