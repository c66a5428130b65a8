/** Line-ending conversion of clipboard text (server/helpers.go). */
module LineEndings {
  const CR := '\r'
  const LF := '\n'

  /** `strings.ReplaceAll` for a non-empty pattern: non-overlapping matches, left to right. */
  function ReplaceAll(text: string, pat: string, sub: string): string
    requires pat != []
    decreases |text|
  {
    if text == [] then []
    else if pat <= text then sub + ReplaceAll(text[|pat|..], pat, sub)
    else [text[0]] + ReplaceAll(text[1..], pat, sub)
  }

  datatype Mode = ToLf | ToCrLf | Untouched

  function Lower(s: string): string {
    seq(|s|, i requires 0 <= i < |s| => if 'A' <= s[i] <= 'Z' then s[i] + 32 as char else s[i])
  }

  /** `strings.EqualFold` against the two names; their letters fold only within ASCII. */
  function ModeOf(op: string): Mode {
    if Lower(op) == "lf" then ToLf else if Lower(op) == "crlf" then ToCrLf else Untouched
  }

  function Convert(text: string, mode: Mode): string {
    match mode
    case ToLf => ReplaceAll(ReplaceAll(text, "\r\n", "\n"), "\r", "\n")
    case ToCrLf => ReplaceAll(ReplaceAll(ReplaceAll(text, "\r\n", "\n"), "\r", "\n"), "\n", "\r\n")
    case Untouched => text
  }

  /** `ConvertLE`. */
  function ConvertLE(text: string, op: string): string {
    Convert(text, ModeOf(op))
  }

  /** One scan from left to right: each CR LF, CR or LF becomes `eol`. */
  function Scan(text: string, eol: string): string
    decreases |text|
  {
    if text == [] then []
    else if text[0] == CR then eol + Scan(if |text| > 1 && text[1] == LF then text[2..] else text[1..], eol)
    else if text[0] == LF then eol + Scan(text[1..], eol)
    else [text[0]] + Scan(text[1..], eol)
  }

  // ----- the passes are the scan

  lemma {:induction false} LfPasses(text: string)
    ensures ReplaceAll(ReplaceAll(text, "\r\n", "\n"), "\r", "\n") == Scan(text, "\n")
    decreases |text|
  {
    if text != [] {
      if "\r\n" <= text {
        LfPasses(text[2..]);
        LfFirst(ReplaceAll(text[2..], "\r\n", "\n"), LF);
      } else {
        LfPasses(text[1..]);
        LfFirst(ReplaceAll(text[1..], "\r\n", "\n"), text[0]);
      }
    }
  }

  lemma LfFirst(rest: string, c: char)
    ensures ReplaceAll([c] + rest, "\r", "\n") == [if c == CR then LF else c] + ReplaceAll(rest, "\r", "\n")
  {
    assert ([c] + rest)[1..] == rest;
  }

  lemma {:induction false} CrLfPass(text: string)
    ensures ReplaceAll(Scan(text, "\n"), "\n", "\r\n") == Scan(text, "\r\n")
    decreases |text|
  {
    if text != [] {
      var rest := if text[0] == CR && |text| > 1 && text[1] == LF then text[2..] else text[1..];
      CrLfPass(rest);
      var c := if text[0] == CR then LF else text[0];
      assert Scan(text, "\n") == [c] + Scan(rest, "\n");
      assert ([c] + Scan(rest, "\n"))[1..] == Scan(rest, "\n");
    }
  }

  /** The chained replacements do in several passes what one scan does. */
  lemma PassesAreScan(text: string)
    ensures Convert(text, ToLf) == Scan(text, "\n")
    ensures Convert(text, ToCrLf) == Scan(text, "\r\n")
  {
    LfPasses(text);
    CrLfPass(text);
  }

  // ----- what the result looks like

  predicate NoCr(text: string) {
    forall i | 0 <= i < |text| :: text[i] != CR
  }

  /** Every CR is followed by an LF and every LF preceded by a CR. */
  predicate Paired(text: string) {
    forall i | 0 <= i < |text| :: PairedAt(text, i)
  }

  predicate PairedAt(text: string, i: nat)
    requires i < |text|
  {
    && (text[i] == CR ==> i + 1 < |text| && text[i + 1] == LF)
    && (text[i] == LF ==> 0 < i && text[i - 1] == CR)
  }

  lemma {:induction false} LfHasNoCr(text: string)
    ensures NoCr(Scan(text, "\n"))
    decreases |text|
  {
    if text != [] {
      LfHasNoCr(if text[0] == CR && |text| > 1 && text[1] == LF then text[2..] else text[1..]);
    }
  }

  lemma {:induction false} CrLfIsPaired(text: string)
    ensures Paired(Scan(text, "\r\n")) && |Scan(text, "\r\n")| <= 2 * |text|
    decreases |text|
  {
    if text != [] {
      var rest := if text[0] == CR && |text| > 1 && text[1] == LF then text[2..] else text[1..];
      CrLfIsPaired(rest);
      var tail := Scan(rest, "\r\n");
      var head := if text[0] == CR || text[0] == LF then "\r\n" else [text[0]];
      assert Scan(text, "\r\n") == head + tail;
      assert Paired(head);
      PairedConcat(head, tail);
    }
  }

  lemma PairedConcat(a: string, b: string)
    requires Paired(a) && Paired(b)
    ensures Paired(a + b)
  {
    forall i | 0 <= i < |a + b| ensures PairedAt(a + b, i) {
      if i < |a| {
        assert PairedAt(a, i);
      } else {
        assert PairedAt(b, i - |a|);
      }
    }
  }

  // ----- converting twice

  /** Text without CR is not changed by the LF conversion. */
  lemma {:induction false} LfFixed(text: string)
    requires NoCr(text)
    ensures Scan(text, "\n") == text
  {
    if text != [] {
      assert text[0] != CR;
      LfFixed(text[1..]);
      assert text == [text[0]] + text[1..];
    }
  }

  /** A conversion sees only the lines: what was converted before, either way, does not matter. */
  lemma {:induction false} ScanAbsorbs(text: string, first: string, eol: string)
    requires first == "\n" || first == "\r\n"
    ensures Scan(Scan(text, first), eol) == Scan(text, eol)
    decreases |text|
  {
    if text != [] {
      var rest := if text[0] == CR && |text| > 1 && text[1] == LF then text[2..] else text[1..];
      ScanAbsorbs(rest, first, eol);
      var tail := Scan(rest, first);
      if text[0] == CR || text[0] == LF {
        assert Scan(text, first) == first + tail;
        assert (first + tail)[|first|..] == tail;
      } else {
        assert ([text[0]] + tail)[1..] == tail;
      }
    }
  }

  predicate Converts(mode: Mode) {
    !mode.Untouched?
  }

  /** Both modes are idempotent, and each absorbs the other applied first. */
  lemma ConvertAbsorbs(text: string, first: Mode, second: Mode)
    requires Converts(first) && Converts(second)
    ensures Convert(Convert(text, first), second) == Convert(text, second)
  {
    PassesAreScan(text);
    PassesAreScan(Convert(text, first));
    ScanAbsorbs(text, if first.ToLf? then "\n" else "\r\n", if second.ToLf? then "\n" else "\r\n");
  }

  /** The two names, in any capitalisation. */
  predicate NamesLf(op: string) {
    |op| == 2 && op[0] in {'l', 'L'} && op[1] in {'f', 'F'}
  }

  predicate NamesCrLf(op: string) {
    |op| == 4 && op[0] in {'c', 'C'} && op[1] in {'r', 'R'} && op[2] in {'l', 'L'} && op[3] in {'f', 'F'}
  }

  /** `lf` and `crlf` choose the line ending that every line of the result gets; any other name changes nothing. */
  lemma ConvertLEExactly(text: string, op: string)
    ensures ConvertLE(text, op) ==
            if NamesLf(op) then Scan(text, "\n") else if NamesCrLf(op) then Scan(text, "\r\n") else text
  {
    hide Scan, Convert, NamesLf, NamesCrLf, Lower;
    PassesAreScan(text);
    FoldLf(op);
    FoldCrLf(op);
    OneName(op);
    OtherNames(text);
  }

  lemma OneName(op: string)
    ensures !(NamesLf(op) && NamesCrLf(op))
  {
  }

  lemma OtherNames(text: string)
    ensures Convert(text, Untouched) == text
  {
  }

  lemma FoldLf(op: string)
    ensures Lower(op) == "lf" <==> NamesLf(op)
  {
    if Lower(op) == "lf" {
      assert Lower(op)[0] == 'l' && Lower(op)[1] == 'f';
    }
  }

  lemma FoldCrLf(op: string)
    ensures Lower(op) == "crlf" <==> NamesCrLf(op)
  {
    if Lower(op) == "crlf" {
      assert Lower(op)[0] == 'c' && Lower(op)[1] == 'r' && Lower(op)[2] == 'l' && Lower(op)[3] == 'f';
    }
  }

  // ----- the lines themselves

  predicate Plain(line: string) {
    forall i | 0 <= i < |line| :: line[i] != CR && line[i] != LF
  }

  /** A text with the given lines, each closed by `eol`, and a last line without an end. */
  function Text(ls: seq<string>, last: string, eol: string): string {
    if ls == [] then last else ls[0] + eol + Text(ls[1..], last, eol)
  }

  lemma {:induction false} ScanLine(line: string, rest: string, eol: string)
    requires Plain(line)
    ensures Scan(line + rest, eol) == line + Scan(rest, eol)
  {
    if line == [] {
      assert line + rest == rest;
    } else {
      ScanLine(line[1..], rest, eol);
      assert (line + rest)[1..] == line[1..] + rest;
      assert line == [line[0]] + line[1..];
    }
  }

  lemma ScanEnd(end: string, rest: string, eol: string)
    requires end == "\n" || end == "\r" || end == "\r\n"
    requires end == "\r" ==> rest == [] || rest[0] != LF
    ensures Scan(end + rest, eol) == eol + Scan(rest, eol)
  {
    assert (end + rest)[|end|..] == rest;
  }

  /** The lines stay what they are: only their ends change, and all of them do. */
  lemma {:induction false} LinesAreKept(ls: seq<string>, last: string, from: string, eol: string)
    requires (forall i | 0 <= i < |ls| :: Plain(ls[i])) && Plain(last)
    requires from == "\n" || from == "\r" || from == "\r\n"
    ensures Scan(Text(ls, last, from), eol) == Text(ls, last, eol)
  {
    hide Scan;
    if ls == [] {
      ScanLine(last, [], eol);
      assert last + [] == last && Scan([], eol) == [] by { NothingScans(eol); }
      assert last + [] == last;
    } else {
      var rest := Text(ls[1..], last, from);
      LinesAreKept(ls[1..], last, from, eol);
      assert Text(ls, last, from) == ls[0] + (from + rest);
      ScanLine(ls[0], from + rest, eol);
      if from == "\r" && rest != [] { NoLfFirst(ls[1..], last); }
      ScanEnd(from, rest, eol);
      assert ls[0] + (eol + Text(ls[1..], last, eol)) == Text(ls, last, eol);
    }
  }

  lemma NothingScans(eol: string)
    ensures Scan([], eol) == []
  {
  }

  lemma NoLfFirst(ls: seq<string>, last: string)
    requires (forall i | 0 <= i < |ls| :: Plain(ls[i])) && Plain(last)
    requires Text(ls, last, "\r") != []
    ensures Text(ls, last, "\r")[0] != LF
  {
  }

  /** LF output has no CR left, CRLF output only whole pairs and at most twice the length. */
  lemma ConvertNormalises(text: string)
    ensures NoCr(Convert(text, ToLf))
    ensures Paired(Convert(text, ToCrLf)) && |Convert(text, ToCrLf)| <= 2 * |text|
    ensures NoCr(text) <==> Convert(text, ToLf) == text
  {
    PassesAreScan(text);
    LfHasNoCr(text);
    CrLfIsPaired(text);
    if NoCr(text) {
      LfFixed(text);
    }
  }
}
