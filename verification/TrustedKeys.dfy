/** The trusted-keys file (the parsing loop of `ReadTrustedKeys` in util/keys.go). */
module TrustedKeys {
  import opened Options
  import opened Bytes

  const LF: byte := 10
  const CR: byte := 13
  const HASH_SIGN: byte := 35

  // ----- lines

  /** Every CR becomes an LF. */
  function Unified(content: bytes): bytes {
    if content == [] then []
    else [if content[0] == CR then LF else content[0]] + Unified(content[1..])
  }

  /** `bytes.Split` at LF; the empty content is one empty line. */
  function Lines(content: bytes): (ls: seq<bytes>)
    ensures ls != []
  {
    if content == [] then [[]]
    else
      var rest := Lines(content[1..]);
      if content[0] == LF then [[]] + rest else [[content[0]] + rest[0]] + rest[1..]
  }

  // ----- white space, as `bytes.TrimSpace` sees it

  predicate AsciiSpace(b: byte) {
    9 <= b <= 13 || b == 32
  }

  /** U+0085 and U+00A0 in UTF-8. */
  predicate Space2(a: byte, b: byte) {
    a == 0xC2 && (b == 0x85 || b == 0xA0)
  }

  /** The other Unicode spaces in UTF-8: U+1680, U+2000 to U+200A, U+2028, U+2029, U+202F, U+205F, U+3000. */
  predicate Space3(a: byte, b: byte, c: byte) {
    || (a == 0xE1 && b == 0x9A && c == 0x80)
    || (a == 0xE2 && b == 0x80 && (0x80 <= c <= 0x8A || c == 0xA8 || c == 0xA9 || c == 0xAF))
    || (a == 0xE2 && b == 0x81 && c == 0x9F)
    || (a == 0xE3 && b == 0x80 && c == 0x80)
  }

  function TrimLeft(b: bytes): bytes {
    if b != [] && AsciiSpace(b[0]) then TrimLeft(b[1..])
    else if |b| >= 2 && Space2(b[0], b[1]) then TrimLeft(b[2..])
    else if |b| >= 3 && Space3(b[0], b[1], b[2]) then TrimLeft(b[3..])
    else b
  }

  function TrimRight(b: bytes): bytes {
    var n := |b|;
    if n >= 1 && AsciiSpace(b[n - 1]) then TrimRight(b[..n - 1])
    else if n >= 2 && Space2(b[n - 2], b[n - 1]) then TrimRight(b[..n - 2])
    else if n >= 3 && Space3(b[n - 3], b[n - 2], b[n - 1]) then TrimRight(b[..n - 3])
    else b
  }

  function Trim(b: bytes): bytes {
    TrimRight(TrimLeft(b))
  }

  // ----- hexadecimal

  function Digit(b: byte): Option<nat> {
    if 48 <= b <= 57 then Some(b - 48)
    else if 97 <= b <= 102 then Some(b - 87)
    else if 65 <= b <= 70 then Some(b - 55)
    else None
  }

  predicate Hex(b: bytes) {
    forall i | 0 <= i < |b| :: Digit(b[i]).Some?
  }

  function Nibble(b: byte): (n: nat)
    ensures n < 16
  {
    match Digit(b) case Some(d) => d case None => 0
  }

  /** The bytes spelled by an even number of hex digits. */
  function Unhex(b: bytes): (r: bytes)
    requires |b| % 2 == 0
    ensures |r| == |b| / 2
  {
    seq(|b| / 2, i requires 0 <= i < |b| / 2 => 16 * Nibble(b[2 * i]) + Nibble(b[2 * i + 1]))
  }

  /** `hex.Decode`: fails at the first bad pair, and on an odd length. */
  method DecodeHex(src: bytes) returns (ok: bool, dst: bytes)
    ensures ok <==> |src| % 2 == 0 && Hex(src)
    ensures ok ==> dst == Unhex(src)
  {
    dst := [];
    var j := 1;
    while j < |src|
      invariant j % 2 == 1 && 1 <= j <= |src| + 1
      invariant |dst| == j / 2
      invariant forall i | 0 <= i < j - 1 :: Digit(src[i]).Some?
      invariant forall i | 0 <= i < |dst| :: dst[i] == 16 * Nibble(src[2 * i]) + Nibble(src[2 * i + 1])
    {
      if Digit(src[j - 1]).None? || Digit(src[j]).None? {
        return false, [];
      }
      dst := dst + [16 * Nibble(src[j - 1]) + Nibble(src[j])];
      j := j + 2;
    }
    if |src| % 2 == 1 {
      return false, [];
    }
    ok := true;
  }

  // ----- the keys of a file

  /** A line holds a key exactly if, trimmed, it is 64 hex digits. */
  function KeyOf(line: bytes): Option<bytes> {
    var t := Trim(line);
    if |t| == 64 && Hex(t) then Some(Unhex(t)) else None
  }

  function KeysOf(lines: seq<bytes>): seq<bytes> {
    if lines == [] then []
    else (match KeyOf(lines[0]) case Some(k) => [k] case None => []) + KeysOf(lines[1..])
  }

  /** The valid keys of a file, in order. */
  function Keys(content: bytes): seq<bytes> {
    KeysOf(Lines(Unified(content)))
  }

  /** Keys filed under their hashes, the last one winning. */
  function Filed(hash: bytes -> bytes, ks: seq<bytes>): map<bytes, bytes> {
    if ks == [] then map[] else Filed(hash, ks[..|ks| - 1])[hash(ks[|ks| - 1]) := ks[|ks| - 1]]
  }

  /** One turn of the loop with its own tests: blank, comment, decoded length, hex decoding. */
  method ParseLine(line: bytes) returns (key: Option<bytes>)
    ensures key == KeyOf(line)
  {
    var b := Trim(line);
    if |b| == 0 || b[0] == HASH_SIGN || |b| / 2 != 32 {
      return None;
    }
    var ok, dst := DecodeHex(b);
    if !ok || |dst| != 32 {
      return None;
    }
    return Some(dst);
  }

  /** The loop of `ReadTrustedKeys`; `hash` is SHA-256. */
  method ReadTrusted(content: bytes, hash: bytes -> bytes) returns (res: map<bytes, bytes>)
    ensures res == Filed(hash, Keys(content))
  {
    hide KeyOf, KeysOf, Filed, Lines, Unified;
    var lines := Lines(Unified(content));
    res := map[];
    ghost var seen: seq<bytes> := [];
    NoKeys(hash);
    for i := 0 to |lines|
      invariant res == Filed(hash, seen)
      invariant Keys(content) == seen + KeysOf(lines[i..])
    {
      assert lines[i..] == [lines[i]] + lines[i + 1..];
      KeysOfCons(lines[i], lines[i + 1..]);
      var key := ParseLine(lines[i]);
      match key {
        case None =>
        case Some(k) =>
          FileOne(hash, seen, k);
          assert seen + ([k] + KeysOf(lines[i + 1..])) == seen + [k] + KeysOf(lines[i + 1..]);
          seen := seen + [k];
          res := res[hash(k) := k];
      }
    }
    assert lines[|lines|..] == [];
    assert Keys(content) == seen;
  }

  lemma NoKeys(hash: bytes -> bytes)
    ensures KeysOf([]) == [] && Filed(hash, []) == map[]
  {
  }

  lemma FileOne(hash: bytes -> bytes, ks: seq<bytes>, k: bytes)
    ensures Filed(hash, ks + [k]) == Filed(hash, ks)[hash(k) := k]
  {
    assert (ks + [k])[..|ks|] == ks;
  }

  // ----- exactness

  /** Each entry is filed under its own hash, and the hashes are those of the valid keys. */
  lemma {:induction false} FiledExactly(hash: bytes -> bytes, ks: seq<bytes>)
    ensures forall h | h in Filed(hash, ks) :: hash(Filed(hash, ks)[h]) == h && Filed(hash, ks)[h] in ks
    ensures forall i | 0 <= i < |ks| :: hash(ks[i]) in Filed(hash, ks)
  {
    if ks != [] {
      FiledExactly(hash, ks[..|ks| - 1]);
    }
  }

  /** No two of the keys share a hash. */
  predicate Separate(hash: bytes -> bytes, ks: seq<bytes>) {
    forall i, j | 0 <= i < |ks| && 0 <= j < |ks| && hash(ks[i]) == hash(ks[j]) :: ks[i] == ks[j]
  }

  /** Order and repetition of the keys do not matter. */
  lemma OnlyTheSetMatters(hash: bytes -> bytes, a: seq<bytes>, b: seq<bytes>)
    requires Separate(hash, a) && Separate(hash, b)
    requires forall k :: k in a <==> k in b
    ensures Filed(hash, a) == Filed(hash, b)
  {
    FiledExactly(hash, a);
    FiledExactly(hash, b);
    var fa, fb := Filed(hash, a), Filed(hash, b);
    forall h | h in fa ensures h in fb && fb[h] == fa[h] {
      SameEntry(hash, a, b, h);
    }
    forall h | h in fb ensures h in fa {
      SameEntry(hash, b, a, h);
    }
  }

  lemma SameEntry(hash: bytes -> bytes, a: seq<bytes>, b: seq<bytes>, h: bytes)
    requires Separate(hash, b) && (forall k | k in a :: k in b)
    requires h in Filed(hash, a)
    ensures h in Filed(hash, b) && Filed(hash, b)[h] == Filed(hash, a)[h]
  {
    FiledExactly(hash, a);
    FiledExactly(hash, b);
    var k := Filed(hash, a)[h];
    var i :| 0 <= i < |b| && b[i] == k;
    assert hash(b[i]) == h;
    var j :| 0 <= j < |b| && b[j] == Filed(hash, b)[h];
    assert hash(b[j]) == hash(b[i]);
  }

  // ----- line endings

  predicate Plain(line: bytes) {
    forall i | 0 <= i < |line| :: line[i] != LF && line[i] != CR
  }

  predicate AllPlain(ls: seq<bytes>) {
    forall i | 0 <= i < |ls| :: Plain(ls[i])
  }

  /** A file with the given lines, each closed by `eol`. */
  function File(ls: seq<bytes>, eol: bytes): bytes {
    if ls == [] then [] else ls[0] + eol + File(ls[1..], eol)
  }

  predicate Eol(eol: bytes) {
    eol == [LF] || eol == [CR] || eol == [CR, LF]
  }

  lemma {:induction false} UnifiedConcat(a: bytes, b: bytes)
    ensures Unified(a + b) == Unified(a) + Unified(b)
  {
    if a == [] {
      assert a + b == b;
    } else {
      UnifiedConcat(a[1..], b);
      assert (a + b)[1..] == a[1..] + b;
    }
  }

  lemma {:induction false} UnifiedPlain(line: bytes)
    requires Plain(line)
    ensures Unified(line) == line
  {
    if line != [] {
      UnifiedPlain(line[1..]);
      assert line == [line[0]] + line[1..];
    }
  }

  lemma {:induction false} FirstLine(line: bytes, rest: bytes)
    requires Plain(line)
    ensures Lines(line + [LF] + rest) == [line] + Lines(rest)
  {
    var all := line + [LF] + rest;
    if line == [] {
      assert all == [LF] + rest;
      assert all[1..] == rest;
    } else {
      FirstLine(line[1..], rest);
      assert all[1..] == line[1..] + [LF] + rest;
      assert all[0] == line[0];
      assert [line[0]] + line[1..] == line;
    }
  }

  lemma BlankHasNoKey()
    ensures KeyOf([]) == None
  {
    assert Trim([]) == [];
  }

  lemma {:induction false} OneLine(line: bytes)
    requires Plain(line)
    ensures Lines(line) == [line]
  {
    if line != [] {
      OneLine(line[1..]);
      assert [line[0]] + line[1..] == line;
    }
  }

  /** A file written with LF, CR or CRLF, with or without a last line ending, holds exactly the keys of its lines. */
  lemma {:induction false} EndingsDoNotMatter(ls: seq<bytes>, last: bytes, eol: bytes)
    requires AllPlain(ls) && Plain(last) && Eol(eol)
    ensures Keys(File(ls, eol) + last) == KeysOf(ls + [last])
  {
    hide KeyOf;
    BlankHasNoKey();
    if ls == [] {
      assert File(ls, eol) + last == last && ls + [last] == [last];
      UnifiedPlain(last);
      OneLine(last);
    } else {
      var rest := File(ls[1..], eol) + last;
      EndingsDoNotMatter(ls[1..], last, eol);
      assert File(ls, eol) + last == ls[0] + eol + rest;
      assert (ls + [last])[1..] == ls[1..] + [last];
      UnifiedConcat(ls[0] + eol, rest);
      UnifiedConcat(ls[0], eol);
      UnifiedPlain(ls[0]);
      EolUnified(eol);
      AfterLine(ls[0], Unified(rest), |eol| == 2);
    }
  }

  /** A line, its end, and possibly the empty line that a CRLF leaves behind. */
  lemma AfterLine(line: bytes, u: bytes, twice: bool)
    requires Plain(line)
    ensures KeysOf(Lines(line + (if twice then [LF, LF] else [LF]) + u)) ==
            (match KeyOf(line) case Some(k) => [k] case None => []) + KeysOf(Lines(u))
  {
    hide KeyOf, Lines, KeysOf;
    BlankHasNoKey();
    if twice {
      var v := [] + [LF] + u;
      assert line + [LF, LF] + u == line + [LF] + v;
      FirstLine(line, v);
      FirstLine([], u);
      KeysOfCons(line, [[]] + Lines(u));
      KeysOfCons([], Lines(u));
    } else {
      FirstLine(line, u);
      KeysOfCons(line, Lines(u));
    }
  }

  lemma EolUnified(eol: bytes)
    requires Eol(eol)
    ensures Unified(eol) == if |eol| == 1 then [LF] else [LF, LF]
  {
    if |eol| == 2 {
      assert eol[1..] == [LF];
    }
  }

  lemma KeysOfCons(line: bytes, more: seq<bytes>)
    ensures KeysOf([line] + more) == (match KeyOf(line) case Some(k) => [k] case None => []) + KeysOf(more)
  {
    assert ([line] + more)[1..] == more;
  }

  /** Lines without a key - blank, comment, malformed, too long - can be put anywhere without changing the result. */
  lemma {:induction false} NoiseDoesNotMatter(before: seq<bytes>, line: bytes, after: seq<bytes>)
    requires KeyOf(line).None?
    ensures KeysOf(before + [line] + after) == KeysOf(before + after)
  {
    hide KeyOf;
    var all := before + [line] + after;
    if before == [] {
      assert all == [line] + after && before + after == after;
      KeysOfCons(line, after);
    } else {
      NoiseDoesNotMatter(before[1..], line, after);
      assert all[1..] == before[1..] + [line] + after;
      assert (before + after)[1..] == before[1..] + after;
    }
  }

  /** A blank line, a comment, or anything that is not 64 hex digits (65 digits, for one). */
  predicate Noise(line: bytes) {
    var t := Trim(line);
    t == [] || t[0] == HASH_SIGN || |t| != 64 || !Hex(t)
  }

  /** Such lines, and no others, can be put anywhere into a file without changing its keys. */
  lemma OnlyNoiseIsIgnored(line: bytes)
    ensures (forall before, after :: KeysOf(before + [line] + after) == KeysOf(before + after)) <==> Noise(line)
  {
    assert KeyOf(line).None? <==> Noise(line);
    hide KeyOf, Noise;
    if Noise(line) {
      forall before, after ensures KeysOf(before + [line] + after) == KeysOf(before + after) {
        NoiseDoesNotMatter(before, line, after);
      }
    } else {
      var none: seq<bytes> := [];
      KeysOfCons(line, none);
      assert none + [line] + none == [line] + none && none + none == none;
      assert KeysOf(none + [line] + none) != KeysOf(none + none);
    }
  }

  // ----- spelling

  const LOWER := "0123456789abcdef"
  const UPPER := "0123456789ABCDEF"

  /** A byte is a hex digit exactly if it is one of the sixteen, in either case, and its value is its place. */
  lemma DigitExactly(b: byte, d: nat)
    ensures Digit(b) == Some(d) <==> d < 16 && (b == LOWER[d] as int || b == UPPER[d] as int)
  {
  }

  function Figure(n: nat, upper: bool): byte
    requires n < 16
  {
    Ascii(if upper then UPPER else LOWER)[n]
  }

  /** A key as it is written into the file, in lower or upper case. */
  function Spelled(k: bytes, upper: bool): (s: bytes)
    ensures |s| == 2 * |k|
  {
    seq(2 * |k|, i requires 0 <= i < 2 * |k| => Figure(if i % 2 == 0 then k[i / 2] / 16 else k[i / 2] % 16, upper))
  }

  lemma FigureIsDigit(n: nat, upper: bool)
    requires n < 16
    ensures Digit(Figure(n, upper)) == Some(n)
  {
    DigitExactly(Figure(n, upper), n);
  }

  lemma SpelledAt(k: bytes, upper: bool, i: nat)
    requires i < |k|
    ensures Digit(Spelled(k, upper)[2 * i]) == Some(k[i] / 16) && Digit(Spelled(k, upper)[2 * i + 1]) == Some(k[i] % 16)
  {
    hide Digit, Figure;
    assert 2 * i / 2 == i && (2 * i + 1) / 2 == i;
    FigureIsDigit(k[i] / 16, upper);
    FigureIsDigit(k[i] % 16, upper);
  }

  /** What is spelled reads back. */
  lemma SpelledReads(k: bytes, upper: bool)
    ensures Hex(Spelled(k, upper)) && Unhex(Spelled(k, upper)) == k
  {
    hide Digit, Spelled;
    var s := Spelled(k, upper);
    forall i | 0 <= i < |s| ensures Digit(s[i]).Some? {
      SpelledAt(k, upper, i / 2);
      assert i == 2 * (i / 2) || i == 2 * (i / 2) + 1;
    }
    forall i | 0 <= i < |k| ensures Unhex(s)[i] == k[i] {
      SpelledAt(k, upper, i);
    }
  }

  lemma DigitsAreNotTrimmed(s: bytes)
    requires Hex(s)
    ensures Trim(s) == s
  {
    if s != [] {
      assert Digit(s[0]).Some? && Digit(s[|s| - 1]).Some?;
    }
  }

  /** The lines of a file that lists keys. */
  function Listed(ks: seq<bytes>, upper: bool): seq<bytes> {
    if ks == [] then [] else [Spelled(ks[0], upper)] + Listed(ks[1..], upper)
  }

  lemma {:induction false} ListedReads(ks: seq<bytes>, upper: bool)
    requires forall i | 0 <= i < |ks| :: |ks[i]| == 32
    ensures KeysOf(Listed(ks, upper) + [[]]) == ks && AllPlain(Listed(ks, upper))
  {
    hide KeyOf, Spelled, Hex, Digit;
    if ks == [] {
      BlankHasNoKey();
      KeysOfCons([], []);
      assert [[]] + [] == Listed(ks, upper) + [[]];
    } else {
      ListedReads(ks[1..], upper);
      SpelledReads(ks[0], upper);
      SpelledKey(ks[0], upper);
      KeysOfCons(Spelled(ks[0], upper), Listed(ks[1..], upper) + [[]]);
      assert Listed(ks, upper) + [[]] == [Spelled(ks[0], upper)] + (Listed(ks[1..], upper) + [[]]);
      assert [ks[0]] + ks[1..] == ks;
    }
  }

  lemma SpelledKey(k: bytes, upper: bool)
    requires |k| == 32
    ensures KeyOf(Spelled(k, upper)) == Some(k) && Plain(Spelled(k, upper))
  {
    var s := Spelled(k, upper);
    SpelledReads(k, upper);
    hide Spelled;
    DigitsAreNotTrimmed(s);
    forall i | 0 <= i < |s| ensures s[i] != LF && s[i] != CR {
      assert Digit(s[i]).Some?;
    }
  }

  /** A file that lists keys, in either case and with any line ending, holds exactly these keys. */
  lemma KeysReadBack(ks: seq<bytes>, upper: bool, eol: bytes)
    requires (forall i | 0 <= i < |ks| :: |ks[i]| == 32) && Eol(eol)
    ensures Keys(File(Listed(ks, upper), eol)) == ks
  {
    hide Keys, KeysOf, File, Listed;
    ListedReads(ks, upper);
    EndingsDoNotMatter(Listed(ks, upper), [], eol);
    assert File(Listed(ks, upper), eol) + [] == File(Listed(ks, upper), eol);
  }

  // ----- white space around a key

  lemma {:induction false} TrimLeftKeepsEnd(b: bytes, d: byte)
    requires AsciiSpace(d)
    ensures TrimLeft(b + [d]) == if TrimLeft(b) == [] then [] else TrimLeft(b) + [d]
    decreases |b|
  {
    var all := b + [d];
    if b == [] {
      assert all[1..] == [];
    } else if AsciiSpace(b[0]) {
      TrimLeftKeepsEnd(b[1..], d);
      assert all[1..] == b[1..] + [d];
    } else if |b| >= 2 && Space2(b[0], b[1]) {
      TrimLeftKeepsEnd(b[2..], d);
      assert all[2..] == b[2..] + [d];
    } else if |b| >= 3 && Space3(b[0], b[1], b[2]) {
      TrimLeftKeepsEnd(b[3..], d);
      assert all[3..] == b[3..] + [d];
    }
  }

  /** Spaces, tabs and other ASCII white space around a line do not matter. */
  lemma PaddingDoesNotMatter(line: bytes, c: byte, d: byte)
    requires (9 <= c <= 13 || c == 32) && (9 <= d <= 13 || d == 32)
    ensures KeyOf([c] + line) == KeyOf(line) && KeyOf(line + [d]) == KeyOf(line)
  {
    assert ([c] + line)[1..] == line;
    TrimLeftKeepsEnd(line, d);
    var x := TrimLeft(line);
    if x != [] {
      assert (x + [d])[..|x|] == x;
    }
    assert Trim([c] + line) == Trim(line) && Trim(line + [d]) == Trim(line);
  }

  /** The Unicode spaces beyond ASCII. */
  predicate UnicodeSpace(c: nat) {
    || c == 0x85 || c == 0xA0 || c == 0x1680 || 0x2000 <= c <= 0x200A
    || c == 0x2028 || c == 0x2029 || c == 0x202F || c == 0x205F || c == 0x3000
  }

  /** UTF-8 of a code point with two or three bytes. */
  function Utf8(c: nat): bytes
    requires 0x80 <= c < 0x1_0000
  {
    if c < 0x800 then [0xC0 + c / 64, 0x80 + c % 64]
    else [0xE0 + c / 4096, 0x80 + c / 64 % 64, 0x80 + c % 64]
  }

  /** A line may be indented with any Unicode space, and with no other character of these sizes. */
  lemma UnicodeIndent(line: bytes, c: nat)
    requires 0x80 <= c < 0x1_0000
    ensures UnicodeSpace(c) ==> KeyOf(Utf8(c) + line) == KeyOf(line)
    ensures !UnicodeSpace(c) ==> TrimLeft(Utf8(c) + line) == Utf8(c) + line
  {
    var all := Utf8(c) + line;
    if c < 0x800 {
      assert all[0] == 0xC0 + c / 64 && all[1] == 0x80 + c % 64;
      assert all[2..] == line;
      assert Space2(all[0], all[1]) <==> UnicodeSpace(c);
    } else {
      assert all[0] == 0xE0 + c / 4096 && all[1] == 0x80 + c / 64 % 64 && all[2] == 0x80 + c % 64;
      assert all[3..] == line;
      ThreeBytes(c);
    }
  }

  lemma ThreeBytes(c: nat)
    requires 0x800 <= c < 0x1_0000
    ensures Space3(0xE0 + c / 4096, 0x80 + c / 64 % 64, 0x80 + c % 64) <==> UnicodeSpace(c)
  {
    var x, y, z := c / 4096, c / 64 % 64, c % 64;
    assert c / 64 == 64 * x + y && c == 4096 * x + 64 * y + z;
  }
}
