/** The GnuPG keygrip (util/keys.go): canonical S-expressions and fixed-size big numbers. */
module KeyGrip {
  import opened Options
  import opened Bytes
  import TrustedKeys

  datatype Part = Part(name: bytes, value: bytes)

  const COLON: byte := 58
  const OPEN: byte := 40
  const CLOSE: byte := 41

  // ----- decimal lengths

  /** `%d` for a length. */
  function Decimal(n: nat): (d: bytes)
    ensures d != [] && forall i | 0 <= i < |d| :: 48 <= d[i] <= 57
  {
    if n < 10 then [48 + n] else Decimal(n / 10) + [48 + n % 10]
  }

  function Number(d: bytes): int {
    if d == [] then 0 else 10 * Number(d[..|d| - 1]) + (d[|d| - 1] as int - 48)
  }

  lemma {:induction false} DecimalReads(n: nat)
    ensures Number(Decimal(n)) == n
  {
    if n < 10 {
      assert Decimal(n)[..0] == [];
    } else {
      DecimalReads(n / 10);
      assert Decimal(n)[..|Decimal(n)| - 1] == Decimal(n / 10);
    }
  }

  /** A length prefix ends at its colon, so it can be told from what follows. */
  lemma PrefixUnique(m: nat, x: bytes, n: nat, y: bytes)
    requires Decimal(m) + [COLON] + x == Decimal(n) + [COLON] + y
    ensures m == n && x == y
  {
    var a, b := Decimal(m), Decimal(n);
    var all := a + [COLON] + x;
    assert all[|a|] == COLON && all[|b|] == COLON;
    assert forall i | 0 <= i < |a| :: all[i] == a[i];
    assert forall i | 0 <= i < |b| :: all[i] == b[i];
    assert |a| == |b|;
    assert a == all[..|a|] == b;
    DecimalReads(m);
    DecimalReads(n);
    assert x == all[|a| + 1..] == y;
  }

  // ----- S-expressions (canonical form, section 6.1 of draft-rivest-sexp-00)

  /** A length-prefixed string. */
  function Atom(s: bytes): bytes {
    Decimal(|s|) + [COLON] + s
  }

  function Sexp(p: Part): bytes {
    [OPEN] + Atom(p.name) + Atom(p.value) + [CLOSE]
  }

  function SexpAll(ps: seq<Part>): bytes {
    if ps == [] then [] else Sexp(ps[0]) + SexpAll(ps[1..])
  }

  lemma AtomUnique(s: bytes, x: bytes, t: bytes, y: bytes)
    requires Atom(s) + x == Atom(t) + y
    ensures s == t && x == y
  {
    assert Decimal(|s|) + [COLON] + (s + x) == Atom(s) + x;
    assert Decimal(|t|) + [COLON] + (t + y) == Atom(t) + y;
    PrefixUnique(|s|, s + x, |t|, t + y);
    assert s == (s + x)[..|s|] && t == (t + y)[..|t|];
    assert x == (s + x)[|s|..] && y == (t + y)[|t|..];
  }

  lemma SexpUnique(p: Part, x: bytes, q: Part, y: bytes)
    requires Sexp(p) + x == Sexp(q) + y
    ensures p == q && x == y
  {
    hide Atom;
    var px := Atom(p.value) + [CLOSE] + x;
    var qy := Atom(q.value) + [CLOSE] + y;
    assert (Sexp(p) + x)[1..] == Atom(p.name) + px;
    assert (Sexp(q) + y)[1..] == Atom(q.name) + qy;
    AtomUnique(p.name, px, q.name, qy);
    assert px == Atom(p.value) + ([CLOSE] + x) && qy == Atom(q.value) + ([CLOSE] + y);
    AtomUnique(p.value, [CLOSE] + x, q.value, [CLOSE] + y);
    assert x == ([CLOSE] + x)[1..] && y == ([CLOSE] + y)[1..];
  }

  /** Different lists of parts never hash the same bytes. */
  lemma {:induction false} SexpInjective(ps: seq<Part>, qs: seq<Part>)
    requires SexpAll(ps) == SexpAll(qs)
    ensures ps == qs
  {
    hide Sexp;
    if ps != [] && qs != [] {
      SexpUnique(ps[0], SexpAll(ps[1..]), qs[0], SexpAll(qs[1..]));
      SexpInjective(ps[1..], qs[1..]);
      assert ps == [ps[0]] + ps[1..] && qs == [qs[0]] + qs[1..];
    } else {
      if ps != [] { NotEmpty(ps); }
      if qs != [] { NotEmpty(qs); }
    }
  }

  // ----- reading the encoding back

  /** Where the first colon is, or the length if there is none. */
  function ColonAt(b: bytes): (i: nat)
    ensures i <= |b| && (i < |b| ==> b[i] == COLON)
  {
    if b == [] then 0 else if b[0] == COLON then 0 else 1 + ColonAt(b[1..])
  }

  datatype Read<T> = Bad | Got(value: T, rest: bytes)

  /** A decimal length, a colon, and as many bytes. */
  function ReadAtom(b: bytes): Read<bytes> {
    var c := ColonAt(b);
    if c == |b| then Bad
    else
      var n := Number(b[..c]);
      if 0 <= n <= |b| - c - 1 then Got(b[c + 1..c + 1 + n], b[c + 1 + n..]) else Bad
  }

  /** An opening parenthesis, the name, the value, a closing parenthesis. */
  function ReadPart(b: bytes): Read<Part> {
    if b == [] || b[0] != OPEN then Bad
    else match ReadAtom(b[1..])
         case Bad => Bad
         case Got(name, more) =>
           match ReadAtom(more)
           case Bad => Bad
           case Got(value, rest) => if rest != [] && rest[0] == CLOSE then Got(Part(name, value), rest[1..]) else Bad
  }

  lemma {:induction false} ColonFound(d: bytes, x: bytes)
    requires forall i | 0 <= i < |d| :: d[i] != COLON
    ensures ColonAt(d + [COLON] + x) == |d|
  {
    var b := d + [COLON] + x;
    if d != [] {
      ColonFound(d[1..], x);
      assert b[1..] == d[1..] + [COLON] + x && b[0] == d[0];
    }
  }

  lemma AtomReads(s: bytes, x: bytes)
    ensures ReadAtom(Atom(s) + x) == Got(s, x)
  {
    var d := Decimal(|s|);
    var b := Atom(s) + x;
    assert b == d + [COLON] + (s + x);
    ColonFound(d, s + x);
    DecimalReads(|s|);
    var c := |d|;
    assert b[..c] == d && b[c + 1..c + 1 + |s|] == s && b[c + 1 + |s|..] == x;
  }

  /** A part reads back as its name followed by its value, whatever comes behind it. */
  lemma PartReads(p: Part, x: bytes)
    ensures ReadPart(Sexp(p) + x) == Got(p, x)
  {
    hide Atom, ReadAtom;
    var b := Sexp(p) + x;
    assert b[1..] == Atom(p.name) + (Atom(p.value) + ([CLOSE] + x));
    AtomReads(p.name, Atom(p.value) + ([CLOSE] + x));
    AtomReads(p.value, [CLOSE] + x);
    assert ([CLOSE] + x)[1..] == x;
  }

  /** All parts up to the end or the first fault, and what is left. */
  function ReadParts(b: bytes): (seq<Part>, bytes)
    decreases |b|
  {
    match ReadPart(b)
    case Got(p, rest) =>
      if |rest| < |b| then
        var (ps, left) := ReadParts(rest);
        ([p] + ps, left)
      else ([], b)
    case Bad => ([], b)
  }

  /** The encoding reads back as the parts it was made of. */
  lemma {:induction false} PartsReadBack(ps: seq<Part>)
    ensures ReadParts(SexpAll(ps)) == (ps, [])
  {
    hide Sexp, ReadPart;
    if ps == [] {
      assert ReadPart([]) == Bad by { NothingIsBad(); }
    } else {
      PartReads(ps[0], SexpAll(ps[1..]));
      PartsReadBack(ps[1..]);
      assert |Sexp(ps[0])| > 0 by { NotEmpty([ps[0]]); SexpOne(ps[0]); }
      assert SexpAll(ps) == Sexp(ps[0]) + SexpAll(ps[1..]);
      assert [ps[0]] + ps[1..] == ps;
    }
  }

  lemma SexpOne(p: Part)
    ensures SexpAll([p]) == Sexp(p)
  {
    assert SexpAll([p][1..]) == [];
  }

  lemma NothingIsBad()
    ensures ReadPart([]) == Bad
  {
  }

  lemma NotEmpty(ps: seq<Part>)
    requires ps != []
    ensures SexpAll(ps) != []
  {
    assert |Sexp(ps[0])| > 0;
  }

  /** `compute`: fills one buffer part by part and hashes it; `hash` is SHA-1. */
  method Compute(parts: seq<Part>, hash: bytes -> bytes) returns (grip: bytes)
    ensures grip == hash(SexpAll(parts))
  {
    hide Sexp;
    var buf: bytes := [];
    for i := 0 to |parts|
      invariant SexpAll(parts) == buf + SexpAll(parts[i..])
    {
      assert parts[i..][0] == parts[i] && parts[i..][1..] == parts[i + 1..];
      buf := buf + Sexp(parts[i]);
    }
    assert parts[|parts|..] == [];
    assert buf + [] == buf;
    grip := hash(buf);
  }

  // ----- big numbers

  /** The value of MSB-first bytes. */
  function Value(b: bytes): nat {
    if b == [] then 0 else 256 * Value(b[..|b| - 1]) + b[|b| - 1]
  }

  function Zeros(n: nat): bytes {
    seq(n, _ => 0)
  }

  /** Right-aligned if there is room, otherwise the leading bytes only. */
  function Sized(data: bytes, size: nat): bytes {
    if |data| <= size then Zeros(size - |data|) + data else data[..size]
  }

  /** `bignum2bytes`: two loops over a buffer. */
  method BignumToBytes(num: bytes, size: nat) returns (r: Option<bytes>)
    ensures r == if |num| % 2 == 0 && TrustedKeys.Hex(num) then Some(Sized(TrustedKeys.Unhex(num), size)) else None
  {
    hide TrustedKeys.Unhex, TrustedKeys.Hex, Sized;
    var ok, data := TrustedKeys.DecodeHex(num);
    if !ok {
      return None;
    }
    var buf := new byte[size](_ => 0);
    for i := 0 to size
      invariant forall k | 0 <= k < i :: buf[k] == 0
    {
      buf[i] := 0;
    }
    var start := if size > |data| then size - |data| else 0;
    var i, j := start, 0;
    while i < size
      invariant start <= i <= size && j == i - start && j <= |data|
      invariant forall k | 0 <= k < start :: buf[k] == 0
      invariant forall k | start <= k < i :: buf[k] == data[k - start]
    {
      buf[i] := data[j];
      i, j := i + 1, j + 1;
    }
    r := Some(buf[..]);
    SizedBytes(r.value, data, size);
  }

  lemma SizedBytes(b: bytes, data: bytes, size: nat)
    requires var start := if size > |data| then size - |data| else 0;
             && |b| == size
             && (forall k | 0 <= k < start :: b[k] == 0)
             && (forall k | start <= k < size :: b[k] == data[k - start])
    ensures b == Sized(data, size)
  {
  }

  lemma {:induction false} ZerosAddNothing(n: nat, data: bytes)
    ensures Value(Zeros(n) + data) == Value(data)
  {
    var b := Zeros(n) + data;
    if data != [] {
      ZerosAddNothing(n, data[..|data| - 1]);
      assert b[..|b| - 1] == Zeros(n) + data[..|data| - 1];
    } else if n > 0 {
      assert b[..n - 1] == Zeros(n - 1) + [];
      ZerosAddNothing(n - 1, []);
    }
  }

  lemma {:induction false} PrefixIsSmaller(data: bytes, size: nat)
    requires size < |data|
    ensures 256 * Value(data[..size]) <= Value(data)
  {
    var init := data[..|data| - 1];
    if size < |init| {
      PrefixIsSmaller(init, size);
      assert init[..size] == data[..size];
    } else {
      assert init == data[..size];
    }
  }

  /** The number survives exactly if the bytes fit, or there is nothing to lose. */
  lemma ValueKeptExactly(data: bytes, size: nat)
    ensures Value(Sized(data, size)) == Value(data) <==> |data| <= size || Value(data) == 0
  {
    if |data| <= size {
      ZerosAddNothing(size - |data|, data);
    } else {
      PrefixIsSmaller(data, size);
    }
  }
}
