/** Byte strings, and the handful of standard-library text operations the server relies on. */
module Bytes {

  newtype byte = x: int | 0 <= x < 256
  type bytes = seq<byte>

  datatype Option<+T> = None | Some(value: T)
  datatype Result<+T, +E> = Ok(value: T) | Err(error: E)

  const CR: byte := 13
  const LF: byte := 10
  const SP: byte := 32
  const COLON: byte := 58
  const COMMA: byte := 44
  const CRLF: bytes := [CR, LF]

  // 64-bit usize.
  const USIZE_LIMIT: nat := 0x1_0000_0000_0000_0000

  /** The bytes of an ASCII literal. */
  function Ascii(s: string): bytes {
    seq(|s|, i requires 0 <= i < |s| => (s[i] as int % 256) as byte)
  }

  // ---- searching and splitting ----

  /** Position of the first `c`, or |b| when there is none. */
  function IndexOf(b: bytes, c: byte): (r: nat)
    ensures r <= |b|
    ensures r < |b| ==> b[r] == c
    ensures forall j :: 0 <= j < r ==> b[j] != c
  {
    if b == [] then 0 else if b[0] == c then 0 else 1 + IndexOf(b[1..], c)
  }

  lemma IndexOfAt(b: bytes, c: byte, k: nat)
    requires k <= |b|
    requires k < |b| ==> b[k] == c
    requires forall j :: 0 <= j < k ==> b[j] != c
    ensures IndexOf(b, c) == k
  {
    var r := IndexOf(b, c);
    assert !(r < k) && !(k < r);
  }

  /** `slice::split`: always at least one part. */
  function Split(b: bytes, sep: byte): (parts: seq<bytes>)
    ensures |parts| >= 1
    decreases |b|
  {
    var k := IndexOf(b, sep);
    if k == |b| then [b] else [b[..k]] + Split(b[k + 1..], sep)
  }

  lemma SplitFirst(x: bytes, sep: byte, rest: bytes)
    requires sep !in x
    ensures Split(x + [sep] + rest, sep) == [x] + Split(rest, sep)
  {
    var b := x + [sep] + rest;
    IndexOfAt(b, sep, |x|);
    assert b[..|x|] == x && b[|x| + 1..] == rest;
  }

  lemma SplitLast(x: bytes, sep: byte)
    requires sep !in x
    ensures Split(x, sep) == [x]
  {
    IndexOfAt(x, sep, |x|);
  }

  // ---- ASCII case folding ----

  function Lower(c: byte): byte {
    if 65 <= c <= 90 then c + 32 else c
  }

  predicate EqIgnoreCase(a: bytes, b: bytes) {
    |a| == |b| && forall i :: 0 <= i < |a| ==> Lower(a[i]) == Lower(b[i])
  }

  // ---- str::trim (Unicode White_Space, on UTF-8 bytes) ----

  /** The UTF-8 encodings of the code points with the White_Space property. */
  predicate WhiteSpaceChar(c: bytes) {
    || (|c| == 1 && (9 <= c[0] <= 13 || c[0] == 32))
    || (|c| == 2 && c[0] == 0xC2 && (c[1] == 0x85 || c[1] == 0xA0))
    || (|c| == 3 && (
          || (c[0] == 0xE1 && c[1] == 0x9A && c[2] == 0x80)
          || (c[0] == 0xE2 && c[1] == 0x80 && (0x80 <= c[2] <= 0x8A || 0xA8 <= c[2] <= 0xA9 || c[2] == 0xAF))
          || (c[0] == 0xE2 && c[1] == 0x81 && c[2] == 0x9F)
          || (c[0] == 0xE3 && c[1] == 0x80 && c[2] == 0x80)))
  }

  function LeadingSpace(b: bytes): (n: nat)
    ensures n <= |b|
  {
    if |b| >= 1 && WhiteSpaceChar(b[..1]) then 1
    else if |b| >= 2 && WhiteSpaceChar(b[..2]) then 2
    else if |b| >= 3 && WhiteSpaceChar(b[..3]) then 3
    else 0
  }

  function TrailingSpace(b: bytes): (n: nat)
    ensures n <= |b|
  {
    if |b| >= 1 && WhiteSpaceChar(b[|b| - 1..]) then 1
    else if |b| >= 2 && WhiteSpaceChar(b[|b| - 2..]) then 2
    else if |b| >= 3 && WhiteSpaceChar(b[|b| - 3..]) then 3
    else 0
  }

  function TrimStart(b: bytes): bytes
    decreases |b|
  {
    if LeadingSpace(b) == 0 then b else TrimStart(b[LeadingSpace(b)..])
  }

  function TrimEnd(b: bytes): bytes
    decreases |b|
  {
    if TrailingSpace(b) == 0 then b else TrimEnd(b[..|b| - TrailingSpace(b)])
  }

  function Trim(b: bytes): bytes {
    TrimEnd(TrimStart(b))
  }

  /** No white space at either end: what `trim` leaves alone. */
  predicate Trimmed(b: bytes) {
    LeadingSpace(b) == 0 && TrailingSpace(b) == 0
  }

  lemma TrimOneSpace(v: bytes)
    requires Trimmed(v)
    ensures Trim(v) == v && Trim([SP] + v) == v
  {
    var s := [SP] + v;
    assert s[..1] == [SP] && s[1..] == v;
  }

  lemma TrimEndAscii(v: bytes, c: byte)
    requires 9 <= c <= 13 || c == 32
    ensures TrimEnd(v + [c]) == TrimEnd(v)
  {
    var s := v + [c];
    assert s[|s| - 1..] == [c] && s[..|s| - 1] == v;
  }

  /** A trimmed value written after ": " and before CRLF is read back as it was. */
  lemma TrimField(v: bytes)
    requires Trimmed(v)
    ensures Trim([SP] + v + CRLF) == v
  {
    if v == [] {
      TrimAllAscii([SP, CR, LF]);
      assert [SP] + v + CRLF == [SP, CR, LF];
    } else {
      var s := [SP] + v + CRLF;
      assert s[..1] == [SP] && s[1..] == v + CRLF;
      LeadingSpaceKept(v, CRLF);
      assert TrimStart(s) == TrimStart(v + CRLF) == v + CRLF;
      assert v + CRLF == (v + [CR]) + [LF];
      TrimEndAscii(v + [CR], LF);
      TrimEndAscii(v, CR);
    }
  }

  lemma TrimAllAscii(b: bytes)
    requires forall i :: 0 <= i < |b| ==> 9 <= b[i] <= 13 || b[i] == 32
    ensures Trim(b) == []
  {
    TrimStartAllAscii(b);
  }

  lemma {:induction false} TrimStartAllAscii(b: bytes)
    requires forall i :: 0 <= i < |b| ==> 9 <= b[i] <= 13 || b[i] == 32
    ensures TrimStart(b) == []
  {
    if b != [] {
      assert b[..1] == [b[0]];
      TrimStartAllAscii(b[1..]);
    }
  }

  /** Appending CR LF to a non-empty text that starts with no white space gives one too. */
  lemma LeadingSpaceKept(v: bytes, tail: bytes)
    requires v != [] && LeadingSpace(v) == 0
    requires tail == CRLF
    ensures LeadingSpace(v + tail) == 0
  {
    var s := v + tail;
    assert s[..1] == v[..1];
    if |v| >= 2 { assert s[..2] == v[..2]; }
    if |v| >= 3 { assert s[..3] == v[..3]; }
    if |s| >= 3 { assert s[..3][0] == v[0] && s[..3][1] == s[1] && s[..3][2] == s[2]; }
    assert |v| == 1 ==> s[1] == CR;
    assert |v| == 2 ==> s[2] == CR;
  }

  // ---- UTF-8 ----

  predicate Continuation(c: byte) { 0x80 <= c <= 0xBF }

  /** Length of the well-formed UTF-8 character `b` starts with (RFC 3629, section 4), or 0. */
  function Utf8Char(b: bytes): (n: nat)
    ensures n <= |b|
  {
    if |b| >= 1 && b[0] <= 0x7F then 1
    else if |b| >= 2 && 0xC2 <= b[0] <= 0xDF && Continuation(b[1]) then 2
    else if |b| >= 3 && 0xE0 <= b[0] <= 0xEF && Continuation(b[1]) && Continuation(b[2])
         && (b[0] == 0xE0 ==> b[1] >= 0xA0) && (b[0] == 0xED ==> b[1] <= 0x9F) then 3
    else if |b| >= 4 && 0xF0 <= b[0] <= 0xF4 && Continuation(b[1]) && Continuation(b[2]) && Continuation(b[3])
         && (b[0] == 0xF0 ==> b[1] >= 0x90) && (b[0] == 0xF4 ==> b[1] <= 0x8F) then 4
    else 0
  }

  /** `str::from_utf8` accepts. */
  predicate ValidUtf8(b: bytes)
    decreases |b|
  {
    b == [] || (Utf8Char(b) > 0 && ValidUtf8(b[Utf8Char(b)..]))
  }

  lemma {:induction false} ValidUtf8Concat(a: bytes, b: bytes)
    requires ValidUtf8(a) && ValidUtf8(b)
    ensures ValidUtf8(a + b)
    decreases |a|
  {
    if a == [] {
      assert a + b == b;
    } else {
      var n := Utf8Char(a);
      assert Utf8Char(a + b) == n;
      assert (a + b)[n..] == a[n..] + b;
      ValidUtf8Concat(a[n..], b);
    }
  }

  lemma {:induction false} ValidUtf8Ascii(a: bytes)
    requires forall i :: 0 <= i < |a| ==> a[i] < 128
    ensures ValidUtf8(a)
  {
    if a != [] { ValidUtf8Ascii(a[1..]); }
  }

  // ---- decimal numbers ----

  predicate IsDigit(c: byte) { 48 <= c <= 57 }

  predicate Digits(d: bytes) {
    d != [] && forall i :: 0 <= i < |d| ==> IsDigit(d[i])
  }

  function DigitsValue(b: bytes): nat
    requires forall i :: 0 <= i < |b| ==> IsDigit(b[i])
  {
    if b == [] then 0
    else
      assert IsDigit(b[|b| - 1]);
      10 * DigitsValue(b[..|b| - 1]) + (b[|b| - 1] as int - 48)
  }

  /** `str::parse::<usize>`: an optional '+', at least one digit, no overflow. */
  function ParseUsize(b: bytes): (r: Option<nat>)
    ensures r.Some? ==> r.value < USIZE_LIMIT
  {
    var digits := if |b| > 1 && b[0] == '+' as byte then b[1..] else b;
    if !Digits(digits) then None
    else if DigitsValue(digits) >= USIZE_LIMIT then None
    else Some(DigitsValue(digits))
  }

  /** The shortest decimal form of `n`. */
  function Decimal(n: nat): (r: bytes)
    ensures r != [] && forall i :: 0 <= i < |r| ==> IsDigit(r[i])
  {
    if n < 10 then [(48 + n) as byte]
    else Decimal(n / 10) + [(48 + n % 10) as byte]
  }

  lemma {:induction false} DecimalValue(n: nat)
    ensures DigitsValue(Decimal(n)) == n
  {
    var d := Decimal(n);
    if n < 10 {
      assert d[..0] == [];
    } else {
      DecimalValue(n / 10);
      assert d[..|d| - 1] == Decimal(n / 10);
    }
  }

  /** Printing and parsing a number are inverse, for every usize. */
  lemma ParseDecimal(n: nat)
    requires n < USIZE_LIMIT
    ensures ParseUsize(Decimal(n)) == Some(n)
  {
    DecimalValue(n);
    assert Decimal(n)[0] != '+' as byte;
  }

  lemma DecimalTrimmed(n: nat)
    ensures Trimmed(Decimal(n))
  {
    assert forall i :: 0 <= i < |Decimal(n)| ==> IsDigit(Decimal(n)[i]);
    VisibleTrimmed(Decimal(n));
  }

  /** Visible ASCII is no white space. */
  lemma VisibleTrimmed(d: bytes)
    requires forall i :: 0 <= i < |d| ==> 33 <= d[i] < 128
    ensures Trimmed(d)
  {
  }
}
