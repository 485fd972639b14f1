/** UTF-8 and white space, told by code points. */
module Unicode {
  import opened Bytes

  /** A Unicode scalar value: any code point but a surrogate. */
  predicate Scalar(c: nat) {
    c < 0xD800 || 0xE000 <= c < 0x11_0000
  }

  function Tail6(c: nat): byte {
    (0x80 + c % 64) as byte
  }

  /** How UTF-8 writes a scalar value (RFC 3629, section 3). */
  function Utf8(c: nat): (b: bytes)
    requires Scalar(c)
    ensures 1 <= |b| <= 4
  {
    if c < 0x80 then [c as byte]
    else if c < 0x800 then [(0xC0 + c / 64) as byte, Tail6(c)]
    else if c < 0x1_0000 then [(0xE0 + c / 4096) as byte, Tail6(c / 64), Tail6(c)]
    else [(0xF0 + c / 262144) as byte, Tail6(c / 4096), Tail6(c / 64), Tail6(c)]
  }

  ghost predicate Scalars(cs: seq<nat>) {
    forall i :: 0 <= i < |cs| ==> Scalar(cs[i])
  }

  function Utf8All(cs: seq<nat>): bytes
    requires forall i :: 0 <= i < |cs| ==> Scalar(cs[i])
  {
    if cs == [] then [] else Utf8(cs[0]) + Utf8All(cs[1..])
  }

  lemma CharAccepted(c: nat, rest: bytes)
    requires Scalar(c)
    ensures Utf8Char(Utf8(c) + rest) == |Utf8(c)|
  {
    if 0x800 <= c < 0x1_0000 {
      assert c / 4096 == 0 ==> c / 64 >= 32;
      assert c / 4096 == 13 ==> c / 64 < 0x360;
      ThreeTails(c);
    }
    if 0x1_0000 <= c { FourTails(c); }
  }

  lemma ThreeTails(c: nat)
    requires 0x800 <= c < 0x1_0000 && Scalar(c)
    ensures c / 4096 == 0 ==> (c / 64) % 64 >= 32
    ensures c / 4096 == 13 ==> (c / 64) % 64 < 32
  {
    assert c / 64 / 64 == c / 4096;
  }

  lemma FourTails(c: nat)
    requires 0x1_0000 <= c < 0x11_0000
    ensures c / 262144 <= 4
    ensures c / 262144 == 0 ==> (c / 4096) % 64 >= 16
    ensures c / 262144 == 4 ==> (c / 4096) % 64 < 16
  {
    assert c / 4096 / 64 == c / 262144;
  }

  lemma Apart(c: nat, h: nat, t: nat)
    requires c == h * 64 + t && t < 64
    ensures c / 64 == h && c % 64 == t
  {
  }

  lemma CharMeansScalar(b: bytes) returns (c: nat)
    requires Utf8Char(b) > 0
    ensures Scalar(c) && Utf8(c) == b[..Utf8Char(b)]
  {
    var n := Utf8Char(b);
    if n == 1 {
      c := b[0] as nat;
    } else if n == 2 {
      c := (b[0] as nat - 0xC0) * 64 + (b[1] as nat - 0x80);
      Apart(c, b[0] as nat - 0xC0, b[1] as nat - 0x80);
    } else if n == 3 {
      var h := (b[0] as nat - 0xE0) * 64 + (b[1] as nat - 0x80);
      c := h * 64 + (b[2] as nat - 0x80);
      Apart(h, b[0] as nat - 0xE0, b[1] as nat - 0x80);
      Apart(c, h, b[2] as nat - 0x80);
      assert c / 4096 == h / 64;
    } else {
      var g := (b[0] as nat - 0xF0) * 64 + (b[1] as nat - 0x80);
      var h := g * 64 + (b[2] as nat - 0x80);
      c := h * 64 + (b[3] as nat - 0x80);
      Apart(g, b[0] as nat - 0xF0, b[1] as nat - 0x80);
      Apart(h, g, b[2] as nat - 0x80);
      Apart(c, h, b[3] as nat - 0x80);
      assert c / 4096 == h / 64 && c / 262144 == g / 64;
    }
  }

  /** A text is accepted as UTF-8 if and only if it is how some scalar values are written, one after another. */
  lemma Utf8Exactly(b: bytes)
    ensures ValidUtf8(b) <==> exists cs :: Scalars(cs) && Utf8All(cs) == b
  {
    if ValidUtf8(b) { var cs := Decoded(b); }
    if cs :| Scalars(cs) && Utf8All(cs) == b { EncodedIsValid(cs); }
  }

  lemma {:induction false} Decoded(b: bytes) returns (cs: seq<nat>)
    requires ValidUtf8(b)
    ensures Scalars(cs) && Utf8All(cs) == b
    decreases |b|
  {
    hide Utf8, Utf8Char;
    if b == [] {
      cs := [];
    } else {
      var c := CharMeansScalar(b);
      var others := Decoded(b[Utf8Char(b)..]);
      cs := [c] + others;
      assert cs[1..] == others && b == b[..Utf8Char(b)] + b[Utf8Char(b)..];
    }
  }

  lemma {:induction false} EncodedIsValid(cs: seq<nat>)
    requires Scalars(cs)
    ensures ValidUtf8(Utf8All(cs))
    decreases |cs|
  {
    hide Utf8, Utf8Char;
    if cs != [] {
      var first, rest := Utf8(cs[0]), Utf8All(cs[1..]);
      CharAccepted(cs[0], rest);
      assert (first + rest)[|first|..] == rest;
      EncodedIsValid(cs[1..]);
    }
  }

  /** The code points with the White_Space property. */
  predicate IsSpace(c: nat) {
    || 9 <= c <= 13 || c == 0x20 || c == 0x85 || c == 0xA0 || c == 0x1680 || 0x2000 <= c <= 0x200A
    || c == 0x2028 || c == 0x2029 || c == 0x202F || c == 0x205F || c == 0x3000
  }

  /** The white space that trimming takes off is what UTF-8 writes for those. */
  lemma SpacesExactly(b: bytes)
    ensures WhiteSpaceChar(b) <==> exists c: nat :: Scalar(c) && IsSpace(c) && b == Utf8(c)
  {
    if WhiteSpaceChar(b) {
      assert Utf8Char(b) == |b|;
      var c := CharMeansScalar(b);
      assert b[..|b|] == b;
      SpaceWhen(c);
    }
    if c: nat :| Scalar(c) && IsSpace(c) && b == Utf8(c) { SpaceWhen(c); }
  }

  lemma SpaceWhen(c: nat)
    requires Scalar(c)
    ensures IsSpace(c) <==> WhiteSpaceChar(Utf8(c))
  {
  }
}
