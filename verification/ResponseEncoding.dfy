/** The response encoder and its decimal printer. */
module ResponseEncoding {
  import opened Bytes
  import opened Http

  // ---- what is written ----

  predicate Owned(h: Header) {
    EqIgnoreCase(h.name, Ascii("content-length")) || EqIgnoreCase(h.name, Ascii("connection"))
  }

  function FieldLine(name: bytes, value: bytes): bytes {
    name + [COLON] + ([SP] + value + CRLF)
  }

  function UserFields(hs: Headers): bytes {
    if hs == [] then []
    else (if Owned(hs[0]) then [] else FieldLine(hs[0].name, hs[0].value)) + UserFields(hs[1..])
  }

  function StatusLine(status: StatusCode): bytes {
    Ascii("HTTP/1.1 ") + Decimal(status) + [SP] + Reason(status) + CRLF
  }

  function OwnFields(length: nat, keepAlive: bool): bytes {
    FieldLine(Ascii("Content-Length"), Decimal(length))
    + FieldLine(Ascii("Connection"), if keepAlive then Ascii("keep-alive") else Ascii("close"))
  }

  function Encode(r: Response, keepAlive: bool, includeBody: bool): (e: bytes)
    ensures e != []
  {
    StatusLine(r.status) + (UserFields(r.headers) + (OwnFields(|r.body|, keepAlive) + CRLF))
    + (if includeBody then r.body else [])
  }

  // ---- how it is written ----

  function Pow10(k: nat): nat {
    if k == 0 then 1 else 10 * Pow10(k - 1)
  }

  lemma TwentyDigits()
    ensures Pow10(20) > USIZE_LIMIT
  {
    assert Pow10(5) == 100_000;
    assert Pow10(10) == 100_000 * 100_000 by { assert Pow10(10) == 100_000 * Pow10(5); }
    assert Pow10(15) == 100_000 * Pow10(10);
    assert Pow10(20) == 100_000 * Pow10(15);
  }

  lemma {:induction false} DecimalLength(n: nat, k: nat)
    requires k > 0 && n < Pow10(k)
    ensures |Decimal(n)| <= k
  {
    if n >= 10 { DecimalLength(n / 10, k - 1); }
  }

  /** The digits still to be written in front. */
  function DigitsLeft(n: nat): bytes {
    if n > 0 then Decimal(n) else []
  }

  function LastDigit(n: nat): byte {
    (48 + n % 10) as byte
  }

  lemma DigitsAtEnds(number: nat)
    ensures DigitsLeft(0) == [] && Decimal(0) == [48] && (number > 0 ==> DigitsLeft(number) == Decimal(number))
  {
  }

  lemma DigitFits(n: nat, i: nat)
    requires 0 < n < Pow10(i)
    ensures i > 0 && n / 10 < Pow10(i - 1)
    ensures DigitsLeft(n) == DigitsLeft(n / 10) + [LastDigit(n)]
  {
  }

  lemma DigitMoves(n: nat, written: bytes)
    requires n > 0
    ensures DigitsLeft(n) + written == DigitsLeft(n / 10) + ([LastDigit(n)] + written)
  {
    Associate(DigitsLeft(n / 10), [LastDigit(n)], written);
  }

  method PutBefore(tmp: array<byte>, i: nat, digit: byte)
    requires i < tmp.Length
    modifies tmp
    ensures tmp[i..] == [digit] + old(tmp[i + 1..])
  {
    tmp[i] := digit;
    assert tmp[i + 1..] == old(tmp[i + 1..]);
  }

  /** Digits are produced from the right in a 20-byte buffer, which no usize overruns. */
  method WriteUsize(out: bytes, number: nat) returns (res: bytes)
    requires number < USIZE_LIMIT
    ensures res == out + Decimal(number)
  {
    hide Pow10, Decimal, DigitsLeft, LastDigit;
    DigitsAtEnds(number);
    var n: nat := number;
    if n == 0 { return out + [48]; }
    var tmp := new byte[20](_ => 0);
    var i := tmp.Length;
    TwentyDigits();
    while n > 0
      invariant 0 <= i <= tmp.Length && n < Pow10(i)
      invariant DigitsLeft(n) + tmp[i..] == Decimal(number)
    {
      DigitFits(n, i);
      DigitMoves(n, tmp[i..]);
      i := i - 1;
      PutBefore(tmp, i, LastDigit(n));
      n := n / 10;
    }
    res := out + tmp[i..];
  }

  lemma Associate(a: bytes, b: bytes, c: bytes)
    ensures a + (b + c) == (a + b) + c
  {
  }

  /** The caller's fields in order, minus the two the encoder writes itself. */
  method WriteUserFields(hs: Headers, out: bytes) returns (res: bytes)
    ensures res == out + UserFields(hs)
  {
    hide Owned, FieldLine;
    res := out;
    var i := 0;
    while i < |hs|
      invariant i <= |hs|
      invariant res + UserFields(hs[i..]) == out + UserFields(hs)
    {
      var h := hs[i];
      ghost var rest := UserFields(hs[i + 1..]);
      assert hs[i..][1..] == hs[i + 1..];
      if Owned(h) {
        assert [] + rest == rest;
      } else {
        Associate(res, FieldLine(h.name, h.value), rest);
        res := WriteField(res, h.name, h.value);
      }
      i := i + 1;
    }
    assert res + [] == res;
  }

  method WriteField(out: bytes, name: bytes, value: bytes) returns (res: bytes)
    ensures res == out + FieldLine(name, value)
  {
    res := out + name + [COLON, SP] + value + CRLF;
  }

  method WriteOwnFields(length: nat, keepAlive: bool, out: bytes) returns (res: bytes)
    requires length < USIZE_LIMIT
    ensures res == out + OwnFields(length, keepAlive)
  {
    hide Decimal, Ascii;
    res := WriteUsize(out + Ascii("Content-Length") + [COLON, SP], length);
    res := res + CRLF;
    assert res == out + FieldLine(Ascii("Content-Length"), Decimal(length));
    res := WriteField(res, Ascii("Connection"), if keepAlive then Ascii("keep-alive") else Ascii("close"));
  }

  method EncodeTo(r: Response, keepAlive: bool, includeBody: bool, out: bytes) returns (res: bytes)
    ensures res == out + Encode(r, keepAlive, includeBody)
  {
    hide Decimal, Reason, Ascii, UserFields, FieldLine;
    res := WriteUsize(out + Ascii("HTTP/1.1 "), r.status);
    res := res + [SP] + Reason(r.status) + CRLF;
    assert res == out + StatusLine(r.status);
    res := WriteUserFields(r.headers, res);
    ghost var head := StatusLine(r.status) + UserFields(r.headers);
    assert res == out + head by { Associate(out, StatusLine(r.status), UserFields(r.headers)); }
    res := WriteOwnFields(|r.body|, keepAlive, res);
    assert res == out + (head + OwnFields(|r.body|, keepAlive)) by { Associate(out, head, OwnFields(|r.body|, keepAlive)); }
    res := res + CRLF;
    assert res == out + (StatusLine(r.status) + (UserFields(r.headers) + (OwnFields(|r.body|, keepAlive) + CRLF)));
    if includeBody { res := res + r.body; }
  }
}
