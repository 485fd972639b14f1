/** What a request line, a field, a body length and a Connection field mean, said of their bytes. */
module RequestMeaning {
  import opened Bytes
  import opened Http
  import opened Texts
  import opened RequestSpec

  // The words looked for, in small letters.
  const CONNECTION: bytes := Ascii("connection")
  const CLOSE: bytes := Ascii("close")
  const KEEP_ALIVE: bytes := Ascii("keep-alive")
  const LENGTH: bytes := Ascii("content-length")

  lemma WordsAreSmall()
    ensures NoCapitals(CONNECTION) && NoCapitals(CLOSE) && NoCapitals(KEEP_ALIVE) && NoCapitals(LENGTH)
    ensures Visible(CLOSE) && Visible(KEEP_ALIVE)
  {
    SmallWord("connection");
    SmallWord("close");
    SmallWord("keep-alive");
    SmallWord("content-length");
  }

  lemma SmallWord(s: string)
    requires forall i :: 0 <= i < |s| ==> '!' <= s[i] <= '@' || 'a' <= s[i] <= 'z'
    ensures NoCapitals(Ascii(s)) && Visible(Ascii(s))
  {
  }

  // ---- the first field of a name ----

  predicate FirstNamed(hs: Headers, word: bytes, k: nat) {
    k < |hs| && Spelled(hs[k].name, word) && forall j :: 0 <= j < k ==> !Spelled(hs[j].name, word)
  }

  predicate NoneNamed(hs: Headers, word: bytes) {
    forall j :: 0 <= j < |hs| ==> !Spelled(hs[j].name, word)
  }

  /** Names are compared without regard to letter case, and the first field of a name is the one that counts. */
  lemma {:induction false} LookupExactly(hs: Headers, word: bytes)
    requires NoCapitals(word)
    ensures NoneNamed(hs, word) <==> HeaderGet(hs, word) == None
    ensures forall k: nat :: FirstNamed(hs, word, k) ==> HeaderGet(hs, word) == Some(hs[k].value)
    ensures NoneNamed(hs, word) || exists k: nat :: FirstNamed(hs, word, k)
    decreases |hs|
  {
    hide Spelled, EqIgnoreCase;
    if hs != [] {
      MatchesAnySpelling(hs[0].name, word);
      LookupExactly(hs[1..], word);
      assert forall j :: 0 < j < |hs| ==> hs[j] == hs[1..][j - 1];
      if !Spelled(hs[0].name, word) {
        forall k: nat | FirstNamed(hs, word, k) ensures HeaderGet(hs, word) == Some(hs[k].value) {
          assert FirstNamed(hs[1..], word, k - 1);
        }
        if !NoneNamed(hs[1..], word) {
          var k: nat :| FirstNamed(hs[1..], word, k);
          LaterNamed(hs, word, k);
        } else {
          forall j | 0 <= j < |hs| ensures !Spelled(hs[j].name, word) { if j > 0 { assert hs[j] == hs[1..][j - 1]; } }
        }
        if NoneNamed(hs, word) {
          forall j | 0 <= j < |hs[1..]| ensures !Spelled(hs[1..][j].name, word) { assert hs[1..][j] == hs[j + 1]; }
        }
      } else {
        assert FirstNamed(hs, word, 0);
      }
    }
  }

  lemma LaterNamed(hs: Headers, word: bytes, k: nat)
    requires hs != [] && !Spelled(hs[0].name, word) && FirstNamed(hs[1..], word, k)
    ensures FirstNamed(hs, word, k + 1)
  {
    hide Spelled;
    forall j | 0 <= j < k + 1 ensures !Spelled(hs[j].name, word) { if j > 0 { assert hs[j] == hs[1..][j - 1]; } }
  }

  // ---- the length of the body ----

  /** `d` writes `n` in decimal: with leading zeros if it likes, and with a plus sign if it likes. */
  predicate Numeral(d: bytes, n: nat) {
    || (Digits(d) && DigitsValue(d) == n)
    || (|d| > 1 && d[0] == '+' as byte && Digits(d[1..]) && DigitsValue(d[1..]) == n)
  }

  lemma NumeralExactly(d: bytes, n: nat)
    ensures ParseUsize(d) == Some(n) <==> Numeral(d, n) && n < USIZE_LIMIT
  {
    assert Digits(d) ==> IsDigit(d[0]);
  }

  /**
   A body is as long as the first Content-Length says, and absent without one. A length that is not a number
   a usize can hold is malformed, and one over the ceiling too large.
   */
  lemma LengthExactly(hs: Headers, n: nat)
    ensures NoneNamed(hs, LENGTH) ==> ContentLength(hs) == Ok(0)
    ensures forall k: nat :: FirstNamed(hs, LENGTH, k) ==>
              var d := Trim(hs[k].value);
              && (ContentLength(hs) == Ok(n) <==> Numeral(d, n) && n <= MAX_BODY_BYTES)
              && (Numeral(d, n) && MAX_BODY_BYTES < n < USIZE_LIMIT ==> ContentLength(hs) == Err(BodyTooLarge))
              && (Numeral(d, n) && USIZE_LIMIT <= n ==> ContentLength(hs) == Err(MalformedHeader))
              && ((forall m :: !Numeral(d, m)) ==> ContentLength(hs) == Err(MalformedHeader))
  {
    WordsAreSmall();
    hide Spelled, Numeral, ParseUsize;
    LookupExactly(hs, LENGTH);
    forall k: nat | FirstNamed(hs, LENGTH, k)
      ensures ContentLength(hs) == Ok(n) <==> Numeral(Trim(hs[k].value), n) && n <= MAX_BODY_BYTES
      ensures Numeral(Trim(hs[k].value), n) && MAX_BODY_BYTES < n < USIZE_LIMIT ==> ContentLength(hs) == Err(BodyTooLarge)
      ensures Numeral(Trim(hs[k].value), n) && USIZE_LIMIT <= n ==> ContentLength(hs) == Err(MalformedHeader)
      ensures (forall m :: !Numeral(Trim(hs[k].value), m)) ==> ContentLength(hs) == Err(MalformedHeader)
    {
      var d := Trim(hs[k].value);
      NumeralExactly(d, n);
      if m :| ParseUsize(d) == Some(m) { NumeralExactly(d, m); if Numeral(d, n) { OneValue(d, n, m); } }
    }
  }

  lemma OneValue(d: bytes, n: nat, m: nat)
    requires Numeral(d, m) && Numeral(d, n)
    ensures n == m
  {
    if Digits(d) { assert IsDigit(d[0]); }
  }

  /** The fields announce a body of `n` bytes: a Content-Length written as it usually is, or none at all. */
  predicate Announces(hs: Headers, n: nat) {
    || (NoneNamed(hs, LENGTH) && n == 0)
    || (n <= MAX_BODY_BYTES && exists k: nat :: k < |hs| && FirstNamed(hs, LENGTH, k) && hs[k].value == Decimal(n))
  }

  lemma AnnouncedLength(hs: Headers, n: nat)
    requires Announces(hs, n)
    ensures ContentLength(hs) == Ok(n)
  {
    LengthExactly(hs, n);
    DecimalIsNumeral(n);
    DecimalTrimmed(n);
    TrimOneSpace(Decimal(n));
  }

  lemma DecimalIsNumeral(n: nat)
    ensures Numeral(Decimal(n), n)
  {
    DecimalValue(n);
  }

  /** A byte that is no digit, other than a plus sign in front, makes no number. */
  lemma NonDigitIsNoNumeral(d: bytes, i: nat)
    requires i < |d| && !IsDigit(d[i]) && (d[i] != '+' as byte || i > 0 || |d| == 1)
    ensures forall m :: !Numeral(d, m)
  {
    forall m ensures !Numeral(d, m) {
      if i > 0 { assert d[1..][i - 1] == d[i]; }
    }
  }

  // ---- whether the connection is kept ----

  /**
   HTTP/1.1 is kept unless its first Connection field lists "close"; HTTP/1.0 is closed unless that field
   lists "keep-alive".
   */
  lemma KeptExactly(r: Request)
    ensures NoneNamed(r.headers, CONNECTION) ==> (r.WantsKeepAlive() <==> r.version == Http11)
    ensures forall k: nat :: FirstNamed(r.headers, CONNECTION, k) ==>
              && (r.version == Http11 ==> (r.WantsKeepAlive() <==> !Lists(r.headers[k].value, CLOSE)))
              && (r.version == Http10 ==> (r.WantsKeepAlive() <==> Lists(r.headers[k].value, KEEP_ALIVE)))
  {
    WordsAreSmall();
    hide Lists, Spelled, Split, Trim, EqIgnoreCase;
    LookupExactly(r.headers, CONNECTION);
    forall k: nat | FirstNamed(r.headers, CONNECTION, k)
      ensures r.version == Http11 ==> (r.WantsKeepAlive() <==> !Lists(r.headers[k].value, CLOSE))
      ensures r.version == Http10 ==> (r.WantsKeepAlive() <==> Lists(r.headers[k].value, KEEP_ALIVE))
    {
      ListsExactly(r.headers[k].value, CLOSE);
      ListsExactly(r.headers[k].value, KEEP_ALIVE);
    }
  }

  // ---- lines ----

  /** Three parts, none empty, with single spaces between them. */
  predicate ThreeParts(line: bytes, m: bytes, p: bytes, w: bytes) {
    m != [] && p != [] && w != [] && SP !in m && SP !in p && SP !in w && line == m + [SP] + p + [SP] + w
  }

  /** "GET" and "HEAD"; any other token is a method the server does not know. */
  predicate VerbIs(v: Method, m: bytes) {
    match v
    case Get => m == [71, 69, 84]
    case Head => m == [72, 69, 65, 68]
    case Unsupported => m != [71, 69, 84] && m != [72, 69, 65, 68]
  }

  /** "HTTP/1.0" and "HTTP/1.1". */
  predicate VersionIs(v: Version, w: bytes) {
    w == [72, 84, 84, 80, 47, 49, 46] + [if v == Http10 then 48 else 49]
  }

  lemma LineSplits(line: bytes)
    ensures forall m, p, w :: ThreeParts(line, m, p, w) ==> Split(line, SP) == [m, p, w]
    ensures var s := Split(line, SP); |s| == 3 && s[0] != [] && s[1] != [] && s[2] != [] ==> ThreeParts(line, s[0], s[1], s[2])
  {
    hide Split;
    forall m, p, w | ThreeParts(line, m, p, w) ensures Split(line, SP) == [m, p, w] {
      SplitExactly(line, SP, [m, p, w]);
      JoinThree(m, p, w);
    }
    var s := Split(line, SP);
    JoinSplit(line, SP);
    if |s| == 3 { assert s == [s[0], s[1], s[2]]; JoinThree(s[0], s[1], s[2]); }
  }

  lemma JoinThree(m: bytes, p: bytes, w: bytes)
    ensures Join([m, p, w], SP) == m + [SP] + p + [SP] + w
  {
    assert [m, p, w][1..] == [p, w] && [p, w][1..] == [w];
    assert Join([p, w], SP) == p + [SP] + w;
    assert m + [SP] + (p + [SP] + w) == m + [SP] + p + [SP] + w;
  }

  lemma TokensAre(m: bytes, w: bytes)
    ensures VerbIs(ParseMethod(m), m)
    ensures match ParseVersion(w) case Some(v) => VersionIs(v, w) case None => !VersionIs(Http10, w) && !VersionIs(Http11, w)
  {
    assert Ascii("GET") == [71, 69, 84] && Ascii("HEAD") == [72, 69, 65, 68];
    assert Ascii("HTTP/1.0") == [72, 84, 84, 80, 47, 49, 46, 48] == [72, 84, 84, 80, 47, 49, 46] + [48];
    assert Ascii("HTTP/1.1") == [72, 84, 84, 80, 47, 49, 46, 49] == [72, 84, 84, 80, 47, 49, 46] + [49];
  }

  /** A request line is three parts with a readable path and a known version; the method may be any token. */
  lemma RequestLineExactly(line: bytes, l: RequestLine)
    ensures ParseRequestLine(line) == Ok(l) <==>
              exists m, w :: ThreeParts(line, m, l.path, w) && ValidUtf8(l.path) && VerbIs(l.verb, m) && VersionIs(l.version, w)
    ensures ParseRequestLine(line) == Err(UnsupportedVersion) <==>
              exists m, p, w :: ThreeParts(line, m, p, w) && ValidUtf8(p) && !VersionIs(Http10, w) && !VersionIs(Http11, w)
    ensures ParseRequestLine(line).Err? ==> ParseRequestLine(line).error in {UnsupportedVersion, MalformedRequestLine}
  {
    LineSplits(line);
    hide Split, ParseMethod, ParseVersion, ValidUtf8;
    var s := Split(line, SP);
    if |s| == 3 {
      TokensAre(s[0], s[2]);
      VersionsDiffer(s[2]);
    }
  }

  lemma VersionsDiffer(w: bytes)
    ensures !(VersionIs(Http10, w) && VersionIs(Http11, w))
  {
    assert w != [] && w[|w| - 1] == 48 ==> w[|w| - 1] != 49;
    if VersionIs(Http10, w) { assert w[7] == 48; }
    if VersionIs(Http11, w) { assert w[7] == 49; }
  }

  /** A field is what is before its first colon and what is after it, both readable and trimmed, with a name. */
  lemma FieldExactly(line: bytes, h: Header)
    ensures ParseHeaderLine(line) == Ok(h) <==>
              h.name != [] && exists n, v :: COLON !in n && line == n + [COLON] + v && ValidUtf8(n) && ValidUtf8(v)
                                             && h.name == Trim(n) && h.value == Trim(v)
    ensures ParseHeaderLine(line).Err? ==> ParseHeaderLine(line).error == MalformedHeader
  {
    hide Trim, ValidUtf8;
    var k := IndexOf(line, COLON);
    forall n, v | COLON !in n && line == n + [COLON] + v ensures k == |n| && n == line[..k] && v == line[k + 1..] {
      IndexOfAt(line, COLON, |n|);
    }
    if k < |line| { assert line == line[..k] + [COLON] + line[k + 1..]; }
  }

  /** Too long is a line that has not ended within the limit once more than that has arrived. */
  lemma TooLongExactly(carried: Headers, b: bytes)
    ensures (exists hs :: Parse(carried, b) == Failed(RequestLineTooLong, hs)) <==>
              |b| > MAX_REQUEST_LINE && forall i :: 0 <= i <= MAX_REQUEST_LINE && i + 1 < |b| ==> !(b[i] == CR && b[i + 1] == LF)
  {
    hide ParseRequestLine, ParseFields;
    forall i: nat | i + 1 < |b| ensures CrlfAt(b, i) <==> b[i] == CR && b[i + 1] == LF { }
    var r := FindCrlf(b, 0);
    if r.Some? && r.value <= MAX_REQUEST_LINE {
      assert b[r.value] == CR && b[r.value + 1] == LF;
    }
    if |b| > MAX_REQUEST_LINE && !(r.Some? && r.value <= MAX_REQUEST_LINE) {
      assert Parse(carried, b) == Failed(RequestLineTooLong, carried);
    }
  }
}
