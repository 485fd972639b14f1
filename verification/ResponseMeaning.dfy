/** What the response reader makes of any response, told by its lines, and of one that is cut short. */
module ResponseMeaning {
  import opened Bytes
  import opened Http
  import opened Texts
  import opened RequestMeaning
  import opened ResponseEncoding
  import opened ResponseReader

  // ---- one line ----

  /** The line is a Content-Length field, in any letter case and with white space around its name; `v` is after its colon. */
  ghost predicate SaysLength(line: bytes, v: bytes) {
    exists n :: COLON !in n && line == n + [COLON] + v && Spelled(Trim(n), LENGTH)
  }

  /** It gives the length as `m`, a number that a usize can hold. */
  ghost predicate Gives(line: bytes, m: nat) {
    m < USIZE_LIMIT && exists v :: SaysLength(line, v) && Numeral(Trim(v), m)
  }

  ghost predicate IsSilent(line: bytes) {
    forall v :: !SaysLength(line, v)
  }

  /** A Content-Length replaces the length read so far, or is an error when it is no number; other lines change nothing. */
  lemma LineExactly(line: bytes, before: nat, m: nat)
    ensures IsSilent(line) ==> AfterLine(line, before) == Ok(before)
    ensures !IsSilent(line) ==> (AfterLine(line, before) == Ok(m) <==> Gives(line, m))
    ensures !IsSilent(line) && (forall k :: !Gives(line, k)) ==> AfterLine(line, before) == Err(BadContentLength)
  {
    hide Spelled, Trim, ParseUsize, EqIgnoreCase, Numeral;
    var k := IndexOf(line, COLON);
    forall n, v | COLON !in n && line == n + [COLON] + v ensures k == |n| && n == line[..k] && v == line[k + 1..] {
      IndexOfAt(line, COLON, |n|);
    }
    if k < |line| {
      var n, v := line[..k], line[k + 1..];
      assert line == n + [COLON] + v;
      WordsAreSmall();
      MatchesAnySpelling(Trim(n), LENGTH);
      assert HeaderValue(line, CONTENT_LENGTH) == if Spelled(Trim(n), LENGTH) then Some(v) else None;
      assert SaysLength(line, v) <==> Spelled(Trim(n), LENGTH);
      NumeralExactly(Trim(v), m);
      if p :| ParseUsize(Trim(v)) == Some(p) {
        NumeralExactly(Trim(v), p);
        if SaysLength(line, v) { assert Gives(line, p); }
      }
    }
  }

  // ---- a whole response ----

  function Joined(lines: seq<bytes>): bytes {
    if lines == [] then [] else lines[0] + Joined(lines[1..])
  }

  /** `n` is what the last line that gives a length gives, or `before` without one. */
  ghost predicate LastGiven(lines: seq<bytes>, before: nat, n: nat) {
    || (n == before && forall i :: 0 <= i < |lines| ==> IsSilent(lines[i]))
    || exists i :: 0 <= i < |lines| && Gives(lines[i], n) && forall j :: i < j < |lines| ==> IsSilent(lines[j])
  }

  ghost predicate GoodLines(lines: seq<bytes>) {
    forall i :: 0 <= i < |lines| ==> WireLine(lines[i]) && (IsSilent(lines[i]) || exists m :: Gives(lines[i], m))
  }

  lemma LastGivenRest(lines: seq<bytes>, before: nat, after: nat, n: nat)
    requires lines != [] && LastGiven(lines, before, n)
    requires if IsSilent(lines[0]) then after == before else forall m :: Gives(lines[0], m) ==> m == after
    ensures LastGiven(lines[1..], after, n)
  {
    hide IsSilent, Gives;
    var rest := lines[1..];
    assert forall i :: 0 <= i < |rest| ==> rest[i] == lines[i + 1];
    if !(n == before && forall i :: 0 <= i < |lines| ==> IsSilent(lines[i])) {
      var i :| 0 <= i < |lines| && Gives(lines[i], n) && forall j :: i < j < |lines| ==> IsSilent(lines[j]);
      if i > 0 { assert Gives(rest[i - 1], n); }
      if i == 0 && IsSilent(lines[0]) { SilentGivesNothing(lines[0], n); }
    }
  }

  lemma SilentGivesNothing(line: bytes, n: nat)
    ensures IsSilent(line) ==> !Gives(line, n)
  {
  }

  lemma {:induction false} ReadsLines(lines: seq<bytes>, end: bytes, rest: bytes, before: nat, n: nat)
    requires GoodLines(lines) && (end == CRLF || end == [LF]) && LastGiven(lines, before, n)
    ensures ReadHead(Joined(lines) + end + rest, before) == Ok(Block(|Joined(lines)| + |end|, n))
    decreases |lines|
  {
    hide ReadHead, AfterLine, WireLine, IsSilent, Gives;
    var s := Joined(lines) + end + rest;
    if lines == [] {
      assert s == end + rest;
      ReadEnd(end, rest, before);
    } else {
      var line, tail := lines[0], Joined(lines[1..]) + end + rest;
      assert s == line + tail;
      ReadWireLine(line, tail, before);
      LineExactly(line, before, before);
      var after := if IsSilent(line) then before else var m: nat :| Gives(line, m); m;
      LineExactly(line, before, after);
      forall m: nat | !IsSilent(line) && Gives(line, m) ensures m == after { LineExactly(line, before, m); }
      LastGivenRest(lines, before, after, n);
      ReadsLines(lines[1..], end, rest, after, n);
    }
  }

  lemma ReadEnd(end: bytes, rest: bytes, before: nat)
    requires end == CRLF || end == [LF]
    ensures ReadHead(end + rest, before) == Ok(Block(|end|, before))
  {
    TakeWireLine(end, rest);
    ValidUtf8Ascii(end);
  }

  /**
   Any response, whoever wrote it: lines that end in LF, an empty line with or without CR, and a body as long as
   the last Content-Length says. One call consumes just that, or fails when the body is not all there.
   */
  lemma ReadsAnyResponse(lines: seq<bytes>, end: bytes, rest: bytes, n: nat)
    requires GoodLines(lines) && (end == CRLF || end == [LF]) && LastGiven(lines, 0, n)
    ensures ReadResponse(Joined(lines) + end + rest) == if |rest| < n then Err(Eof) else Ok(|Joined(lines)| + |end| + n)
  {
    hide ReadHead, GoodLines, LastGiven;
    ReadsLines(lines, end, rest, 0, n);
  }

  // ---- cut short ----

  lemma {:induction false} HeadStays(s: bytes, more: bytes, contentLength: nat)
    requires ReadHead(s, contentLength).Ok?
    ensures ReadHead(s + more, contentLength) == ReadHead(s, contentLength)
    decreases |s|
  {
    hide AfterLine, ValidUtf8, ReadHead;
    var line := TakeLine(s);
    UnfoldHead(s, contentLength);
    UnfoldHead(s + more, contentLength);
    LineEnds(s, contentLength);
    TakeWireLine(line, s[|line|..] + more);
    assert s + more == line + (s[|line|..] + more) && (s + more)[|line|..] == s[|line|..] + more;
    var n := AfterLine(line, contentLength);
    if line != CRLF && line != [LF] && n.Ok? {
      HeadStays(s[|line|..], more, n.value);
    }
  }

  /** A line without its line feed is the last there is, and then the head has no end. */
  lemma LineEnds(s: bytes, contentLength: nat)
    requires ReadHead(s, contentLength).Ok?
    ensures var line := TakeLine(s); line != [] && line[|line| - 1] == LF && LF !in line[..|line| - 1]
  {
    hide AfterLine, ValidUtf8;
  }

  /** A response that is not all there is an error, however much of it has come: it is never counted as a response. */
  lemma CutShortIsAnError(r: Response, keepAlive: bool, n: nat)
    requires Encodable(r) && AllHarmless(r.headers) && n < |Encode(r, keepAlive, true)|
    ensures ReadResponse(Encode(r, keepAlive, true)[..n]).Err?
  {
    hide ReadHead, Encode, Encodable, AllHarmless;
    var e := Encode(r, keepAlive, true);
    OneResponsePerCall(r, keepAlive, []);
    assert e + [] == e && e == e[..n] + e[n..];
    if ReadHead(e[..n], 0).Ok? { HeadStays(e[..n], e[n..], 0); }
  }
}
