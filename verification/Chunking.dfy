/** How a stream is cut into pushes does not matter, but for one length of request line. */
module Chunking {
  import opened Bytes
  import opened Http
  import opened RequestSpec
  import opened RequestParsing

  function Concat(chunks: seq<bytes>): bytes {
    if chunks == [] then [] else chunks[0] + Concat(chunks[1..])
  }

  // ---- one request ----

  /** The first status other than Incomplete that the pushes report. */
  function FirstStatus(p: Parser, chunks: seq<bytes>): ParseStatus
    decreases |chunks|
  {
    if chunks == [] then Incomplete
    else
      var (q, status) := PushView(p, chunks[0]);
      if status.Incomplete? then FirstStatus(q, chunks[1..]) else status
  }

  function AfterAll(p: Parser, chunks: seq<bytes>): Parser
    decreases |chunks|
  {
    if chunks == [] then p else AfterAll(PushView(p, chunks[0]).0, chunks[1..])
  }

  /** Some push, the first of which extends `buf`, ends between the CR and LF of a request line at the limit. */
  predicate CutByAPush(buf: bytes, chunks: seq<bytes>, all: bytes)
    decreases |chunks|
  {
    chunks != [] && (CutInsideLineEnd(buf + chunks[0], all) || CutByAPush(buf + chunks[0], chunks[1..], all))
  }

  lemma {:induction false} DoneParserOnlyBuffers(p: Parser, chunks: seq<bytes>)
    requires p.done
    ensures AfterAll(p, chunks) == p.(buf := p.buf + Concat(chunks))
    decreases |chunks|
  {
    if chunks == [] {
      assert p.buf + [] == p.buf;
    } else {
      DoneParserOnlyBuffers(PushView(p, chunks[0]).0, chunks[1..]);
      assert (p.buf + chunks[0]) + Concat(chunks[1..]) == p.buf + Concat(chunks);
    }
  }

  /** Same request, same count of consumed bytes or same error, and the same bytes left over. */
  lemma {:induction false} PushesAreOnePush(p: Parser, chunks: seq<bytes>)
    requires !p.done && chunks != [] && !CutByAPush(p.buf, chunks, p.buf + Concat(chunks))
    ensures PushView(p, Concat(chunks)) == (AfterAll(p, chunks), FirstStatus(p, chunks))
    decreases |chunks|
  {
    hide Parse;
    var (q, status) := PushView(p, chunks[0]);
    var rest := chunks[1..];
    assert (p.buf + chunks[0]) + Concat(rest) == p.buf + Concat(chunks);
    if rest == [] {
      assert p.buf + Concat(chunks) == p.buf + chunks[0];
    } else if status.Incomplete? {
      PushesAreOnePush(q, rest);
    } else {
      ParseExtends(p.carried, p.buf + chunks[0], p.buf + Concat(chunks));
      DoneParserOnlyBuffers(q, rest);
      if status.Complete? {
        assert (p.buf + Concat(chunks))[status.consumed..] == q.buf + Concat(rest);
      }
    }
  }

  lemma {:induction false} CutIsRefused(p: Parser, chunks: seq<bytes>)
    requires !p.done && CutByAPush(p.buf, chunks, p.buf + Concat(chunks))
    ensures FirstStatus(p, chunks) == ParseStatus.Failed(RequestLineTooLong)
    ensures PushView(p, Concat(chunks)).1 != ParseStatus.Failed(RequestLineTooLong)
    decreases |chunks|
  {
    hide RequestSpec.ParseRequestLine, ParseFields;
    var all := p.buf + Concat(chunks);
    var now := p.buf + chunks[0];
    assert now + Concat(chunks[1..]) == all;
    if CutInsideLineEnd(now, all) {
      ParseExtends(p.carried, now, all);
    } else {
      ShorterThanTheCut(now, chunks[1..], all);
      FindCrlfExtends(now, all, 0);
      CutIsRefused(PushView(p, chunks[0]).0, chunks[1..]);
    }
  }

  lemma {:induction false} ShorterThanTheCut(buf: bytes, chunks: seq<bytes>, all: bytes)
    requires CutByAPush(buf, chunks, all)
    ensures |buf| <= MAX_REQUEST_LINE + 1 && FindCrlf(all, 0) == Some(MAX_REQUEST_LINE)
    decreases |chunks|
  {
    if !CutInsideLineEnd(buf + chunks[0], all) {
      ShorterThanTheCut(buf + chunks[0], chunks[1..], all);
    }
  }

  /** Exactly when the code keeps its promise that chunk boundaries are invisible. */
  lemma ChunkingIndependence(p: Parser, chunks: seq<bytes>)
    requires !p.done && chunks != []
    ensures PushView(p, Concat(chunks)) == (AfterAll(p, chunks), FirstStatus(p, chunks))
            <==> !CutByAPush(p.buf, chunks, p.buf + Concat(chunks))
  {
    if CutByAPush(p.buf, chunks, p.buf + Concat(chunks)) {
      CutIsRefused(p, chunks);
    } else {
      PushesAreOnePush(p, chunks);
    }
  }
}
