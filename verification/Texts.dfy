/** Trimming, splitting and case-blind comparison, each against what it means for the bytes. */
module Texts {
  import opened Bytes

  // ---- letter case ----

  /** `a` is `word`, a word without capitals, in any mixture of small and capital letters. */
  predicate Spelled(a: bytes, word: bytes) {
    |a| == |word| && forall i :: 0 <= i < |a| ==> a[i] == word[i] || (97 <= word[i] <= 122 && a[i] == word[i] - 32)
  }

  predicate NoCapitals(word: bytes) {
    forall i :: 0 <= i < |word| ==> !(65 <= word[i] <= 90)
  }

  lemma MatchesAnySpelling(a: bytes, word: bytes)
    requires NoCapitals(word)
    ensures EqIgnoreCase(a, word) <==> Spelled(a, word)
  {
  }

  // ---- white space ----

  /** A run of white-space characters. */
  predicate Blank(b: bytes)
    decreases |b|
  {
    b == [] || exists n :: 1 <= n <= 3 && n <= |b| && WhiteSpaceChar(b[..n]) && Blank(b[n..])
  }

  predicate Inner(c: byte) { 0x80 <= c <= 0xBF }

  /** In a white-space character the bytes after the first are of a kind that none starts with. */
  lemma SpaceBytes(c: bytes)
    requires WhiteSpaceChar(c)
    ensures 1 <= |c| <= 3 && !Inner(c[0]) && forall i :: 1 <= i < |c| ==> Inner(c[i])
  {
  }

  lemma FirstSpace(c: bytes, x: bytes)
    requires WhiteSpaceChar(c)
    ensures LeadingSpace(c + x) == |c|
  {
    SpaceBytes(c);
    var s := c + x;
    assert s[..|c|] == c;
    NoShorterSpace(s, |c|);
    hide WhiteSpaceChar;
  }

  lemma NoShorterSpace(s: bytes, n: nat)
    requires n <= |s| && WhiteSpaceChar(s[..n])
    ensures forall k :: 1 <= k < n ==> !WhiteSpaceChar(s[..k])
  {
    if n >= 2 { assert s[..n][0] == s[..1][0]; }
    if n >= 3 { assert s[..n][1] == s[..2][1]; }
  }

  lemma LastSpace(x: bytes, c: bytes)
    requires WhiteSpaceChar(c)
    ensures TrailingSpace(x + c) == |c|
  {
    SpaceBytes(c);
    var s := x + c;
    EndOf(x, c, |c|);
    EndOf(x, c, 1);
    if |c| >= 2 { EndOf(x, c, 2); NoSpaceInside(c, 1); }
    if |c| >= 3 { NoSpaceInside(c, 2); }
    assert c[|c| - |c|..] == c;
    hide WhiteSpaceChar;
  }

  lemma EndOf(x: bytes, c: bytes, k: nat)
    requires k <= |c|
    ensures (x + c)[|x + c| - k..] == c[|c| - k..]
  {
  }

  lemma NoSpaceInside(c: bytes, k: nat)
    requires WhiteSpaceChar(c) && 1 <= k < |c|
    ensures !WhiteSpaceChar(c[|c| - k..])
  {
    SpaceBytes(c);
    var tail := c[|c| - k..];
    assert Inner(tail[0]);
    hide WhiteSpaceChar;
    if WhiteSpaceChar(tail) { SpaceBytes(tail); }
  }

  lemma {:induction false} TrimsBefore(pre: bytes, x: bytes)
    requires Blank(pre)
    ensures TrimStart(pre + x) == TrimStart(x)
    decreases |pre|
  {
    hide WhiteSpaceChar, LeadingSpace;
    if pre == [] {
      assert pre + x == x;
    } else {
      var n :| 1 <= n <= 3 && n <= |pre| && WhiteSpaceChar(pre[..n]) && Blank(pre[n..]);
      FirstSpace(pre[..n], pre[n..] + x);
      assert pre + x == pre[..n] + (pre[n..] + x) && (pre + x)[n..] == pre[n..] + x;
      TrimsBefore(pre[n..], x);
    }
  }

  lemma {:induction false} TrimsAfter(x: bytes, post: bytes)
    requires Blank(post)
    ensures TrimEnd(x + post) == TrimEnd(x)
    decreases |post|
  {
    hide WhiteSpaceChar, TrailingSpace;
    if post == [] {
      assert x + post == x;
    } else {
      var n :| 1 <= n <= 3 && n <= |post| && WhiteSpaceChar(post[..n]) && Blank(post[n..]);
      var c := post[..n];
      LastSpace(x, c);
      assert x + post == (x + c) + post[n..];
      TrimsAfter(x + c, post[n..]);
      assert (x + c)[..|x + c| - n] == x;
    }
  }

  lemma {:induction false} StartIsBlank(b: bytes) returns (pre: bytes)
    ensures b == pre + TrimStart(b) && Blank(pre) && LeadingSpace(TrimStart(b)) == 0
    decreases |b|
  {
    hide LeadingSpace, WhiteSpaceChar, Blank;
    var n := LeadingSpace(b);
    BlankNothing();
    if n == 0 {
      pre := [];
    } else {
      LeadingIsSpace(b);
      var others := StartIsBlank(b[n..]);
      pre := b[..n] + others;
      SpaceThenBlank(b[..n], others);
      assert b == b[..n] + b[n..];
    }
  }

  lemma BlankNothing()
    ensures Blank([])
  {
  }

  lemma LeadingIsSpace(b: bytes)
    requires LeadingSpace(b) > 0
    ensures WhiteSpaceChar(b[..LeadingSpace(b)])
  {
  }

  lemma TrailingIsSpace(b: bytes)
    requires TrailingSpace(b) > 0
    ensures WhiteSpaceChar(b[|b| - TrailingSpace(b)..])
  {
  }

  lemma SpaceThenBlank(c: bytes, b: bytes)
    requires WhiteSpaceChar(c) && Blank(b)
    ensures Blank(c + b)
  {
    SpaceBytes(c);
    hide WhiteSpaceChar;
    assert (c + b)[..|c|] == c && (c + b)[|c|..] == b;
  }

  lemma {:induction false} EndIsBlank(b: bytes) returns (post: bytes)
    ensures b == TrimEnd(b) + post && Blank(post) && TrailingSpace(TrimEnd(b)) == 0
    decreases |b|
  {
    hide TrailingSpace, WhiteSpaceChar, Blank;
    var n := TrailingSpace(b);
    BlankNothing();
    if n == 0 {
      post := [];
    } else {
      TrailingIsSpace(b);
      var others := EndIsBlank(b[..|b| - n]);
      post := others + b[|b| - n..];
      BlankThenSpace(others, b[|b| - n..]);
      assert b == b[..|b| - n] + b[|b| - n..];
    }
  }

  lemma {:induction false} BlankThenSpace(b: bytes, c: bytes)
    requires Blank(b) && WhiteSpaceChar(c)
    ensures Blank(b + c)
    decreases |b|
  {
    hide WhiteSpaceChar;
    if b == [] {
      assert b + c == c && c[..|c|] == c && c[|c|..] == [];
      assert 1 <= |c| <= 3 by { SpaceBytes(c); }
    } else {
      var n :| 1 <= n <= 3 && n <= |b| && WhiteSpaceChar(b[..n]) && Blank(b[n..]);
      BlankThenSpace(b[n..], c);
      assert (b + c)[..n] == b[..n] && (b + c)[n..] == b[n..] + c;
    }
  }

  /** A text followed by white space starts with none if the text itself does not. */
  lemma NoSpaceAcross(w: bytes, post: bytes)
    requires w != [] && LeadingSpace(w) == 0 && Blank(post)
    ensures LeadingSpace(w + post) == 0
  {
    hide WhiteSpaceChar;
    var s := w + post;
    forall k | 1 <= k <= 3 && k <= |s| ensures !WhiteSpaceChar(s[..k]) {
      NoSpaceAcrossAt(w, post, k);
    }
  }

  lemma NoSpaceAcrossAt(w: bytes, post: bytes, k: nat)
    requires w != [] && LeadingSpace(w) == 0 && Blank(post) && 1 <= k <= 3 && k <= |w + post|
    ensures !WhiteSpaceChar((w + post)[..k])
  {
    hide WhiteSpaceChar;
    var c := (w + post)[..k];
    if k <= |w| {
      assert c == w[..k];
    } else {
      BlankStarts(post);
      assert c[|w|] == post[0];
      if WhiteSpaceChar(c) { SpaceBytes(c); }
    }
  }

  lemma BlankStarts(post: bytes)
    requires Blank(post) && post != []
    ensures !Inner(post[0])
  {
    hide WhiteSpaceChar;
    var n :| 1 <= n <= 3 && n <= |post| && WhiteSpaceChar(post[..n]) && Blank(post[n..]);
    SpaceBytes(post[..n]);
    assert post[0] == post[..n][0];
  }

  lemma TrimSplits(b: bytes) returns (pre: bytes, post: bytes)
    ensures b == pre + Trim(b) + post && Blank(pre) && Blank(post) && Trimmed(Trim(b))
  {
    hide TrimStart, TrimEnd, Blank, LeadingSpace, TrailingSpace;
    pre := StartIsBlank(b);
    post := EndIsBlank(TrimStart(b));
    assert TrimStart(b)[..|Trim(b)|] == Trim(b);
    assert pre + (Trim(b) + post) == pre + Trim(b) + post;
    StillNoSpace(TrimStart(b), |Trim(b)|);
  }

  lemma StillNoSpace(b: bytes, n: nat)
    requires LeadingSpace(b) == 0 && n <= |b|
    ensures LeadingSpace(b[..n]) == 0
  {
    if n >= 1 { assert b[..n][..1] == b[..1]; }
    if n >= 2 { assert b[..n][..2] == b[..2]; }
    if n >= 3 { assert b[..n][..3] == b[..3]; }
  }

  /** `trim` takes off all the white space at both ends and nothing else. */
  lemma TrimExactly(b: bytes, w: bytes)
    ensures Trim(b) == w <==> Trimmed(w) && exists pre, post :: Blank(pre) && Blank(post) && b == pre + w + post
  {
    hide Blank, WhiteSpaceChar;
    var pre0, post0 := TrimSplits(b);
    if Trimmed(w) && exists pre, post :: Blank(pre) && Blank(post) && b == pre + w + post {
      var pre, post :| Blank(pre) && Blank(post) && b == pre + w + post;
      TrimIs(pre, w, post);
    }
  }

  lemma TrimIs(pre: bytes, w: bytes, post: bytes)
    requires Blank(pre) && Blank(post) && Trimmed(w)
    ensures Trim(pre + w + post) == w
  {
    hide Blank, WhiteSpaceChar, LeadingSpace, TrailingSpace;
    assert pre + w + post == pre + (w + post);
    TrimsBefore(pre, w + post);
    if w == [] {
      assert w + post == post && post == post + [];
      TrimsBefore(post, []);
    } else {
      NoSpaceAcross(w, post);
      TrimsAfter(w, post);
    }
  }

  // ---- separators ----

  /** The parts one after another, with `sep` between them. */
  function Join(parts: seq<bytes>, sep: byte): bytes
    requires parts != []
  {
    if |parts| == 1 then parts[0] else parts[0] + [sep] + Join(parts[1..], sep)
  }

  predicate Free(parts: seq<bytes>, sep: byte) {
    forall i :: 0 <= i < |parts| ==> sep !in parts[i]
  }

  lemma {:induction false} SplitJoin(parts: seq<bytes>, sep: byte)
    requires parts != [] && Free(parts, sep)
    ensures Split(Join(parts, sep), sep) == parts
    decreases |parts|
  {
    hide Split;
    if |parts| == 1 {
      SplitLast(parts[0], sep);
    } else {
      SplitJoin(parts[1..], sep);
      SplitFirst(parts[0], sep, Join(parts[1..], sep));
    }
  }

  lemma {:induction false} JoinSplit(b: bytes, sep: byte)
    ensures Free(Split(b, sep), sep) && Join(Split(b, sep), sep) == b
    decreases |b|
  {
    var k := IndexOf(b, sep);
    if k < |b| {
      JoinSplit(b[k + 1..], sep);
      assert Split(b, sep) == [b[..k]] + Split(b[k + 1..], sep);
      assert b == b[..k] + [sep] + b[k + 1..];
    }
  }

  /** `split` is the one way to write `b` as parts without `sep`, joined by it. */
  lemma SplitExactly(b: bytes, sep: byte, parts: seq<bytes>)
    ensures Split(b, sep) == parts <==> parts != [] && Free(parts, sep) && Join(parts, sep) == b
  {
    hide Split;
    JoinSplit(b, sep);
    if parts != [] && Free(parts, sep) { SplitJoin(parts, sep); }
  }

  // ---- lists of words ----

  /** `word` is one of the comma-separated words of `v`, in any letter case and with white space around it. */
  ghost predicate Lists(v: bytes, word: bytes) {
    exists parts: seq<bytes>, i, pre, w, post ::
      && parts != [] && Free(parts, COMMA) && Join(parts, COMMA) == v
      && 0 <= i < |parts| && parts[i] == pre + w + post && Blank(pre) && Blank(post) && Spelled(w, word)
  }

  lemma ListsExactly(v: bytes, word: bytes)
    requires NoCapitals(word) && Visible(word)
    ensures Lists(v, word) <==> exists i :: 0 <= i < |Split(v, COMMA)| && EqIgnoreCase(Trim(Split(v, COMMA)[i]), word)
  {
    hide Split, Trim, Blank, Spelled, EqIgnoreCase;
    var parts := Split(v, COMMA);
    JoinSplit(v, COMMA);
    if i :| 0 <= i < |parts| && EqIgnoreCase(Trim(parts[i]), word) {
      var pre, post := TrimSplits(parts[i]);
      MatchesAnySpelling(Trim(parts[i]), word);
    }
    if Lists(v, word) {
      var ps: seq<bytes>, i, pre, w, post :|
        && ps != [] && Free(ps, COMMA) && Join(ps, COMMA) == v
        && 0 <= i < |ps| && ps[i] == pre + w + post && Blank(pre) && Blank(post) && Spelled(w, word);
      SplitJoin(ps, COMMA);
      SpelledVisible(w, word);
      VisibleTrimmed(w);
      TrimIs(pre, w, post);
      MatchesAnySpelling(w, word);
    }
  }

  predicate Visible(word: bytes) {
    forall i :: 0 <= i < |word| ==> 33 <= word[i] < 128
  }

  lemma SpelledVisible(w: bytes, word: bytes)
    requires Spelled(w, word) && Visible(word)
    ensures Visible(w)
  {
  }
}
