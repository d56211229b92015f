/** What the splitter promises, proved about the cutting rule that the code implements. */
module SplitterLaws {
  import opened Graphemes
  import opened Splitter

  // ---- the split is faithful ----

  ghost predicate AllBlank(t: Text, lo: nat, hi: nat)
    requires hi <= |t|
  {
    forall k :: lo <= k < hi ==> t[k].Blank?
  }

  /** A non-empty range of at most `limit` clusters, starting and ending with ink. */
  predicate Trimmed(t: Text, limit: Budget, c: Span) {
    c.lo < c.hi <= |t| && c.hi - c.lo <= limit && t[c.lo].Ink? && t[c.hi - 1].Ink?
  }

  /** From `s` on the text is blanks and trimmed ranges in turn: the ranges are in order, do
      not overlap, and leave out nothing but blanks. */
  ghost predicate Tiles(t: Text, limit: Budget, s: nat, c: seq<Span>)
    requires s <= |t|
    decreases |c|
  {
    if c == [] then AllBlank(t, s, |t|)
    else
      && s <= c[0].lo && Trimmed(t, limit, c[0])
      && AllBlank(t, s, c[0].lo)
      && Tiles(t, limit, c[0].hi, c[1..])
  }

  lemma FirstSpanTrimmed(t: Text, limit: Budget, a: nat)
    requires a < |t| && t[a].Ink?
    ensures var b := CutAfter(t, limit, a);
            Trimmed(t, limit, Span(a, TrimEnd(t, a, b))) && AllBlank(t, TrimEnd(t, a, b), b)
  {
    TrimEndFinds(t, a, CutAfter(t, limit, a));
  }

  /** The chunks are ordered disjoint trimmed slices that hold every inked position once. */
  lemma {:induction false} SplitIsFaithful(t: Text, limit: Budget, s: nat)
    requires s <= |t|
    ensures Tiles(t, limit, s, SpansFrom(t, limit, s))
    decreases |t| - s
  {
    SkipBlanksFinds(t, s);
    var a := SkipBlanks(t, s);
    if a < |t| {
      var b := CutAfter(t, limit, a);
      var e, rest := TrimEnd(t, a, b), SpansFrom(t, limit, b);
      SplitIsFaithful(t, limit, b);
      FirstSpanTrimmed(t, limit, a);
      assert Tiles(t, limit, e, rest);
      assert ([Span(a, e)] + rest)[1..] == rest;
    }
  }

  /** The non-whitespace clusters of a text, in order. */
  function InkOnly(t: Text): Text {
    if t == [] then []
    else if t[0].Ink? then [t[0]] + InkOnly(t[1..])
    else InkOnly(t[1..])
  }

  function Join(chunks: seq<Text>): Text {
    if chunks == [] then [] else chunks[0] + Join(chunks[1..])
  }

  lemma {:induction false} InkOnlyConcat(u: Text, v: Text)
    ensures InkOnly(u + v) == InkOnly(u) + InkOnly(v)
  {
    if u == [] {
      assert u + v == v;
    } else {
      InkOnlyConcat(u[1..], v);
      assert (u + v)[1..] == u[1..] + v;
    }
  }

  lemma {:induction false} InkOnlyBlank(t: Text)
    requires forall k :: 0 <= k < |t| ==> t[k].Blank?
    ensures InkOnly(t) == []
  {
    if t != [] {
      InkOnlyBlank(t[1..]);
    }
  }

  lemma InkOnlySkips(t: Text, s: nat, hi: nat, a: nat, e: nat)
    requires s <= a <= e <= hi <= |t|
    requires forall k :: s <= k < a ==> t[k].Blank?
    requires forall k :: e <= k < hi ==> t[k].Blank?
    ensures InkOnly(t[s..hi]) == InkOnly(t[a..e])
  {
    InkOnlyBlank(t[s..a]);
    InkOnlyBlank(t[e..hi]);
    InkOnlyConcat(t[s..a], t[a..hi]);
    InkOnlyConcat(t[a..e], t[e..hi]);
    assert t[s..hi] == t[s..a] + t[a..hi];
    assert t[a..hi] == t[a..e] + t[e..hi];
  }

  /** Nothing but whitespace is lost, and nothing is reordered or repeated. */
  lemma {:induction false} SplitKeepsEveryInk(t: Text, limit: Budget, s: nat)
    requires s <= |t|
    ensures InkOnly(Join(ChunksFrom(t, limit, s))) == InkOnly(t[s..])
    decreases |t| - s
  {
    SkipBlanksFinds(t, s);
    var a := SkipBlanks(t, s);
    if a == |t| {
      InkOnlyBlank(t[s..]);
    } else {
      var b := CutAfter(t, limit, a);
      var e := TrimEnd(t, a, b);
      var rest := ChunksFrom(t, limit, b);
      TrimEndFinds(t, a, b);
      SplitKeepsEveryInk(t, limit, b);
      InkOnlySkips(t, s, b, a, e);
      InkOnlyConcat(t[s..b], t[b..]);
      assert t[s..] == t[s..b] + t[b..];
      assert ([t[a..e]] + rest)[1..] == rest;
      InkOnlyConcat(t[a..e], Join(rest));
    }
  }

  // ---- tokens ----

  /** A maximal run of ink. */
  ghost predicate IsToken(t: Text, a: nat, b: nat) {
    && a < b <= |t|
    && (forall k :: a <= k < b ==> t[k].Ink?)
    && (a > 0 ==> t[a - 1].Blank?)
    && (b < |t| ==> t[b].Blank?)
  }

  /** What a cut guarantees: the end of the text, a blank with only ink after it in the
      window, or a hard split inside an unbroken run of ink. */
  lemma CutIsLast(t: Text, limit: Budget, a: nat)
    requires a < |t|
    ensures var b := CutAfter(t, limit, a);
            || b == |t|
            || (t[b].Blank? && forall k :: b < k <= a + limit && k < |t| ==> t[k].Ink?)
            || (b == a + limit && forall k :: a < k <= b && k < |t| ==> t[k].Ink?)
  {
    if |t| - a > limit {
      LastBlankFinds(t, a, a + limit);
    }
  }

  /** A token of at most `limit` clusters lies whole inside one chunk: only a token that is
      too long for any post is ever cut. */
  lemma {:induction false} ShortTokensStayWhole(t: Text, limit: Budget, s: nat, a: nat, b: nat)
    requires IsToken(t, a, b) && b - a <= limit && s <= a
    ensures exists c :: c in SpansFrom(t, limit, s) && c.lo <= a && b <= c.hi
    decreases |t| - s
  {
    SkipBlanksFinds(t, s);
    var p := SkipBlanks(t, s);
    var e := CutAfter(t, limit, p);
    var c, rest := SpansFrom(t, limit, s), SpansFrom(t, limit, e);
    CutIsLast(t, limit, p);
    TrimEndFinds(t, p, e);
    if e <= a {
      ShortTokensStayWhole(t, limit, e, a, b);
      var whole :| whole in rest && whole.lo <= a && b <= whole.hi;
      assert whole in c;
    } else {
      assert t[a].Ink? && t[b - 1].Ink?;
      assert p < a ==> t[a - 1].Blank?;
      assert b <= e;
      assert c[0] in c && c[0].lo <= a && b <= c[0].hi;
    }
  }

  // ---- greedy stays ahead ----

  /** A later start and a larger limit never lead to an earlier cut. */
  lemma AdvanceIsMonotone(t: Text, low: Budget, high: Budget, s: nat, r: nat)
    requires low <= high && s <= r <= |t|
    ensures Advance(t, low, s) <= Advance(t, high, r)
  {
    SkipBlanksFinds(t, s);
    SkipBlanksFinds(t, r);
    var a, b := SkipBlanks(t, s), SkipBlanks(t, r);
    if a < |t| && b < |t| {
      CutIsLast(t, low, a);
      CutIsLast(t, high, b);
    }
  }

  /** Raising the limit, or starting later, never adds a chunk; hard splits included. */
  lemma {:induction false} RaisingTheLimitNeverAddsChunks(t: Text, low: Budget, high: Budget, s: nat, r: nat)
    requires low <= high && s <= r <= |t|
    ensures |SpansFrom(t, high, r)| <= |SpansFrom(t, low, s)|
    decreases |t| - s
  {
    SkipBlanksFinds(t, s);
    SkipBlanksFinds(t, r);
    if SkipBlanks(t, r) < |t| {
      AdvanceIsMonotone(t, low, high, s, r);
      RaisingTheLimitNeverAddsChunks(t, low, high, Advance(t, low, s), Advance(t, high, r));
    }
  }

  /** A position where a text may be cut without cutting a token. */
  predicate TokenBoundary(t: Text, p: nat) {
    p == 0 || p >= |t| || t[p - 1].Blank? || t[p].Blank?
  }

  /** Any other way to post the text from `s` on: ordered ranges of at most `limit` clusters
      that end between tokens and leave out nothing but blanks. */
  ghost predicate WordCutting(t: Text, limit: Budget, s: nat, c: seq<Span>)
    requires s <= |t|
    decreases |c|
  {
    if c == [] then AllBlank(t, s, |t|)
    else
      && s <= c[0].lo <= c[0].hi <= |t| && c[0].hi - c[0].lo <= limit
      && AllBlank(t, s, c[0].lo) && TokenBoundary(t, c[0].hi)
      && WordCutting(t, limit, c[0].hi, c[1..])
  }

  /** No way of cutting at whitespace needs fewer posts. The cutting may even start later:
      the greedy wrapper is at `s`, the cutting at `r`, and only blanks lie between. */
  lemma {:induction false} NoWordCuttingIsShorter(t: Text, limit: Budget, s: nat, r: nat, c: seq<Span>)
    requires s <= |t| && r <= |t| && WordCutting(t, limit, r, c) && AllBlank(t, s, r)
    ensures |SpansFrom(t, limit, s)| <= |c|
    decreases |c|
  {
    SkipBlanksFinds(t, s);
    var a := SkipBlanks(t, s);
    if a < |t| {
      assert a >= r;
      var e := CutAfter(t, limit, a);
      if c[0].hi <= a {
        NoWordCuttingIsShorter(t, limit, s, c[0].hi, c[1..]);
      } else {
        CutIsLast(t, limit, a);
        NoWordCuttingIsShorter(t, limit, e, c[0].hi, c[1..]);
      }
    }
  }

  ghost predicate AllTokensFit(t: Text, limit: Budget) {
    forall a: nat, b: nat :: IsToken(t, a, b) ==> b - a <= limit
  }

  /** The token on both sides of a position that is not a boundary. */
  lemma TokenAround(t: Text, p: nat) returns (a: nat, b: nat)
    requires !TokenBoundary(t, p)
    ensures IsToken(t, a, b) && a < p < b
  {
    a, b := p, p;
    while a > 0 && t[a - 1].Ink?
      invariant a <= p && (forall k :: a <= k <= p ==> t[k].Ink?)
    {
      a := a - 1;
    }
    while b < |t| && t[b].Ink?
      invariant p <= b <= |t| && (forall k :: a <= k < b ==> t[k].Ink?)
    {
      b := b + 1;
    }
  }

  lemma CutBetweenTokens(t: Text, limit: Budget, a: nat)
    requires a < |t| && t[a].Ink? && AllTokensFit(t, limit)
    ensures TokenBoundary(t, TrimEnd(t, a, CutAfter(t, limit, a)))
  {
    var e := CutAfter(t, limit, a);
    TrimEndFinds(t, a, e);
    CutIsLast(t, limit, a);
    if !TokenBoundary(t, e) {
      var p, q := TokenAround(t, e);
    }
  }

  lemma {:induction false} GreedyIsWordCutting(t: Text, limit: Budget, s: nat)
    requires s <= |t| && AllTokensFit(t, limit)
    ensures WordCutting(t, limit, s, SpansFrom(t, limit, s))
    decreases |t| - s
  {
    SkipBlanksFinds(t, s);
    var a := SkipBlanks(t, s);
    if a < |t| {
      var b := CutAfter(t, limit, a);
      var e, rest := TrimEnd(t, a, b), SpansFrom(t, limit, b);
      GreedyIsWordCutting(t, limit, b);
      FirstSpanTrimmed(t, limit, a);
      CutBetweenTokens(t, limit, a);
      assert WordCutting(t, limit, e, rest);
      assert ([Span(a, e)] + rest)[1..] == rest;
    }
  }

  lemma {:induction false} WordCuttingHoldsTokens(t: Text, limit: Budget, s: nat, c: seq<Span>, a: nat, b: nat)
    requires s <= a && IsToken(t, a, b) && WordCutting(t, limit, s, c)
    ensures b - a <= limit
    decreases |c|
  {
    assert t[a].Ink?;
    if c[0].hi <= a {
      WordCuttingHoldsTokens(t, limit, c[0].hi, c[1..], a, b);
    } else {
      assert b <= c[0].hi;
    }
  }

  /** The greedy split is itself such a cutting exactly when no token is longer than the
      limit, and it is then a shortest one. */
  lemma GreedyIsShortestIffTokensFit(t: Text, limit: Budget)
    ensures WordCutting(t, limit, 0, Spans(t, limit)) <==> AllTokensFit(t, limit)
    ensures forall c :: WordCutting(t, limit, 0, c) ==> |Spans(t, limit)| <= |c|
  {
    if AllTokensFit(t, limit) {
      GreedyIsWordCutting(t, limit, 0);
    }
    if WordCutting(t, limit, 0, Spans(t, limit)) {
      forall a: nat, b: nat | IsToken(t, a, b)
        ensures b - a <= limit
      {
        WordCuttingHoldsTokens(t, limit, 0, Spans(t, limit), a, b);
      }
    }
    forall c | WordCutting(t, limit, 0, c)
      ensures |Spans(t, limit)| <= |c|
    {
      NoWordCuttingIsShorter(t, limit, 0, 0, c);
    }
  }

  // ---- how much a smaller limit can cost ----

  /** Any two consecutive cuts together pass one full limit: a word the first one leaves
      behind does not fit beside it. */
  lemma TwoCutsPassTheLimit(t: Text, limit: Budget, s: nat)
    requires s <= |t|
    ensures var e := Advance(t, limit, Advance(t, limit, s));
            e == |t| || e > s + limit
  {
    SkipBlanksFinds(t, s);
    var a := SkipBlanks(t, s);
    if a < |t| {
      var e := CutAfter(t, limit, a);
      SkipBlanksFinds(t, e);
      CutIsLast(t, limit, a);
      if SkipBlanks(t, e) < |t| {
        CutIsLast(t, limit, SkipBlanks(t, e));
      }
    }
  }

  lemma OneMoreChunk(t: Text, limit: Budget, s: nat)
    requires s <= |t|
    ensures |SpansFrom(t, limit, s)| <= 1 + |SpansFrom(t, limit, Advance(t, limit, s))|
  {
  }

  /** Halving the limit at most quadruples the number of chunks. */
  lemma {:induction false} HalvingTheLimitQuadruplesAtMost(t: Text, high: Budget, low: Budget, s: nat, r: nat)
    requires high <= 2 * low && s <= r <= |t|
    ensures |SpansFrom(t, low, r)| <= 4 * |SpansFrom(t, high, s)|
    decreases |t| - s
  {
    SkipBlanksFinds(t, s);
    SkipBlanksFinds(t, r);
    var a := SkipBlanks(t, s);
    if a < |t| {
      var r0 := if r < a then a else r;
      var r1 := Advance(t, low, r0);
      var r2 := Advance(t, low, r1);
      var r3 := Advance(t, low, r2);
      var r4 := Advance(t, low, r3);
      StartingAtInk(t, low, r, r0);
      OneMoreChunk(t, low, r0);
      OneMoreChunk(t, low, r1);
      OneMoreChunk(t, low, r2);
      OneMoreChunk(t, low, r3);
      TwoCutsPassTheLimit(t, low, r0);
      TwoCutsPassTheLimit(t, low, r2);
      HalvingTheLimitQuadruplesAtMost(t, high, low, Advance(t, high, s), r4);
    }
  }

  lemma {:induction false} StartingAtInk(t: Text, limit: Budget, r: nat, a: nat)
    requires r <= a <= |t| && AllBlank(t, r, a)
    ensures SpansFrom(t, limit, r) == SpansFrom(t, limit, a)
    decreases a - r
  {
    if r < a {
      StartingAtInk(t, limit, r + 1, a);
    }
  }

  lemma InkAhead(t: Text, s: nat, a: nat, b: nat)
    requires s <= a < b <= |t| && t[a].Ink?
    ensures InkCount(t[s..]) >= 1 + InkCount(t[b..])
  {
    InkCountSplit(t[s..], a - s);
    InkCountSplit(t[a..][1..], b - a - 1);
    assert t[s..][a - s..] == t[a..];
    assert t[a..][1..][b - a - 1..] == t[b..];
  }

  /** Every chunk holds ink of its own. */
  lemma {:induction false} NoMoreChunksThanInk(t: Text, limit: Budget, s: nat)
    requires s <= |t|
    ensures |SpansFrom(t, limit, s)| <= InkCount(t[s..])
    decreases |t| - s
  {
    SkipBlanksFinds(t, s);
    var a := SkipBlanks(t, s);
    if a < |t| {
      var b := CutAfter(t, limit, a);
      NoMoreChunksThanInk(t, limit, b);
      InkAhead(t, s, a, b);
    }
  }
}
