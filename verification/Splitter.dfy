/** Text as the splitter sees it: a sequence of extended grapheme clusters. */
module Graphemes {

  /** One cluster. `Blank` is a cluster made of whitespace only (a space, a tab, a line
      break); `Ink` is any other. The code stands for the characters of the cluster. */
  datatype Grapheme = Blank(code: nat) | Ink(code: nat)

  type Text = seq<Grapheme>

  /** The number of non-whitespace clusters. */
  function InkCount(t: Text): nat {
    if t == [] then 0 else (if t[0].Ink? then 1 else 0) + InkCount(t[1..])
  }

  lemma {:induction false} InkCountSplit(t: Text, k: nat)
    requires k <= |t|
    ensures InkCount(t) == InkCount(t[..k]) + InkCount(t[k..])
  {
    if k == 0 {
      assert t[0..] == t;
    } else {
      InkCountSplit(t[1..], k - 1);
      assert t[1..][..k - 1] == t[..k][1..];
      assert t[1..][k - 1..] == t[k..];
    }
  }
}

/** The greedy word wrapper of `src/thread.rs`: `split_into_chunks` and `push_chunk`. */
module Splitter {
  import opened Graphemes
  import opened Wrappers

  /** A budget after `limit.max(1)`. */
  type Budget = n: nat | 1 <= n witness 1

  /** The half-open range `[lo, hi)` of positions in a text. */
  datatype Span = Span(lo: nat, hi: nat)

  // ---- the specification: where the greedy wrapper cuts ----

  /** The first inked position at or after `s`, or the end of the text. */
  function SkipBlanks(t: Text, s: nat): (r: nat)
    requires s <= |t|
    ensures s <= r <= |t|
    decreases |t| - s
  {
    if s < |t| && t[s].Blank? then SkipBlanks(t, s + 1) else s
  }

  /** The last blank in `(start, i]`, or `start` when that window is all ink. */
  function LastBlank(t: Text, start: nat, i: nat): (r: nat)
    requires start <= i < |t|
    ensures start <= r <= i
    decreases i
  {
    if i == start || t[i].Blank? then i else LastBlank(t, start, i - 1)
  }

  /** Where the chunk that starts at the inked position `a` is cut. */
  function CutAfter(t: Text, limit: Budget, a: nat): (r: nat)
    requires a < |t|
    ensures a < r <= |t| && r <= a + limit
  {
    if |t| - a <= limit then |t|
    else
      var b := LastBlank(t, a, a + limit);
      if b > a then b else a + limit
  }

  /** `hi` moved left over trailing blanks. */
  function TrimEnd(t: Text, lo: nat, hi: nat): (r: nat)
    requires lo <= hi <= |t|
    ensures lo <= r <= hi
    decreases hi
  {
    if lo < hi && t[hi - 1].Blank? then TrimEnd(t, lo, hi - 1) else hi
  }

  lemma {:induction false} SkipBlanksFinds(t: Text, s: nat)
    requires s <= |t|
    ensures forall k :: s <= k < SkipBlanks(t, s) ==> t[k].Blank?
    ensures SkipBlanks(t, s) < |t| ==> t[SkipBlanks(t, s)].Ink?
    decreases |t| - s
  {
    if s < |t| && t[s].Blank? {
      SkipBlanksFinds(t, s + 1);
    }
  }

  lemma {:induction false} LastBlankFinds(t: Text, start: nat, i: nat)
    requires start <= i < |t|
    ensures forall k :: LastBlank(t, start, i) < k <= i ==> t[k].Ink?
    ensures LastBlank(t, start, i) > start ==> t[LastBlank(t, start, i)].Blank?
    decreases i
  {
    if i > start && t[i].Ink? {
      LastBlankFinds(t, start, i - 1);
    }
  }

  lemma {:induction false} TrimEndFinds(t: Text, lo: nat, hi: nat)
    requires lo <= hi <= |t|
    ensures forall k :: TrimEnd(t, lo, hi) <= k < hi ==> t[k].Blank?
    ensures TrimEnd(t, lo, hi) > lo ==> t[TrimEnd(t, lo, hi) - 1].Ink?
    decreases hi
  {
    if lo < hi && t[hi - 1].Blank? {
      TrimEndFinds(t, lo, hi - 1);
    }
  }

  /** One step of the wrapper: skip blanks, then cut one chunk. */
  function Advance(t: Text, limit: Budget, s: nat): (r: nat)
    requires s <= |t|
    ensures s <= r <= |t|
    ensures s < |t| ==> s < r
  {
    var a := SkipBlanks(t, s);
    if a == |t| then |t| else CutAfter(t, limit, a)
  }

  /** The trimmed ranges of all the chunks cut from position `s` on. */
  function SpansFrom(t: Text, limit: Budget, s: nat): seq<Span>
    requires s <= |t|
    decreases |t| - s
  {
    var a := SkipBlanks(t, s);
    if a == |t| then []
    else
      var b := CutAfter(t, limit, a);
      [Span(a, TrimEnd(t, a, b))] + SpansFrom(t, limit, b)
  }

  function Spans(t: Text, limit: Budget): seq<Span> {
    SpansFrom(t, limit, 0)
  }

  ghost predicate InText(t: Text, c: seq<Span>) {
    forall k :: 0 <= k < |c| ==> c[k].lo <= c[k].hi <= |t|
  }

  function Slices(t: Text, c: seq<Span>): (r: seq<Text>)
    requires InText(t, c)
    ensures |r| == |c|
    ensures forall k :: 0 <= k < |c| ==> r[k] == t[c[k].lo..c[k].hi]
  {
    if c == [] then [] else
      assert c[0].hi <= |t|;
      [t[c[0].lo..c[0].hi]] + Slices(t, c[1..])
  }

  /** The trimmed texts of those chunks. */
  function ChunksFrom(t: Text, limit: Budget, s: nat): seq<Text>
    requires s <= |t|
    decreases |t| - s
  {
    var a := SkipBlanks(t, s);
    if a == |t| then []
    else
      var b := CutAfter(t, limit, a);
      [t[a..TrimEnd(t, a, b)]] + ChunksFrom(t, limit, b)
  }

  lemma {:induction false} ChunksAreSlices(t: Text, limit: Budget, s: nat)
    requires s <= |t|
    ensures InText(t, SpansFrom(t, limit, s))
    ensures ChunksFrom(t, limit, s) == Slices(t, SpansFrom(t, limit, s))
    decreases |t| - s
  {
    var a := SkipBlanks(t, s);
    if a < |t| {
      var b := CutAfter(t, limit, a);
      ChunksAreSlices(t, limit, b);
      assert SpansFrom(t, limit, s)[1..] == SpansFrom(t, limit, b);
    }
  }

  /** The chunk texts of `t` within `limit` clusters each. */
  function Chunks(t: Text, limit: nat): seq<Text> {
    ChunksFrom(t, if limit < 1 then 1 else limit, 0)
  }

  // ---- the code ----

  /** The slice `[lo, hi)` of `t`, trimmed at both ends. */
  function TrimSlice(t: Text, lo: nat, hi: nat): Text
    requires lo <= hi <= |t|
  {
    var a := SkipBlanks(t, lo);
    if a >= hi then [] else t[a..TrimEnd(t, a, hi)]
  }

  /** `piece` is the range `[lo, hi)` of `t` without the blanks at its ends: it starts and ends
      with ink, and is empty when there is none. */
  ghost predicate IsTrimOf(piece: Text, t: Text, lo: nat, hi: nat)
    requires lo <= hi <= |t|
  {
    exists a: nat, e: nat :: lo <= a <= e <= hi && piece == t[a..e] && OnlyBlanksAround(t, lo, a, e, hi)
  }

  ghost predicate OnlyBlanksAround(t: Text, lo: nat, a: nat, e: nat, hi: nat)
    requires lo <= a <= e <= hi <= |t|
  {
    && (forall k :: lo <= k < a || e <= k < hi ==> t[k].Blank?)
    && (a < e ==> t[a].Ink? && t[e - 1].Ink?)
  }

  /** There is exactly one way to trim a range, and `TrimSlice` is that. */
  lemma TrimSliceIsTheTrim(piece: Text, t: Text, lo: nat, hi: nat)
    requires lo <= hi <= |t|
    ensures IsTrimOf(piece, t, lo, hi) <==> piece == TrimSlice(t, lo, hi)
  {
    var a := SkipBlanks(t, lo);
    SkipBlanksFinds(t, lo);
    if a >= hi {
      assert t[hi..hi] == [] && OnlyBlanksAround(t, lo, hi, hi, hi);
    } else {
      TrimEndFinds(t, a, hi);
      assert OnlyBlanksAround(t, lo, a, TrimEnd(t, a, hi), hi);
    }
  }

  /** `push_chunk`: trim the slice and keep it unless nothing is left. */
  method PushChunk(chunks: seq<Text>, t: Text, lo: nat, hi: nat) returns (r: seq<Text>)
    requires lo <= hi <= |t|
    ensures r == chunks + if TrimSlice(t, lo, hi) == [] then [] else [TrimSlice(t, lo, hi)]
    ensures IsTrimOf(TrimSlice(t, lo, hi), t, lo, hi)
  {
    TrimSliceIsTheTrim(TrimSlice(t, lo, hi), t, lo, hi);
    var trimmed := TrimSlice(t, lo, hi);
    r := chunks;
    if trimmed != [] {
      r := r + [trimmed];
    }
  }

  /** The inner loop of `split_into_chunks` that keeps a chunk from starting with a blank. */
  method FindInk(t: Text, s: nat) returns (start: nat)
    requires s <= |t|
    ensures start == SkipBlanks(t, s)
  {
    start := s;
    while start < |t| && t[start].Blank?
      invariant start <= |t|
      invariant SkipBlanks(t, start) == SkipBlanks(t, s)
    {
      start := start + 1;
    }
  }

  /** The backward scan of `split_into_chunks` for the last blank in `(start, windowEnd]`. */
  method FindBreak(t: Text, start: nat, windowEnd: nat) returns (breakAt: Option<nat>)
    requires start < windowEnd < |t|
    ensures breakAt ==
            var b := LastBlank(t, start, windowEnd);
            if b > start then Some(b) else None
  {
    var i := windowEnd;
    while i > start
      invariant start < i <= windowEnd
      invariant LastBlank(t, start, i) == LastBlank(t, start, windowEnd)
    {
      if t[i].Blank? {
        return Some(i);
      }
      if i == start + 1 {
        break;
      }
      i := i - 1;
    }
    return None;
  }

  /** One turn of the main loop, on what is already emitted and what is still to come. */
  lemma OneTurn(t: Text, limit: Budget, chunks: seq<Text>, s: nat)
    requires s <= |t|
    ensures var a, all := SkipBlanks(t, s), chunks + ChunksFrom(t, limit, s);
            if a == |t| then chunks == all
            else
              var cut := CutAfter(t, limit, a);
              var piece := TrimSlice(t, a, cut);
              && piece != []
              && (chunks + [piece]) + ChunksFrom(t, limit, cut) == all
              && (cut == |t| ==> chunks + [piece] == all)
  {
    var a := SkipBlanks(t, s);
    if a < |t| {
      var cut := CutAfter(t, limit, a);
      SkipBlanksFinds(t, s);
      TrimEndFinds(t, a, cut);
      assert SkipBlanks(t, a) == a;
      assert ChunksFrom(t, limit, s) == [TrimSlice(t, a, cut)] + ChunksFrom(t, limit, cut);
    }
  }

  /** `split_into_chunks`. */
  method SplitIntoChunks(t: Text, limit: nat) returns (chunks: seq<Text>)
    ensures chunks == Chunks(t, limit)
  {
    ghost var all := Chunks(t, limit);
    var limit: Budget := if limit < 1 then 1 else limit;
    var n := |t|;
    chunks := [];
    var start := 0;
    while start < n
      invariant start <= n
      invariant chunks + ChunksFrom(t, limit, start) == all
    {
      OneTurn(t, limit, chunks, start);
      start := FindInk(t, start);
      if start >= n {
        break;
      }
      ghost var cut := CutAfter(t, limit, start);
      if n - start <= limit {
        assert cut == n;
        chunks := PushChunk(chunks, t, start, n);
        break;
      }
      var windowEnd := start + limit;
      var breakAt := FindBreak(t, start, windowEnd);
      match breakAt {
        case Some(bi) =>
          assert bi == cut;
          chunks := PushChunk(chunks, t, start, bi);
          start := bi;
        case None =>
          assert windowEnd == cut;
          chunks := PushChunk(chunks, t, start, windowEnd);
          start := windowEnd;
      }
    }
  }
}
