/** What numbering promises: the fixed-point loop settles, the advertised total is the true
    one, and every numbered post fits. */
module NumberingLaws {
  import opened Graphemes
  import opened Numerals
  import opened Splitter
  import opened SplitterLaws
  import opened Numbering

  // ---- decimal widths ----

  lemma {:induction false} DigitsMonotone(m: nat, n: nat)
    requires m <= n
    ensures Digits(m) <= Digits(n)
  {
    if n >= 10 && m >= 10 {
      DigitsMonotone(m / 10, n / 10);
    }
  }

  lemma {:induction false} DigitsBelowPower(n: nat, d: nat)
    requires 1 <= d && n < Power(10, d)
    ensures Digits(n) <= d
  {
    if n >= 10 {
      assert d > 1;
      DigitsBelowPower(n / 10, d - 1);
    }
  }

  /** Less than ten times as many posts need at most one more digit. */
  lemma OneMoreDigit(m: nat, n: nat)
    requires n < 10 * m
    ensures Digits(n) <= Digits(m) + 1
  {
  }

  // ---- the total number of chunks ----

  lemma ChunkCount(t: Text, budget: Budget)
    ensures |Chunks(t, budget)| == |Spans(t, budget)|
  {
    ChunksAreSlices(t, budget, 0);
  }

  lemma {:induction false} SmallerBudgetMorePosts(pieces: seq<Text>, low: Budget, high: Budget)
    requires low <= high
    ensures |SplitAll(pieces, high)| <= |SplitAll(pieces, low)|
  {
    if pieces != [] {
      ChunkCount(pieces[0], low);
      ChunkCount(pieces[0], high);
      RaisingTheLimitNeverAddsChunks(pieces[0], low, high, 0, 0);
      SmallerBudgetMorePosts(pieces[1..], low, high);
    }
  }

  lemma {:induction false} HalfBudgetFourTimesThePosts(pieces: seq<Text>, low: Budget, high: Budget)
    requires high <= 2 * low
    ensures |SplitAll(pieces, low)| <= 4 * |SplitAll(pieces, high)|
  {
    if pieces != [] {
      ChunkCount(pieces[0], low);
      ChunkCount(pieces[0], high);
      HalvingTheLimitQuadruplesAtMost(pieces[0], high, low, 0, 0);
      HalfBudgetFourTimesThePosts(pieces[1..], low, high);
    }
  }

  function TotalInk(pieces: seq<Text>): nat {
    if pieces == [] then 0 else InkCount(pieces[0]) + TotalInk(pieces[1..])
  }

  lemma {:induction false} NoMorePostsThanInk(pieces: seq<Text>, budget: Budget)
    ensures |SplitAll(pieces, budget)| <= TotalInk(pieces)
  {
    if pieces != [] {
      ChunkCount(pieces[0], budget);
      NoMoreChunksThanInk(pieces[0], budget, 0);
      assert pieces[0][0..] == pieces[0];
      NoMorePostsThanInk(pieces[1..], budget);
    }
  }

  // ---- the loop settles ----

  /** The count that numbering starts from. */
  function FirstCount(pieces: seq<Text>, limit: nat): nat {
    |SplitAll(pieces, PerPost(limit, 0))|
  }

  /** The last round reproduced its count: the digits set aside are those the total needs. */
  predicate Stable(pieces: seq<Text>, limit: nat) {
    |Settled(pieces, limit)| == LastCount(pieces, limit, FirstCount(pieces, limit), MAX_ROUNDS)
  }

  lemma RecountMonotone(pieces: seq<Text>, limit: nat, m: nat, n: nat)
    requires m <= n
    ensures Recount(pieces, limit, m) <= Recount(pieces, limit, n)
    ensures FirstCount(pieces, limit) <= Recount(pieces, limit, m)
  {
    DigitsMonotone(if m < 1 then 1 else m, if n < 1 then 1 else n);
    SmallerBudgetMorePosts(pieces, PerPost(limit, NumberingReserve(n)), PerPost(limit, NumberingReserve(m)));
    SmallerBudgetMorePosts(pieces, PerPost(limit, NumberingReserve(m)), PerPost(limit, 0));
  }

  lemma SameWidthSameRecount(pieces: seq<Text>, limit: nat, m: nat, n: nat)
    requires 1 <= m && 1 <= n && Digits(m) == Digits(n)
    ensures Recount(pieces, limit, m) == Recount(pieces, limit, n)
  {
  }

  /** The counts only grow, a round that adds no digit is the last but one, and there are at
      most `width` digits to go through: so the loop reproduces a count in time. */
  lemma {:induction false} LoopSettles(pieces: seq<Text>, limit: nat, count: nat, rounds: nat,
                                       most: nat, width: nat)
    requires 1 <= count <= most && count <= Recount(pieces, limit, count)
    requires forall n: nat :: n <= most ==>
               Recount(pieces, limit, n) <= most && Digits(Recount(pieces, limit, n)) <= width
    requires Digits(count) <= width && width + 2 <= rounds + Digits(count)
    ensures var last := LastCount(pieces, limit, count, rounds);
            count <= last <= most && Recount(pieces, limit, last) == last
    decreases rounds
  {
    var next := Recount(pieces, limit, count);
    if next != count {
      RecountMonotone(pieces, limit, count, next);
      DigitsMonotone(count, next);
      if Digits(next) == Digits(count) {
        SameWidthSameRecount(pieces, limit, count, next);
        assert Recount(pieces, limit, next) == next;
      } else {
        LoopSettles(pieces, limit, next, rounds - 1, most, width);
      }
    }
  }

  lemma {:induction false} ExtraRoundsChangeNothing(pieces: seq<Text>, limit: nat, count: nat, few: nat, many: nat)
    requires few <= many
    requires var last := LastCount(pieces, limit, count, few); Recount(pieces, limit, last) == last
    ensures LastCount(pieces, limit, count, many) == LastCount(pieces, limit, count, few)
    decreases many
  {
    var next := Recount(pieces, limit, count);
    if next != count {
      assert few > 1;
      assert LastCount(pieces, limit, count, few) == LastCount(pieces, limit, next, few - 1);
      assert LastCount(pieces, limit, count, many) == LastCount(pieces, limit, next, many - 1);
      ExtraRoundsChangeNothing(pieces, limit, next, few - 1, many - 1);
    }
  }

  /** When the widest suffix these texts could ever need takes at most half of a post, three
      rounds suffice: the counts stay within a factor of four, so only one digit can appear. */
  lemma ThreeRoundsSuffice(pieces: seq<Text>, limit: nat)
    requires 2 * NumberingReserve(TotalInk(pieces)) <= limit && FirstCount(pieces, limit) > 0
    ensures LastCount(pieces, limit, FirstCount(pieces, limit), 3) == |Settled(pieces, limit)|
    ensures Stable(pieces, limit)
  {
    var first, most := FirstCount(pieces, limit), TotalInk(pieces);
    var width := Digits(first) + 1;
    NoMorePostsThanInk(pieces, PerPost(limit, 0));
    forall n: nat | n <= most
      ensures Recount(pieces, limit, n) <= most && Digits(Recount(pieces, limit, n)) <= width
    {
      DigitsMonotone(if n < 1 then 1 else n, most);
      NoMorePostsThanInk(pieces, PerPost(limit, NumberingReserve(n)));
      HalfBudgetFourTimesThePosts(pieces, PerPost(limit, NumberingReserve(n)), PerPost(limit, 0));
      OneMoreDigit(first, Recount(pieces, limit, n));
    }
    RecountMonotone(pieces, limit, first, first);
    LoopSettles(pieces, limit, first, 3, most, width);
    ExtraRoundsChangeNothing(pieces, limit, first, 3, MAX_ROUNDS);
  }

  // ---- every post fits ----

  lemma {:induction false} ChunksWithinBudget(t: Text, budget: Budget, s: nat, k: nat)
    requires s <= |t| && k < |ChunksFrom(t, budget, s)|
    ensures 1 <= |ChunksFrom(t, budget, s)[k]| <= budget
    decreases |t| - s
  {
    SkipBlanksFinds(t, s);
    var a := SkipBlanks(t, s);
    FirstSpanTrimmed(t, budget, a);
    if k > 0 {
      ChunksWithinBudget(t, budget, CutAfter(t, budget, a), k - 1);
    }
  }

  lemma {:induction false} PostsWithinBudget(pieces: seq<Text>, budget: Budget, k: nat)
    requires k < |SplitAll(pieces, budget)|
    ensures 1 <= |SplitAll(pieces, budget)[k]| <= budget
  {
    var head := Chunks(pieces[0], budget);
    if k < |head| {
      ChunksWithinBudget(pieces[0], budget, 0, k);
    } else {
      PostsWithinBudget(pieces[1..], budget, k - |head|);
    }
  }

  ghost predicate AllFit(posts: seq<Text>, limit: nat) {
    forall k :: 0 <= k < |posts| ==> |posts[k]| <= limit
  }

  /** Once the loop has settled, all numbered posts fit exactly when the suffix leaves room
      for at least one cluster. Otherwise every chunk is one cluster and the last post is one
      cluster too long. */
  lemma NumberedPostsFitIffRoom(pieces: seq<Text>, limit: nat)
    requires Stable(pieces, limit) && |Settled(pieces, limit)| > 1
    ensures var posts := Plan(pieces, true, limit);
            AllFit(posts, limit) <==> NumberingReserve(|posts|) < limit
  {
    var segments := Settled(pieces, limit);
    var total, posts := |segments|, Numbered(segments);
    var budget := PerPost(limit, NumberingReserve(total));
    RecountMonotone(pieces, limit, total, total);
    FirstCountPositive(pieces, limit);
    assert segments == SplitAll(pieces, budget);
    forall k | 0 <= k < total
      ensures 1 <= |segments[k]| <= budget
      ensures |posts[k]| == |segments[k]| + 2 + Digits(k + 1) + Digits(total)
      ensures Digits(k + 1) <= Digits(total)
    {
      assert posts[k] == segments[k] + Suffix(k + 1, total);
      PostsWithinBudget(pieces, budget, k);
      DigitsMonotone(k + 1, total);
    }
    if NumberingReserve(total) >= limit {
      assert |posts[total - 1]| > limit;
    }
  }

  lemma {:induction false} FirstCountPositive(pieces: seq<Text>, limit: nat)
    requires |Settled(pieces, limit)| > 1
    ensures FirstCount(pieces, limit) > 0
  {
    var n := NumberingReserve(LastCount(pieces, limit, FirstCount(pieces, limit), MAX_ROUNDS));
    EmptyForEveryBudget(pieces, PerPost(limit, 0), PerPost(limit, n));
  }

  lemma {:induction false} EmptyForEveryBudget(pieces: seq<Text>, high: Budget, low: Budget)
    ensures SplitAll(pieces, high) == [] ==> SplitAll(pieces, low) == []
  {
    if pieces != [] {
      EmptyForEveryBudget(pieces[1..], high, low);
    }
  }

  /** The most clusters a text can have where sizes are 64 bits wide. */
  const MAX_SIZE := 0xffff_ffff_ffff_ffff

  /** What `ThreadBuilder::numbered` promises, for the limit `send` uses and texts of any
      size: the loop settles in three rounds, every post fits, and post `i` of the `N` that
      are made ends in ` i/N`. */
  lemma NumberedThreadFits(pieces: seq<Text>)
    requires TotalInk(pieces) <= MAX_SIZE
    ensures AllFit(Plan(pieces, true, MAX_POST_GRAPHEMES), MAX_POST_GRAPHEMES)
    ensures FirstCount(pieces, MAX_POST_GRAPHEMES) > 0 ==>
              LastCount(pieces, MAX_POST_GRAPHEMES, FirstCount(pieces, MAX_POST_GRAPHEMES), 3) ==
              |Plan(pieces, true, MAX_POST_GRAPHEMES)|
  {
    var limit := MAX_POST_GRAPHEMES;
    var ink := TotalInk(pieces);
    if FirstCount(pieces, limit) > 0 {
      SizeHasTwentyDigits(ink);
      ThreeRoundsSuffice(pieces, limit);
      var segments := Settled(pieces, limit);
      if |segments| > 1 {
        DigitsOfTotal(pieces, limit);
        NumberedPostsFitIffRoom(pieces, limit);
      } else {
        SettledWithinBudget(pieces, limit);
      }
    }
  }

  lemma SizeHasTwentyDigits(n: nat)
    requires n <= MAX_SIZE
    ensures Digits(n) <= 20
  {
    assert Power(10, 10) == 10_000_000_000;
    assert Power(10, 20) == 100_000_000_000_000_000_000;
    DigitsBelowPower(n, 20);
  }

  lemma DigitsOfTotal(pieces: seq<Text>, limit: nat)
    ensures NumberingReserve(|Settled(pieces, limit)|) <= NumberingReserve(TotalInk(pieces))
  {
    var n := LastCount(pieces, limit, FirstCount(pieces, limit), MAX_ROUNDS);
    NoMorePostsThanInk(pieces, PerPost(limit, NumberingReserve(n)));
    var total, ink := |Settled(pieces, limit)|, TotalInk(pieces);
    DigitsMonotone(if total < 1 then 1 else total, if ink < 1 then 1 else ink);
  }

  lemma SettledWithinBudget(pieces: seq<Text>, limit: nat)
    requires limit >= 1
    ensures AllFit(Settled(pieces, limit), limit)
  {
    var n := LastCount(pieces, limit, FirstCount(pieces, limit), MAX_ROUNDS);
    var budget := PerPost(limit, NumberingReserve(n));
    forall k | 0 <= k < |Settled(pieces, limit)|
      ensures |Settled(pieces, limit)[k]| <= limit
    {
      PostsWithinBudget(pieces, budget, k);
    }
  }

  // ---- no text is lost ----

  /** Posts with their ` i/N` tags taken off again. */
  function Untag(posts: seq<Text>): seq<Text> {
    seq(|posts|, k requires 0 <= k < |posts| =>
      var tag := |Suffix(k + 1, |posts|)|;
      if |posts[k]| < tag then [] else posts[k][..|posts[k]| - tag])
  }

  lemma UntagNumbered(segments: seq<Text>)
    ensures Untag(Numbered(segments)) == segments
  {
  }

  lemma {:induction false} JoinConcat(a: seq<Text>, b: seq<Text>)
    ensures Join(a + b) == Join(a) + Join(b)
  {
    if a == [] {
      assert a + b == b;
    } else {
      JoinConcat(a[1..], b);
      assert (a + b)[1..] == a[1..] + b;
    }
  }

  lemma {:induction false} SplitAllKeepsEveryInk(pieces: seq<Text>, budget: Budget)
    ensures InkOnly(Join(SplitAll(pieces, budget))) == InkOnly(Join(pieces))
  {
    if pieces != [] {
      SplitKeepsEveryInk(pieces[0], budget, 0);
      assert pieces[0][0..] == pieces[0];
      SplitAllKeepsEveryInk(pieces[1..], budget);
      var head, tail := Chunks(pieces[0], budget), SplitAll(pieces[1..], budget);
      JoinConcat(head, tail);
      InkOnlyConcat(Join(head), Join(tail));
      InkOnlyConcat(pieces[0], Join(pieces[1..]));
    }
  }

  /** The posts, tags aside, hold exactly the visible text of all pieces, in order. */
  lemma NumberedThreadKeepsEveryInk(pieces: seq<Text>, limit: nat)
    ensures var posts := Plan(pieces, true, limit);
            InkOnly(Join(if |posts| > 1 then Untag(posts) else posts)) ==
            InkOnly(Join(pieces))
  {
    var n := LastCount(pieces, limit, FirstCount(pieces, limit), MAX_ROUNDS);
    SplitAllKeepsEveryInk(pieces, PerPost(limit, 0));
    SplitAllKeepsEveryInk(pieces, PerPost(limit, NumberingReserve(n)));
    UntagNumbered(Settled(pieces, limit));
  }

  /** The number a row of digits stands for. */
  function ReadDecimal(t: Text): int {
    if t == [] then 0 else 10 * ReadDecimal(t[..|t| - 1]) + t[|t| - 1].code - 48
  }

  lemma {:induction false} DecimalReadsBack(n: nat)
    ensures ReadDecimal(Decimal(n)) == n
  {
    if n >= 10 {
      DecimalReadsBack(n / 10);
      assert Decimal(n)[..|Decimal(n)| - 1] == Decimal(n / 10);
    }
  }

  lemma PlanIsNumbered(pieces: seq<Text>, limit: nat)
    requires |Settled(pieces, limit)| > 1
    ensures Plan(pieces, true, limit) == Numbered(Settled(pieces, limit))
  {
    FirstCountPositive(pieces, limit);
  }

  /** `tag` is a space, a number, a slash and a number, and they read as `i` and `total`. */
  predicate TagSays(tag: Text, i: nat, total: nat) {
    var d := Digits(i);
    && |tag| == 2 + d + Digits(total)
    && tag[0] == SPACE && tag[1 + d] == SLASH
    && ReadDecimal(tag[1..1 + d]) == i
    && ReadDecimal(tag[2 + d..]) == total
  }

  lemma TagReadsBack(i: nat, total: nat)
    ensures TagSays(Suffix(i, total), i, total)
  {
    var tag, d := Suffix(i, total), Digits(i);
    assert tag == [SPACE] + Decimal(i) + [SLASH] + Decimal(total);
    assert tag[1..1 + d] == Decimal(i);
    assert tag[2 + d..] == Decimal(total);
    DecimalReadsBack(i);
    DecimalReadsBack(total);
  }

  /** In a plan of several posts, post `k` is the `k`-th chunk of the settled split, and a tag that
      reads as its position and as how many posts there really are. */
  lemma PostReadsBack(pieces: seq<Text>, limit: nat, k: nat)
    requires 1 < |Plan(pieces, true, limit)| && k < |Plan(pieces, true, limit)|
    ensures var posts, chunks := Plan(pieces, true, limit), Settled(pieces, limit);
            && |posts| == |chunks| && |chunks[k]| <= |posts[k]|
            && posts[k][..|chunks[k]|] == chunks[k]
            && TagSays(posts[k][|chunks[k]|..], k + 1, |posts|)
  {
    var chunks := Settled(pieces, limit);
    PlanIsNumbered(pieces, limit);
    var post, tag := Numbered(chunks)[k], Suffix(k + 1, |chunks|);
    assert post == chunks[k] + tag;
    TagReadsBack(k + 1, |chunks|);
    assert post[|chunks[k]|..] == tag;
  }

  /** A plan without numbering fits whatever the limit, down to one cluster. */
  lemma UnnumberedThreadFits(pieces: seq<Text>, limit: nat)
    requires limit >= 1
    ensures AllFit(Plan(pieces, false, limit), limit)
  {
    var posts := SplitAll(pieces, PerPost(limit, 0));
    forall k | 0 <= k < |posts|
      ensures |posts[k]| <= limit
    {
      PostsWithinBudget(pieces, PerPost(limit, 0), k);
    }
  }
}
