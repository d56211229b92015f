/** What a plan is made of, numbered or not: the posts are cut from the pieces in order, no post
    takes from two pieces, and no other cutting at whitespace makes fewer. */
module PlanLaws {
  import opened Graphemes
  import opened Splitter
  import opened SplitterLaws
  import opened Numbering
  import opened NumberingLaws
  import opened NumberingLimits
  import NumberingRounds

  // ---- cuttings of all pieces ----

  /** `limit` clusters less what a tag of a thread of `total` posts takes, but at least one. */
  function Room(limit: nat, numbered: bool, total: nat): Budget {
    var tag := if numbered then 2 + 2 * Digits(total) else 0;
    if limit > tag then limit - tag else 1
  }

  /** The posts without their tags; a single post has none. */
  function Bodies(posts: seq<Text>, numbered: bool): seq<Text> {
    if numbered && |posts| > 1 then Untag(posts) else posts
  }

  /** For each piece its ranges: trimmed, within `budget`, leaving out nothing but blanks. */
  ghost predicate CutsAll(pieces: seq<Text>, budget: Budget, cuts: seq<seq<Span>>) {
    |cuts| == |pieces| &&
    forall i :: 0 <= i < |pieces| ==> InText(pieces[i], cuts[i]) && Tiles(pieces[i], budget, 0, cuts[i])
  }

  /** No token that fits is cut. */
  ghost predicate KeepsTokens(pieces: seq<Text>, budget: Budget, cuts: seq<seq<Span>>) {
    |cuts| == |pieces| && forall i :: 0 <= i < |pieces| ==> WholeTokens(pieces[i], budget, cuts[i])
  }

  ghost predicate WholeTokens(t: Text, budget: Budget, c: seq<Span>) {
    forall a: nat, b: nat :: IsToken(t, a, b) && b - a <= budget ==>
      exists s :: s in c && s.lo <= a && b <= s.hi
  }

  /** The texts of the ranges, piece after piece. */
  function AllSlices(pieces: seq<Text>, cuts: seq<seq<Span>>): seq<Text>
    requires |cuts| == |pieces| && forall i :: 0 <= i < |pieces| ==> InText(pieces[i], cuts[i])
  {
    if pieces == [] then [] else Slices(pieces[0], cuts[0]) + AllSlices(pieces[1..], cuts[1..])
  }

  /** Any other way to post the pieces, each cut at whitespace. */
  ghost predicate WordCuttings(pieces: seq<Text>, budget: Budget, others: seq<seq<Span>>) {
    |others| == |pieces| &&
    forall i :: 0 <= i < |pieces| ==> WordCutting(pieces[i], budget, 0, others[i])
  }

  function RangeCount(cuts: seq<seq<Span>>): nat {
    if cuts == [] then 0 else |cuts[0]| + RangeCount(cuts[1..])
  }

  // ---- the split ----

  function GreedyCuts(pieces: seq<Text>, budget: Budget): (cuts: seq<seq<Span>>) {
    seq(|pieces|, i requires 0 <= i < |pieces| => Spans(pieces[i], budget))
  }

  lemma GreedyCutsAll(pieces: seq<Text>, budget: Budget)
    ensures CutsAll(pieces, budget, GreedyCuts(pieces, budget))
    ensures KeepsTokens(pieces, budget, GreedyCuts(pieces, budget))
  {
    forall i | 0 <= i < |pieces|
      ensures InText(pieces[i], Spans(pieces[i], budget)) && Tiles(pieces[i], budget, 0, Spans(pieces[i], budget))
      ensures WholeTokens(pieces[i], budget, Spans(pieces[i], budget))
    {
      ChunksAreSlices(pieces[i], budget, 0);
      SplitIsFaithful(pieces[i], budget, 0);
      GreedyKeepsTokens(pieces[i], budget);
    }
  }

  lemma GreedyKeepsTokens(t: Text, budget: Budget)
    ensures WholeTokens(t, budget, Spans(t, budget))
  {
    forall a: nat, b: nat | IsToken(t, a, b) && b - a <= budget
      ensures exists s :: s in Spans(t, budget) && s.lo <= a && b <= s.hi
    {
      ShortTokensStayWhole(t, budget, 0, a, b);
    }
  }

  lemma {:induction false} SplitIsAllSlices(pieces: seq<Text>, budget: Budget)
    requires CutsAll(pieces, budget, GreedyCuts(pieces, budget))
    ensures SplitAll(pieces, budget) == AllSlices(pieces, GreedyCuts(pieces, budget))
  {
    if pieces != [] {
      GreedyCutsAll(pieces[1..], budget);
      SplitIsAllSlices(pieces[1..], budget);
      ChunksAreSlices(pieces[0], budget, 0);
      assert GreedyCuts(pieces, budget)[1..] == GreedyCuts(pieces[1..], budget);
    }
  }

  lemma {:induction false} SplitIsShortest(pieces: seq<Text>, budget: Budget, others: seq<seq<Span>>)
    requires WordCuttings(pieces, budget, others)
    ensures |SplitAll(pieces, budget)| <= RangeCount(others)
  {
    if pieces != [] {
      ChunkCount(pieces[0], budget);
      NoWordCuttingIsShorter(pieces[0], budget, 0, 0, others[0]);
      SplitIsShortest(pieces[1..], budget, others[1..]);
    }
  }

  // ---- the plan ----

  /** The posts of a plan, tags aside, are ranges of the pieces in order: each within one piece,
      trimmed, with room for its tag, none cutting a token that fits, and together leaving out
      nothing but blanks. */
  lemma PlanCutsThePieces(pieces: seq<Text>, numbered: bool, limit: nat) returns (cuts: seq<seq<Span>>)
    requires numbered ==> TotalInk(pieces) <= MAX_SIZE
    ensures var posts := Plan(pieces, numbered, limit);
            && CutsAll(pieces, Room(limit, numbered, |posts|), cuts)
            && KeepsTokens(pieces, Room(limit, numbered, |posts|), cuts)
            && Bodies(posts, numbered) == AllSlices(pieces, cuts)
  {
    var budget := Room(limit, numbered, |Plan(pieces, numbered, limit)|);
    cuts := GreedyCuts(pieces, budget);
    GreedyCutsAll(pieces, budget);
    SplitIsAllSlices(pieces, budget);
    PlanBodies(pieces, numbered, limit);
  }

  lemma PlanBodies(pieces: seq<Text>, numbered: bool, limit: nat)
    requires numbered ==> TotalInk(pieces) <= MAX_SIZE
    ensures var posts := Plan(pieces, numbered, limit);
            Bodies(posts, numbered) == SplitAll(pieces, Room(limit, numbered, |posts|))
  {
    if numbered && FirstCount(pieces, limit) == 0 {
      EmptyForEveryBudget(pieces, PerPost(limit, 0), Room(limit, true, 0));
    } else if numbered {
      var chunks := Settled(pieces, limit);
      NumberingRounds.EightRoundsSuffice(pieces, limit);
      SettledAtOneIff(pieces, limit);
      UntagNumbered(chunks);
      assert chunks == SplitAll(pieces, PerPost(limit, NumberingReserve(|chunks|)));
    }
  }

  /** No cutting at whitespace whose ranges leave room for the tags of as many posts as it makes
      has fewer ranges than the plan has posts, whatever the limit. */
  lemma PlanIsShortest(pieces: seq<Text>, numbered: bool, limit: nat, others: seq<seq<Span>>)
    requires WordCuttings(pieces, Room(limit, numbered, RangeCount(others)), others)
    ensures |Plan(pieces, numbered, limit)| <= RangeCount(others)
  {
    var n := RangeCount(others);
    SplitIsShortest(pieces, Room(limit, numbered, n), others);
    if numbered {
      RecountMonotone(pieces, limit, n, n);
      CountsStayBelow(pieces, limit, FirstCount(pieces, limit), MAX_ROUNDS, n);
    }
  }

  /** So the posts, tags aside, hold exactly the visible text of all pieces, in order. */
  lemma PlanKeepsEveryInk(pieces: seq<Text>, numbered: bool, limit: nat)
    ensures InkOnly(Join(Bodies(Plan(pieces, numbered, limit), numbered))) == InkOnly(Join(pieces))
  {
    if numbered {
      NumberedThreadKeepsEveryInk(pieces, limit);
    } else {
      SplitAllKeepsEveryInk(pieces, PerPost(limit, 0));
    }
  }
}
