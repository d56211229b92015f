/** Which texts are numbered, and which limits have room for the tags: conditions on the texts
    and the limit alone. */
module NumberingLimits {
  import opened Graphemes
  import opened Splitter
  import opened SplitterLaws
  import opened Numbering
  import opened NumberingLaws
  import opened NumberingRounds

  // ---- one post or several ----

  /** A text without the blanks at its ends. */
  function Trim(t: Text): Text {
    TrimSlice(t, 0, |t|)
  }

  /** A text is one chunk, or none, exactly when its trimmed width is within the limit. */
  lemma OneChunkIffNarrow(t: Text, limit: Budget)
    ensures |Spans(t, limit)| <= 1 <==> |Trim(t)| <= limit
    ensures Spans(t, limit) == [] <==> Trim(t) == []
  {
    SkipBlanksFinds(t, 0);
    var a := SkipBlanks(t, 0);
    if a < |t| {
      var cut, e := CutAfter(t, limit, a), TrimEnd(t, a, |t|);
      CutIsLast(t, limit, a);
      TrimEndFinds(t, a, |t|);
      SkipBlanksFinds(t, cut);
      assert |Trim(t)| == e - a > 0;
      assert SkipBlanks(t, cut) == |t| <==> e <= a + limit;
      assert |Spans(t, limit)| == 1 + |SpansFrom(t, limit, cut)|;
    }
  }

  /** The pieces that are not all blank, trimmed. */
  function InkedPieces(pieces: seq<Text>): seq<Text> {
    if pieces == [] then []
    else (if Trim(pieces[0]) == [] then [] else [Trim(pieces[0])]) + InkedPieces(pieces[1..])
  }

  predicate OneNarrowPiece(pieces: seq<Text>, limit: nat) {
    |InkedPieces(pieces)| == 1 && |InkedPieces(pieces)[0]| <= limit
  }

  lemma {:induction false} OnePostIffOneNarrowPiece(pieces: seq<Text>, budget: Budget)
    ensures SplitAll(pieces, budget) == [] <==> InkedPieces(pieces) == []
    ensures |SplitAll(pieces, budget)| == 1 <==> OneNarrowPiece(pieces, budget)
  {
    if pieces != [] {
      ChunkCount(pieces[0], budget);
      OneChunkIffNarrow(pieces[0], budget);
      OnePostIffOneNarrowPiece(pieces[1..], budget);
    }
  }

  lemma {:induction false} CountsOnlyGrow(pieces: seq<Text>, limit: nat, count: nat, rounds: nat)
    requires 1 <= count <= Recount(pieces, limit, count)
    ensures count <= LastCount(pieces, limit, count, rounds)
    decreases rounds
  {
    var next := Recount(pieces, limit, count);
    RecountMonotone(pieces, limit, count, next);
    if next != count && rounds > 1 {
      CountsOnlyGrow(pieces, limit, next, rounds - 1);
    }
  }

  lemma SettledAtOneIff(pieces: seq<Text>, limit: nat)
    requires FirstCount(pieces, limit) > 0
    ensures |Settled(pieces, limit)| >= 1
    ensures |Settled(pieces, limit)| == 1 <==> Recount(pieces, limit, 1) == 1
  {
    var first := FirstCount(pieces, limit);
    var last := LastCount(pieces, limit, first, MAX_ROUNDS);
    RecountMonotone(pieces, limit, first, first);
    CountsOnlyGrow(pieces, limit, first, MAX_ROUNDS);
    RecountMonotone(pieces, limit, 1, last);
    RecountMonotone(pieces, limit, last, last);
  }

  /** A numbered thread is a single untagged post exactly when one piece has ink and, trimmed,
      leaves room for ` 1/1` or is one cluster; it is empty exactly when no piece has ink. */
  lemma UntaggedIffOneNarrowPiece(pieces: seq<Text>, limit: nat)
    ensures |Plan(pieces, true, limit)| == 1 <==> OneNarrowPiece(pieces, PerPost(limit, 4))
    ensures Plan(pieces, true, limit) == [] <==> InkedPieces(pieces) == []
  {
    OnePostIffOneNarrowPiece(pieces, PerPost(limit, 0));
    OnePostIffOneNarrowPiece(pieces, PerPost(limit, 4));
    assert Recount(pieces, limit, 1) == |SplitAll(pieces, PerPost(limit, 4))|;
    if FirstCount(pieces, limit) > 0 {
      SettledAtOneIff(pieces, limit);
    }
  }

  /** `n` inked clusters in a row. */
  function Word(n: nat): Text {
    seq(n, _ => Ink(0))
  }

  lemma WordIsTrimmed(n: nat)
    ensures Trim(Word(n)) == Word(n)
  {
    assert OnlyBlanksAround(Word(n), 0, 0, n, n) && Word(n)[0..n] == Word(n);
    TrimSliceIsTheTrim(Word(n), Word(n), 0, n);
  }

  /** So a piece of 297 clusters, which fits in one post as it is, is split and numbered. */
  lemma FittingTextIsSplit()
    ensures |Plan([Word(297)], false, MAX_POST_GRAPHEMES)| == 1
    ensures |Plan([Word(297)], true, MAX_POST_GRAPHEMES)| > 1
  {
    WordIsTrimmed(297);
    assert InkedPieces([Word(297)]) == [Word(297)];
    OnePostIffOneNarrowPiece([Word(297)], 300);
    UntaggedIffOneNarrowPiece([Word(297)], MAX_POST_GRAPHEMES);
  }

  // ---- room for the tags ----

  lemma {:induction false} BelowNines(n: nat)
    ensures n <= Nines(Digits(n))
  {
    if n >= 10 {
      BelowNines(n / 10);
    }
  }

  /** The largest number of `d` digits. */
  function Nines(d: nat): nat {
    if d == 0 then 0 else 10 * Nines(d - 1) + 9
  }

  lemma {:induction false} DigitsOfNines(d: nat)
    requires d >= 1
    ensures Digits(Nines(d)) == d
  {
    if d > 1 {
      DigitsOfNines(d - 1);
    }
  }

  lemma {:induction false} CountsStayBelow(pieces: seq<Text>, limit: nat, count: nat, rounds: nat, most: nat)
    requires count <= most && Recount(pieces, limit, most) <= most
    ensures LastCount(pieces, limit, count, rounds) <= most
    ensures Recount(pieces, limit, LastCount(pieces, limit, count, rounds)) <= most
    decreases rounds
  {
    var next := Recount(pieces, limit, count);
    RecountMonotone(pieces, limit, count, most);
    if next != count && rounds > 1 {
      CountsStayBelow(pieces, limit, next, rounds - 1, most);
    }
  }

  /** With `d` digits set aside for the total, the tags leave room and the total has `d` digits. */
  predicate RoomForDigits(pieces: seq<Text>, limit: nat, d: nat) {
    d >= 1 && 2 + 2 * d < limit && Recount(pieces, limit, Nines(d)) <= Nines(d)
  }

  lemma RoomIsEnough(pieces: seq<Text>, limit: nat, d: nat)
    requires RoomForDigits(pieces, limit, d)
    ensures NumberingReserve(|Settled(pieces, limit)|) < limit
  {
    var most := Nines(d);
    DigitsOfNines(d);
    RecountMonotone(pieces, limit, most, most);
    CountsStayBelow(pieces, limit, FirstCount(pieces, limit), MAX_ROUNDS, most);
    DigitsMonotone(if |Settled(pieces, limit)| < 1 then 1 else |Settled(pieces, limit)|, most);
  }

  lemma RoomIsNeeded(pieces: seq<Text>, limit: nat)
    requires Stable(pieces, limit) && |Settled(pieces, limit)| > 1
    requires NumberingReserve(|Settled(pieces, limit)|) < limit
    ensures RoomForDigits(pieces, limit, Digits(|Settled(pieces, limit)|))
  {
    var total := |Settled(pieces, limit)|;
    var d := Digits(total);
    BelowNines(total);
    DigitsOfNines(d);
    SameWidthSameRecount(pieces, limit, total, Nines(d));
  }

  /** All posts of a numbered thread fit exactly when there is nothing to post, or a single
      untagged post, or a number of digits such that its tags leave room and it
      is enough for the posts that they make. */
  lemma NumberedThreadFitsIff(pieces: seq<Text>, limit: nat)
    requires TotalInk(pieces) <= MAX_SIZE
    ensures AllFit(Plan(pieces, true, limit), limit) <==>
            || InkedPieces(pieces) == []
            || (limit >= 1 && OneNarrowPiece(pieces, PerPost(limit, 4)))
            || exists d: nat :: RoomForDigits(pieces, limit, d)
  {
    EightRoundsSuffice(pieces, limit);
    UntaggedIffOneNarrowPiece(pieces, limit);
    var posts, chunks := Plan(pieces, true, limit), Settled(pieces, limit);
    if |posts| > 1 {
      FirstCountPositive(pieces, limit);
      NumberedPostsFitIffRoom(pieces, limit);
      if NumberingReserve(|chunks|) < limit {
        RoomIsNeeded(pieces, limit);
      } else if d: nat :| RoomForDigits(pieces, limit, d) {
        RoomIsEnough(pieces, limit, d);
      }
    } else if |posts| == 1 {
      assert posts == chunks;
      PostsWithinBudget(pieces, PerPost(limit, NumberingReserve(
        LastCount(pieces, limit, FirstCount(pieces, limit), MAX_ROUNDS))), 0);
      if limit >= 1 {
        SettledWithinBudget(pieces, limit);
      }
    }
  }

  /** Two visible clusters at a limit of four: two posts of five clusters. */
  lemma TinyLimitOverflows()
    ensures !AllFit(Plan([Word(2)], true, 4), 4)
  {
    var pieces := [Word(2)];
    WordIsTrimmed(2);
    assert InkedPieces(pieces) == [Word(2)];
    UntaggedIffOneNarrowPiece(pieces, 4);
    NumberedThreadFitsIff(pieces, 4);
  }
}
