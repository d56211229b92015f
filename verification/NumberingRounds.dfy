/** Eight rounds are enough for every limit and every text that a 64-bit size can measure. */
module NumberingRounds {
  import opened Graphemes
  import opened Splitter
  import opened Numbering
  import opened NumberingLaws

  // ---- the counts of a loop that would never stop ----

  /** The count after `k` rounds. */
  function CountAt(pieces: seq<Text>, limit: nat, k: nat): nat
    decreases k, |pieces|
  {
    if k == 0 then FirstCount(pieces, limit) else Recount(pieces, limit, CountAt(pieces, limit, k - 1))
  }

  function WidthAt(pieces: seq<Text>, limit: nat, k: nat): nat {
    Digits(CountAt(pieces, limit, k))
  }

  /** The budget that round `k` splits to. */
  function BudgetAt(pieces: seq<Text>, limit: nat, k: nat): Budget {
    PerPost(limit, NumberingReserve(CountAt(pieces, limit, k)))
  }

  lemma {:induction false} CountsGrow(pieces: seq<Text>, limit: nat, k: nat)
    ensures FirstCount(pieces, limit) <= CountAt(pieces, limit, k) <= CountAt(pieces, limit, k + 1)
  {
    var count := CountAt(pieces, limit, k);
    RecountMonotone(pieces, limit, count, count);
    if k > 0 {
      CountsGrow(pieces, limit, k - 1);
      RecountMonotone(pieces, limit, CountAt(pieces, limit, k - 1), count);
    }
  }

  /** A loop that ends unstable has changed its count in every round. */
  lemma {:induction false} UnstableKeepsCounting(pieces: seq<Text>, limit: nat, k: nat)
    requires !Stable(pieces, limit) && k < MAX_ROUNDS
    ensures LastCount(pieces, limit, CountAt(pieces, limit, k), MAX_ROUNDS - k) ==
            LastCount(pieces, limit, FirstCount(pieces, limit), MAX_ROUNDS)
    ensures CountAt(pieces, limit, k) != CountAt(pieces, limit, k + 1)
  {
    if k > 0 {
      UnstableKeepsCounting(pieces, limit, k - 1);
    }
  }

  lemma BudgetMustFall(pieces: seq<Text>, limit: nat, k: nat)
    requires !Stable(pieces, limit) && k + 2 <= MAX_ROUNDS
    ensures BudgetAt(pieces, limit, k) != BudgetAt(pieces, limit, k + 1)
  {
    UnstableKeepsCounting(pieces, limit, k + 1);
    assert CountAt(pieces, limit, k + 2) == |SplitAll(pieces, BudgetAt(pieces, limit, k + 1))|;
    assert CountAt(pieces, limit, k + 1) == |SplitAll(pieces, BudgetAt(pieces, limit, k))|;
  }

  /** So each round but the last widens the total by a digit and leaves room for at least two. */
  lemma UnstableKeepsWidening(pieces: seq<Text>, limit: nat, k: nat)
    requires !Stable(pieces, limit) && k + 2 <= MAX_ROUNDS && FirstCount(pieces, limit) > 0
    ensures WidthAt(pieces, limit, k) < WidthAt(pieces, limit, k + 1)
    ensures 1 < BudgetAt(pieces, limit, k) && BudgetAt(pieces, limit, k) == limit - 2 - 2 * WidthAt(pieces, limit, k)
  {
    BudgetMustFall(pieces, limit, k);
    CountsGrow(pieces, limit, k);
    DigitsMonotone(CountAt(pieces, limit, k), CountAt(pieces, limit, k + 1));
  }

  /** Budgets within a factor of two give totals within one digit. */
  lemma HalfBudgetOneDigit(pieces: seq<Text>, limit: nat, i: nat, j: nat)
    requires BudgetAt(pieces, limit, i) <= 2 * BudgetAt(pieces, limit, j) && FirstCount(pieces, limit) > 0
    ensures WidthAt(pieces, limit, j + 1) <= WidthAt(pieces, limit, i + 1) + 1
  {
    CountsGrow(pieces, limit, i + 1);
    HalfBudgetFourTimesThePosts(pieces, BudgetAt(pieces, limit, j), BudgetAt(pieces, limit, i));
    OneMoreDigit(CountAt(pieces, limit, i + 1), CountAt(pieces, limit, j + 1));
  }

  lemma WidthInRange(pieces: seq<Text>, limit: nat, k: nat)
    requires TotalInk(pieces) <= MAX_SIZE
    ensures 1 <= WidthAt(pieces, limit, k) <= 20
  {
    NoMorePostsThanInk(pieces, PerPost(limit, 0));
    if k > 0 {
      NoMorePostsThanInk(pieces, BudgetAt(pieces, limit, k - 1));
    }
    SizeHasTwentyDigits(CountAt(pieces, limit, k));
  }

  lemma NothingIsStable(pieces: seq<Text>, limit: nat)
    requires FirstCount(pieces, limit) == 0
    ensures Stable(pieces, limit) && Settled(pieces, limit) == []
  {
    EmptyForEveryBudget(pieces, PerPost(limit, 0), PerPost(limit, NumberingReserve(0)));
  }

  /** Two rounds that both widen the total more than halve the budget. */
  lemma TwoRoundsHalve(pieces: seq<Text>, limit: nat, k: nat)
    requires !Stable(pieces, limit) && k < 5 && FirstCount(pieces, limit) > 0
    ensures BudgetAt(pieces, limit, k) > 2 * BudgetAt(pieces, limit, k + 2)
  {
    UnstableKeepsWidening(pieces, limit, k + 1);
    UnstableKeepsWidening(pieces, limit, k + 2);
    if BudgetAt(pieces, limit, k) <= 2 * BudgetAt(pieces, limit, k + 2) {
      HalfBudgetOneDigit(pieces, limit, k, k + 2);
    }
  }

  /** Eight widths that rise to at most twenty digits, and the budgets they leave, of which every
      second is more than halved: then the first two budgets are within a factor of two, and
      still the second step adds more than one digit. */
  lemma SecondStepIsLong(limit: nat, w: seq<nat>)
    requires |w| == 8 && 1 <= w[0] && w[7] <= 20
    requires forall k :: 0 <= k < 7 ==> w[k] < w[k + 1] && limit - 2 - 2 * w[k] > 1
    requires forall k :: 0 <= k < 5 ==> limit - 2 - 2 * w[k] > 2 * (limit - 2 - 2 * w[k + 2])
    ensures limit - 2 - 2 * w[0] <= 2 * (limit - 2 - 2 * w[1]) && w[2] > w[1] + 1
  {
    assert w[5] < w[6] < w[7] && limit - 2 - 2 * w[6] > 1;
    LongStep(limit, w[0], w[1], w[2], w[3], w[5], w[6]);
  }

  lemma LongStep(limit: nat, w0: nat, w1: nat, w2: nat, w3: nat, w5: nat, w6: nat)
    requires 1 <= w0 < w1 < w2 && w5 < w6 < 20 && limit - 2 - 2 * w6 > 1
    requires limit - 2 - 2 * w0 > 2 * (limit - 2 - 2 * w2)
    requires limit - 2 - 2 * w1 > 2 * (limit - 2 - 2 * w3)
    requires limit - 2 - 2 * w3 > 2 * (limit - 2 - 2 * w5)
    ensures limit - 2 - 2 * w0 <= 2 * (limit - 2 - 2 * w1) && w2 > w1 + 1
  {
  }

  /** The widths of an unstable loop, in a list. */
  function Widths(pieces: seq<Text>, limit: nat): seq<nat> {
    seq(8, k requires 0 <= k < 8 => WidthAt(pieces, limit, k))
  }

  lemma WidthsRise(pieces: seq<Text>, limit: nat, k: nat)
    requires !Stable(pieces, limit) && k < 7 && FirstCount(pieces, limit) > 0
    ensures Widths(pieces, limit)[k] < Widths(pieces, limit)[k + 1]
    ensures BudgetAt(pieces, limit, k) == limit - 2 - 2 * Widths(pieces, limit)[k] > 1
  {
    UnstableKeepsWidening(pieces, limit, k);
  }

  lemma WidthsHalve(pieces: seq<Text>, limit: nat, k: nat)
    requires !Stable(pieces, limit) && k < 5 && FirstCount(pieces, limit) > 0
    ensures limit - 2 - 2 * Widths(pieces, limit)[k] > 2 * (limit - 2 - 2 * Widths(pieces, limit)[k + 2])
  {
    WidthsRise(pieces, limit, k);
    WidthsRise(pieces, limit, k + 2);
    TwoRoundsHalve(pieces, limit, k);
  }

  lemma FirstStep(pieces: seq<Text>, limit: nat)
    requires !Stable(pieces, limit) && FirstCount(pieces, limit) > 0
    ensures var w := Widths(pieces, limit);
            limit - 2 - 2 * w[0] <= 2 * (limit - 2 - 2 * w[1]) ==> w[2] <= w[1] + 1
  {
    UnstableKeepsWidening(pieces, limit, 0);
    UnstableKeepsWidening(pieces, limit, 1);
    if BudgetAt(pieces, limit, 0) <= 2 * BudgetAt(pieces, limit, 1) {
      HalfBudgetOneDigit(pieces, limit, 0, 1);
    }
  }

  /** Whatever the limit. An unstable loop would widen its total by a digit in each of seven
      rounds, and two rounds that do so more than halve the budget. Its budget then falls by
      more than the two clusters a digit that twenty digits allow. */
  lemma EightRoundsSuffice(pieces: seq<Text>, limit: nat)
    requires TotalInk(pieces) <= MAX_SIZE
    ensures Stable(pieces, limit)
  {
    if FirstCount(pieces, limit) == 0 {
      NothingIsStable(pieces, limit);
    } else if !Stable(pieces, limit) {
      forall k | 0 <= k < 7
        ensures Widths(pieces, limit)[k] < Widths(pieces, limit)[k + 1]
        ensures limit - 2 - 2 * Widths(pieces, limit)[k] > 1
      {
        WidthsRise(pieces, limit, k);
      }
      forall k | 0 <= k < 5
        ensures limit - 2 - 2 * Widths(pieces, limit)[k] > 2 * (limit - 2 - 2 * Widths(pieces, limit)[k + 2])
      {
        WidthsHalve(pieces, limit, k);
      }
      WidthInRange(pieces, limit, 0);
      WidthInRange(pieces, limit, 7);
      FirstStep(pieces, limit);
      SecondStepIsLong(limit, Widths(pieces, limit));
      assert false;
    }
  }
}
