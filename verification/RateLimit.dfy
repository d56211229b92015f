/** The token bucket of `src/ratelimit.rs`, over real numbers. Times are seconds on the
    monotonic clock. */
module RateLimit {

  datatype BucketState = BucketState(tokens: real, capacity: real, refillPerSec: real, last: real)

  /** The answer of `try_take`: the seconds to wait are infinite without refill. */
  datatype Take = Taken | Wait(secs: real) | WaitForever

  predicate Valid(b: BucketState) {
    0.0 <= b.tokens <= b.capacity && 0.0 <= b.refillPerSec
  }

  // ---- the specification ----

  function Min(x: real, y: real): real {
    if x <= y then x else y
  }

  /** The tokens that accrue over a stretch of time. */
  function Earn(secs: real, rate: real): real {
    secs * rate
  }

  function Refill(b: BucketState, now: real): BucketState {
    if now > b.last then
      b.(tokens := Min(b.tokens + Earn(now - b.last, b.refillPerSec), b.capacity), last := now)
    else
      b
  }

  function Answer(b: BucketState, cost: real): Take {
    if b.tokens >= cost then Taken
    else if b.refillPerSec > 0.0 then Wait((cost - b.tokens) / b.refillPerSec)
    else WaitForever
  }

  function TryTake(b: BucketState, cost: real): BucketState {
    if Answer(b, cost).Taken? then b.(tokens := b.tokens - cost) else b
  }

  /** One turn of `acquire`: refill, then try to take. */
  function Attempt(b: BucketState, now: real, cost: real): BucketState {
    TryTake(Refill(b, now), cost)
  }

  predicate Succeeds(b: BucketState, now: real, cost: real) {
    Answer(Refill(b, now), cost).Taken?
  }

  function New(capacity: real, refillPerSec: real, now: real): BucketState {
    BucketState(capacity, capacity, refillPerSec, now)
  }

  const SECONDS_PER_HOUR := 3600.0

  /** `from_config`. */
  function FromConfig(pointsPerHour: nat, now: real): BucketState {
    var capacity := (if pointsPerHour < 1 then 1 else pointsPerHour) as real;
    New(capacity, capacity / SECONDS_PER_HOUR, now)
  }

  /** The wait before the next turn: `clamp(0.01, 3600.0)`. */
  function Pause(wait: Take): real {
    if wait.Wait? && wait.secs <= SECONDS_PER_HOUR then (if wait.secs < 0.01 then 0.01 else wait.secs)
    else SECONDS_PER_HOUR
  }

  // ---- the code ----

  class Bucket {
    var tokens: real
    var capacity: real
    var refillPerSec: real
    var last: real

    function State(): BucketState
      reads this
    {
      BucketState(tokens, capacity, refillPerSec, last)
    }

    constructor (capacity: real, refillPerSec: real, now: real)
      ensures State() == New(capacity, refillPerSec, now)
    {
      this.tokens, this.capacity, this.refillPerSec, this.last := capacity, capacity, refillPerSec, now;
    }

    /** `from_config`. */
    constructor Configured(pointsPerHour: nat, now: real)
      ensures State() == FromConfig(pointsPerHour, now)
    {
      var capacity := (if pointsPerHour < 1 then 1 else pointsPerHour) as real;
      this.tokens, this.capacity, this.refillPerSec, this.last := capacity, capacity, capacity / SECONDS_PER_HOUR, now;
    }

    method RefillAt(now: real)
      modifies this`tokens, this`last
      ensures State() == Refill(old(State()), now)
    {
      var elapsed := if now > last then now - last else 0.0;
      if elapsed > 0.0 {
        tokens := Min(tokens + Earn(elapsed, refillPerSec), capacity);
        last := now;
      }
    }

    method TakeOrWait(cost: real) returns (answer: Take)
      modifies this`tokens
      ensures answer == Answer(old(State()), cost) && State() == TryTake(old(State()), cost)
    {
      if tokens >= cost {
        tokens := tokens - cost;
        return Taken;
      } else if refillPerSec > 0.0 {
        return Wait((cost - tokens) / refillPerSec);
      } else {
        return WaitForever;
      }
    }

    /** `acquire` by a lone caller, on a clock that never runs back; a sleep lasts at least as
        long as asked for. The bucket ends as if there had been just the one successful turn. */
    method Acquire(cost: real, start: real) returns (now: real, sleeps: seq<real>)
      requires Valid(State()) && 0.0 <= cost <= capacity && start >= last
      requires refillPerSec > 0.0 || cost <= tokens
      modifies this`tokens, this`last
      ensures now >= start && Succeeds(old(State()), now, cost)
      ensures State() == Attempt(old(State()), now, cost) && Valid(State())
      ensures |sleeps| <= SleepsNeeded(Refill(old(State()), start), cost)
      ensures now >= start + Sum(sleeps) && (sleeps == [] ==> now == start)
      ensures sleeps != [] ==> sleeps[0] == Pause(Answer(Refill(old(State()), start), cost))
      ensures forall k :: 0 <= k < |sleeps| ==> 0.01 <= sleeps[k] <= SECONDS_PER_HOUR
    {
      now, sleeps := start, [];
      ghost var b := State();
      ghost var bound := SleepsNeeded(Refill(b, now), cost);
      while true
        invariant now >= start && now >= last && Valid(State()) && Refill(State(), now) == Refill(b, now)
        invariant refillPerSec > 0.0 || cost <= tokens
        invariant now >= start + Sum(sleeps) && (sleeps == [] ==> now == start)
        invariant sleeps != [] ==> sleeps[0] == Pause(Answer(Refill(b, start), cost))
        invariant forall k :: 0 <= k < |sleeps| ==> 0.01 <= sleeps[k] <= SECONDS_PER_HOUR
        invariant |sleeps| + SleepsNeeded(Refill(b, now), cost) <= bound
        decreases SleepsNeeded(Refill(b, now), cost)
      {
        AttemptKeepsValid(State(), now, cost);
        RefillAt(now);
        var answer := TakeOrWait(cost);
        if answer.Taken? {
          return;
        }
        var overslept: real := *;
        var later := now + Pause(answer) + if overslept < 0.0 then 0.0 else overslept;
        OneSleepHelps(State(), cost, later);
        RefillIsPathIndependent(b, now, later);
        SumAdds(sleeps, Pause(answer));
        now, sleeps := later, sleeps + [Pause(answer)];
      }
    }
  }

  // ---- how often a caller sleeps ----

  function Ceil(x: real): int {
    -((-x).Floor)
  }

  /** One sleep per hour's refill that is missing. */
  function SleepsNeeded(b: BucketState, cost: real): nat {
    if b.tokens >= cost || b.refillPerSec <= 0.0 then 0
    else CeilPositive((cost - b.tokens) / (b.refillPerSec * SECONDS_PER_HOUR))
  }

  function CeilPositive(x: real): nat {
    if x <= 0.0 then 0 else Ceil(x)
  }

  // ---- arithmetic ----

  lemma EarnMonotone(x: real, y: real, r: real)
    requires x <= y && 0.0 <= r
    ensures Earn(x, r) <= Earn(y, r)
  {
  }

  lemma EarnPositive(x: real, r: real)
    requires 0.0 <= x && 0.0 <= r
    ensures 0.0 <= Earn(x, r)
  {
  }

  lemma EarnAdds(x: real, y: real, r: real)
    ensures Earn(x + y, r) == Earn(x, r) + Earn(y, r)
  {
  }

  lemma QuotientDrops(x: real, y: real, h: real)
    requires x <= y - h && 0.0 < h && 0.0 < y
    ensures x / h <= y / h - 1.0 && 0.0 < y / h
  {
    var p, q := x / h, y / h;
    assert Earn(p, h) == x && Earn(q, h) == y;
    EarnAdds(q - 1.0, 1.0, h);
    assert q - 1.0 + 1.0 == q;
    if p > q - 1.0 {
      EarnStrictlyMonotone(q - 1.0, p, h);
    }
    if q <= 0.0 {
      EarnMonotone(q, 0.0, h);
    }
  }

  lemma CeilDrops(x: real, y: real)
    requires x <= y - 1.0 && 0.0 < y
    ensures CeilPositive(x) < CeilPositive(y)
  {
  }

  // ---- the bucket ----

  /** `0 <= tokens <= capacity` always. */
  lemma AttemptKeepsValid(b: BucketState, now: real, cost: real)
    requires Valid(b) && 0.0 <= cost
    ensures Valid(Refill(b, now)) && Valid(Attempt(b, now, cost))
  {
    if now > b.last {
      EarnPositive(now - b.last, b.refillPerSec);
    }
  }

  /** Refilling on the way makes no difference. */
  lemma RefillIsPathIndependent(b: BucketState, t1: real, t2: real)
    requires Valid(b) && t1 <= t2
    ensures Refill(Refill(b, t1), t2) == Refill(b, t2)
  {
  }

  lemma WaitEarnsTheRest(b: BucketState, cost: real)
    requires Answer(b, cost).Wait?
    ensures Earn(Answer(b, cost).secs, b.refillPerSec) == cost - b.tokens
    ensures Answer(b, cost).secs > 0.0
  {
  }

  lemma EarnStrictlyMonotone(x: real, y: real, r: real)
    requires x < y && 0.0 < r
    ensures Earn(x, r) < Earn(y, r)
  {
  }

  /** The wait that `try_take` reports is exact: no sooner, and no later. */
  lemma WaitIsExact(b: BucketState, cost: real, t: real)
    requires Valid(b) && b.tokens < cost <= b.capacity && b.refillPerSec > 0.0 && 0.0 <= t
    ensures Succeeds(b, b.last + t, cost) <==> t >= Answer(b, cost).secs
  {
  }

  /** What a turn sees: the tokens left and what has accrued since at the refill rate, at most
      the capacity. */
  lemma SucceedsIff(b: BucketState, now: real, cost: real)
    requires Valid(b)
    ensures Succeeds(b, now, cost) <==>
            cost <= b.tokens ||
            (now > b.last && cost <= b.capacity && cost <= b.tokens + (now - b.last) * b.refillPerSec)
  {
    if now > b.last {
      EarnPositive(now - b.last, b.refillPerSec);
    }
  }

  /** The sum of some costs. */
  function Sum(costs: seq<real>): real {
    if costs == [] then 0.0 else costs[0] + Sum(costs[1..])
  }

  /** Callers one after the other at one moment: every one of them is served. */
  predicate AllServed(b: BucketState, now: real, costs: seq<real>)
    decreases |costs|
  {
    costs == [] || (Succeeds(b, now, costs[0]) && AllServed(Attempt(b, now, costs[0]), now, costs[1..]))
  }

  /** A turn takes exactly its cost: at one moment all are served exactly when the tokens there
      are then cover their sum. */
  lemma {:induction false} AllServedIffTokensSuffice(b: BucketState, now: real, costs: seq<real>)
    requires Valid(b) && b.last <= now && forall k :: 0 <= k < |costs| ==> 0.0 <= costs[k]
    ensures AllServed(b, now, costs) <==> Sum(costs) <= Refill(b, now).tokens
    decreases |costs|
  {
    AttemptKeepsValid(b, now, 0.0);
    if costs != [] {
      var b' := Attempt(b, now, costs[0]);
      AttemptKeepsValid(b, now, costs[0]);
      AllServedIffTokensSuffice(b', now, costs[1..]);
      SumIsPositive(costs[1..]);
      assert Refill(b', now) == b';
    }
  }

  lemma {:induction false} SumAdds(costs: seq<real>, cost: real)
    ensures Sum(costs + [cost]) == Sum(costs) + cost
  {
    if costs == [] {
      assert [cost][1..] == [] && Sum([]) == 0.0;
    } else {
      SumAdds(costs[1..], cost);
      assert (costs + [cost])[1..] == costs[1..] + [cost];
    }
  }

  lemma {:induction false} SumIsPositive(costs: seq<real>)
    requires forall k :: 0 <= k < |costs| ==> 0.0 <= costs[k]
    ensures 0.0 <= Sum(costs)
  {
    if costs != [] {
      SumIsPositive(costs[1..]);
    }
  }

  /** A pause is the time in `[0.01, 3600]` that is nearest to the wait. */
  lemma PauseIsNearest(wait: real, other: real)
    requires 0.01 <= other <= SECONDS_PER_HOUR
    ensures var pause := Pause(Wait(wait));
            && 0.01 <= pause <= SECONDS_PER_HOUR
            && (if pause >= wait then pause - wait else wait - pause) <=
               (if other >= wait then other - wait else wait - other)
    ensures Pause(WaitForever) == SECONDS_PER_HOUR
  {
  }

  lemma OneSleepHelps(b: BucketState, cost: real, later: real)
    requires Valid(b) && b.tokens < cost <= b.capacity && b.refillPerSec > 0.0
    requires later >= b.last + Pause(Answer(b, cost))
    ensures SleepsNeeded(Refill(b, later), cost) < SleepsNeeded(b, cost)
  {
    var slept, wait, hourly := later - b.last, Answer(b, cost).secs, b.refillPerSec * SECONDS_PER_HOUR;
    var missing, after := cost - b.tokens, cost - Refill(b, later).tokens;
    QuotientDrops(missing - hourly, missing, hourly);
    if wait <= SECONDS_PER_HOUR {
      WaitIsExact(b, cost, slept);
    } else if after > 0.0 {
      EarnMonotone(SECONDS_PER_HOUR, slept, b.refillPerSec);
      assert after <= missing - hourly;
      QuotientDrops(after, missing, hourly);
      CeilDrops(after / hourly, missing / hourly);
    }
  }

  // ---- the window bound ----

  /** One turn of some caller's `acquire`. */
  datatype Turn = Turn(at: real, cost: real)

  /** Any interleaving of callers: turns are serialized by the lock, and the clock is read
      under it. */
  ghost predicate Serialized(b: BucketState, turns: seq<Turn>) {
    && (forall k :: 0 <= k < |turns| ==> b.last <= turns[k].at && 0.0 <= turns[k].cost)
    && (forall j, k :: 0 <= j < k < |turns| ==> turns[j].at <= turns[k].at)
  }

  /** What one turn did: its time, the tokens refill has earned since time zero, what the turn
      was granted, and what was left. */
  datatype Entry = Entry(at: real, earned: real, granted: real, left: real)

  function EarnedBy(b: BucketState, t: real): real {
    Earn(t, b.refillPerSec)
  }

  function TurnEntry(b: BucketState, t: Turn): Entry {
    Entry(t.at, EarnedBy(b, t.at), if Succeeds(b, t.at, t.cost) then t.cost else 0.0,
          Attempt(b, t.at, t.cost).tokens)
  }

  function Ledger(b: BucketState, turns: seq<Turn>): seq<Entry>
    decreases |turns|
  {
    if turns == [] then []
    else [TurnEntry(b, turns[0])] + Ledger(Attempt(b, turns[0].at, turns[0].cost), turns[1..])
  }

  /** The total granted in `[from, to]`. */
  function Total(entries: seq<Entry>, from: real, to: real): real {
    if entries == [] then 0.0
    else (if from <= entries[0].at <= to then entries[0].granted else 0.0) + Total(entries[1..], from, to)
  }

  /** The total cost granted to turns in `[from, to]`. */
  function GrantedIn(b: BucketState, turns: seq<Turn>, from: real, to: real): real {
    Total(Ledger(b, turns), from, to)
  }

  /** Tokens are conserved: a turn grants and leaves no more than was there or has been earned
      since, and no more than a full bucket. */
  predicate EntryConserves(e: Entry, capacity: real, last: real, earned: real, left: real) {
    && last <= e.at && earned <= e.earned && 0.0 <= e.granted && 0.0 <= e.left
    && e.granted + e.left <= capacity && e.granted + e.left <= left + (e.earned - earned)
  }

  /** Time and earnings agree on the window `[from, to]`: `start` is earned by its start and
      `end` by its end. */
  predicate EntryInStep(e: Entry, from: real, start: real, to: real, end: real) {
    (e.at >= from ==> e.earned >= start) && (e.at <= to ==> e.earned <= end)
  }

  ghost predicate Conserves(entries: seq<Entry>, capacity: real, last: real, earned: real, left: real)
    decreases |entries|
  {
    entries == [] ||
    var e := entries[0];
    EntryConserves(e, capacity, last, earned, left) &&
    Conserves(entries[1..], capacity, e.at, e.earned, e.left)
  }

  ghost predicate InStep(entries: seq<Entry>, from: real, start: real, to: real, end: real) {
    entries == [] || (EntryInStep(entries[0], from, start, to, end) && InStep(entries[1..], from, start, to, end))
  }

  lemma TurnConserves(b: BucketState, t: Turn)
    requires Valid(b) && b.last <= t.at && 0.0 <= t.cost
    ensures EntryConserves(TurnEntry(b, t), b.capacity, b.last, EarnedBy(b, b.last), b.tokens)
    ensures var b' := Attempt(b, t.at, t.cost);
            Valid(b') && b' == BucketState(TurnEntry(b, t).left, b.capacity, b.refillPerSec, t.at)
  {
    EarnAdds(t.at - b.last, b.last, b.refillPerSec);
    EarnPositive(t.at - b.last, b.refillPerSec);
    assert (t.at - b.last) + b.last == t.at;
    AttemptKeepsValid(b, t.at, t.cost);
  }

  lemma {:induction false} LedgerConserves(b: BucketState, turns: seq<Turn>)
    requires Valid(b) && Serialized(b, turns)
    ensures Conserves(Ledger(b, turns), b.capacity, b.last, EarnedBy(b, b.last), b.tokens)
    decreases |turns|
  {
    if turns != [] {
      var t := turns[0];
      var e, b' := TurnEntry(b, t), Attempt(b, t.at, t.cost);
      TurnConserves(b, t);
      LedgerConserves(b', turns[1..]);
      assert Ledger(b, turns) == [e] + Ledger(b', turns[1..]);
      PrependConserves(e, Ledger(b', turns[1..]), b.capacity, b.last, EarnedBy(b, b.last), b.tokens);
    }
  }

  lemma PrependConserves(e: Entry, rest: seq<Entry>, capacity: real, last: real, earned: real, left: real)
    requires EntryConserves(e, capacity, last, earned, left) && Conserves(rest, capacity, e.at, e.earned, e.left)
    ensures Conserves([e] + rest, capacity, last, earned, left)
  {
  }

  lemma {:induction false} LedgerInStep(b: BucketState, turns: seq<Turn>, from: real, to: real)
    requires Valid(b) && Serialized(b, turns)
    ensures InStep(Ledger(b, turns), from, EarnedBy(b, from), to, EarnedBy(b, to))
    decreases |turns|
  {
    if turns != [] {
      var t := turns[0];
      var e, b' := TurnEntry(b, t), Attempt(b, t.at, t.cost);
      TurnConserves(b, t);
      LedgerInStep(b', turns[1..], from, to);
      if t.at >= from { EarnMonotone(from, t.at, b.refillPerSec); }
      if t.at <= to { EarnMonotone(t.at, to, b.refillPerSec); }
      assert Ledger(b, turns)[1..] == Ledger(b', turns[1..]);
      assert EntryInStep(e, from, EarnedBy(b, from), to, EarnedBy(b, to));
    }
  }

  lemma {:induction false} NothingAfter(entries: seq<Entry>, capacity: real, last: real, earned: real, left: real,
                                        from: real, to: real)
    requires Conserves(entries, capacity, last, earned, left) && last > to
    ensures Total(entries, from, to) == 0.0
    decreases |entries|
  {
    if entries != [] {
      var e := entries[0];
      NothingAfter(entries[1..], capacity, e.at, e.earned, e.left, from, to);
    }
  }

  /** From a given point on, only what is left and what is earned by then can be granted. */
  lemma {:induction false} GrantsComeFromTokens(entries: seq<Entry>, capacity: real, last: real, earned: real,
                                                left: real, from: real, start: real, to: real, end: real)
    requires Conserves(entries, capacity, last, earned, left) && InStep(entries, from, start, to, end)
    requires 0.0 <= left && earned <= end
    ensures Total(entries, from, to) <= left + (end - earned)
    decreases |entries|
  {
    if entries != [] {
      var e := entries[0];
      if e.at > to {
        NothingAfter(entries[1..], capacity, e.at, e.earned, e.left, from, to);
      } else {
        GrantsComeFromTokens(entries[1..], capacity, e.at, e.earned, e.left, from, start, to, end);
      }
    }
  }

  lemma {:induction false} WindowOfLedger(entries: seq<Entry>, capacity: real, last: real, earned: real, left: real,
                                          from: real, start: real, to: real, end: real)
    requires Conserves(entries, capacity, last, earned, left) && InStep(entries, from, start, to, end)
    requires 0.0 <= capacity && start <= end
    ensures Total(entries, from, to) <= capacity + (end - start)
    decreases |entries|
  {
    if entries != [] {
      var e := entries[0];
      if e.at > to {
        NothingAfter(entries[1..], capacity, e.at, e.earned, e.left, from, to);
      } else if e.at < from {
        WindowOfLedger(entries[1..], capacity, e.at, e.earned, e.left, from, start, to, end);
      } else {
        GrantsComeFromTokens(entries[1..], capacity, e.at, e.earned, e.left, from, start, to, end);
      }
    }
  }

  /** In any window of any interleaving, at most a full bucket plus the refill of the window
      is granted. */
  lemma WindowBound(b: BucketState, turns: seq<Turn>, from: real, to: real)
    requires Valid(b) && Serialized(b, turns) && from <= to
    ensures GrantedIn(b, turns, from, to) <= b.capacity + Earn(to - from, b.refillPerSec)
  {
    var start, end := EarnedBy(b, from), EarnedBy(b, to);
    LedgerConserves(b, turns);
    LedgerInStep(b, turns, from, to);
    EarnMonotone(from, to, b.refillPerSec);
    WindowOfLedger(Ledger(b, turns), b.capacity, b.last, EarnedBy(b, b.last), b.tokens, from, start, to, end);
    EarnAdds(to - from, from, b.refillPerSec);
    assert (to - from) + from == to;
  }

  /** The hourly points of a configuration, at least one. */
  function HourlyPoints(points: nat): real {
    if points == 0 then 1.0 else points as real
  }

  lemma OneHourRefills(points: nat, start: real)
    ensures var b := FromConfig(points, start);
            && b.tokens == b.capacity == HourlyPoints(points) && b.last == start
            && b.refillPerSec > 0.0 && Earn(SECONDS_PER_HOUR, b.refillPerSec) == b.capacity
  {
  }

  /** A configured budget can be spent at once, and a cost is ever served exactly when it is
      within the hourly points. */
  lemma ConfiguredBudgetServesIff(points: nat, start: real, cost: real)
    ensures Succeeds(FromConfig(points, start), start, cost) <==> cost <= HourlyPoints(points)
    ensures (exists now :: now >= start && Succeeds(FromConfig(points, start), now, cost)) <==>
            cost <= HourlyPoints(points)
  {
    OneHourRefills(points, start);
    AcquireReturnsIff(FromConfig(points, start), cost);
  }

  /** With a configured budget, no hour ever sees more than twice the hourly points. */
  lemma HourlyBudgetAtMostTwice(points: nat, start: real, turns: seq<Turn>, from: real)
    requires Serialized(FromConfig(points, start), turns)
    ensures GrantedIn(FromConfig(points, start), turns, from, from + SECONDS_PER_HOUR) <= 2.0 * HourlyPoints(points)
  {
    OneHourRefills(points, start);
    WindowBound(FromConfig(points, start), turns, from, from + SECONDS_PER_HOUR);
    assert from + SECONDS_PER_HOUR - from == SECONDS_PER_HOUR;
  }

  /** A bucket that is refilled once in an hour. */
  predicate RefillsHourly(b: BucketState) {
    Valid(b) && 0.0 < b.capacity && Earn(SECONDS_PER_HOUR, b.refillPerSec) == b.capacity
  }

  /** From the present state on, the next hour grants at most the tokens there are and one
      refill. */
  lemma NextHourAtMost(b: BucketState, turns: seq<Turn>)
    requires RefillsHourly(b) && Serialized(b, turns)
    ensures GrantedIn(b, turns, b.last, b.last + SECONDS_PER_HOUR) <= b.tokens + b.capacity
  {
    var to := b.last + SECONDS_PER_HOUR;
    LedgerConserves(b, turns);
    LedgerInStep(b, turns, b.last, to);
    EarnMonotone(b.last, to, b.refillPerSec);
    EarnAdds(SECONDS_PER_HOUR, b.last, b.refillPerSec);
    assert SECONDS_PER_HOUR + b.last == to;
    GrantsComeFromTokens(Ledger(b, turns), b.capacity, b.last, EarnedBy(b, b.last), b.tokens,
                         b.last, EarnedBy(b, b.last), to, EarnedBy(b, to));
  }

  /** Everything at once, and a full bucket at the end of the hour. */
  function GreedyHour(b: BucketState): seq<Turn> {
    [Turn(b.last, b.tokens), Turn(b.last + SECONDS_PER_HOUR, b.capacity)]
  }

  lemma GreedyHourReachesIt(b: BucketState)
    requires RefillsHourly(b)
    ensures Serialized(b, GreedyHour(b))
    ensures GrantedIn(b, GreedyHour(b), b.last, b.last + SECONDS_PER_HOUR) == b.tokens + b.capacity
  {
    var t1, t2 := GreedyHour(b)[0], GreedyHour(b)[1];
    var b1 := Attempt(b, t1.at, t1.cost);
    assert b1 == b.(tokens := 0.0);
    assert b.last + SECONDS_PER_HOUR - b.last == SECONDS_PER_HOUR;
    assert Refill(b1, t2.at).tokens == b.capacity;
    var e1, e2 := TurnEntry(b, t1), TurnEntry(b1, t2);
    assert Ledger(Attempt(b1, t2.at, t2.cost), []) == [];
    assert [t1, t2][1..] == [t2] && [t2][1..] == [];
    assert Ledger(b1, [t2]) == [e2];
    assert Ledger(b, [t1, t2]) == [e1] + [e2];
    assert ([e1] + [e2])[1..] == [e2] && [e2][1..] == [];
    assert Total([], b.last, t2.at) == 0.0;
    assert Total([e2], b.last, t2.at) == b.capacity;
  }

  /** The bound of twice the budget is reached: a full bucket at the start of the hour, another
      at its end. The budget is per refill, not per rolling hour. */
  lemma TwiceTheBudgetInOneHour(points: nat, start: real)
    ensures var b := FromConfig(points, start);
            && Serialized(b, GreedyHour(b))
            && GrantedIn(b, GreedyHour(b), start, start + SECONDS_PER_HOUR) == 2.0 * HourlyPoints(points)
  {
    OneHourRefills(points, start);
    GreedyHourReachesIt(FromConfig(points, start));
  }

  /** The hour that follows stays within one hourly budget, for every interleaving, if and only
      if the bucket is empty as it begins. */
  lemma NextHourWithinBudgetIffEmpty(b: BucketState)
    requires RefillsHourly(b)
    ensures (forall turns :: Serialized(b, turns) ==>
               GrantedIn(b, turns, b.last, b.last + SECONDS_PER_HOUR) <= b.capacity) <==> b.tokens == 0.0
  {
    if b.tokens == 0.0 {
      forall turns | Serialized(b, turns)
        ensures GrantedIn(b, turns, b.last, b.last + SECONDS_PER_HOUR) <= b.capacity
      {
        NextHourAtMost(b, turns);
      }
    } else {
      GreedyHourReachesIt(b);
    }
  }

  /** Turns from `from` on go as they would after a refill at `from`. */
  lemma LaterTurnsSeeRefill(b: BucketState, turns: seq<Turn>, from: real)
    requires Valid(b) && b.last <= from && Serialized(Refill(b, from), turns)
    ensures Serialized(b, turns) && Ledger(b, turns) == Ledger(Refill(b, from), turns)
  {
    if turns != [] {
      RefillIsPathIndependent(b, from, turns[0].at);
    }
  }

  /** So for any hour to come: one that begins at `from` stays within the budget, whatever the
      turns in it, if and only if refill leaves the bucket empty at `from`, which is only when
      it is empty now and `from` is now. */
  lemma HourWithinBudgetIffEmpty(b: BucketState, from: real)
    requires RefillsHourly(b) && b.last <= from
    ensures (forall turns :: Serialized(Refill(b, from), turns) ==>
               GrantedIn(b, turns, from, from + SECONDS_PER_HOUR) <= b.capacity) <==>
            b.tokens == 0.0 && from == b.last
  {
    var b' := Refill(b, from);
    AttemptKeepsValid(b, from, 0.0);
    assert b'.last == from;
    forall turns | Serialized(b', turns)
      ensures GrantedIn(b, turns, from, from + SECONDS_PER_HOUR) == GrantedIn(b', turns, from, from + SECONDS_PER_HOUR)
    {
      LaterTurnsSeeRefill(b, turns, from);
    }
    NextHourWithinBudgetIffEmpty(b');
    if from > b.last {
      HourlyRefillIsPositive(b);
      EarnStrictlyMonotone(0.0, from - b.last, b.refillPerSec);
    }
  }

  lemma HourlyRefillIsPositive(b: BucketState)
    requires RefillsHourly(b)
    ensures 0.0 < b.refillPerSec
  {
  }

  // ---- when acquire returns ----

  /** A caller is served at some time exactly when the bucket can ever hold the cost; without
      refill, exactly when it holds it now. */
  lemma AcquireReturnsIff(b: BucketState, cost: real)
    requires Valid(b)
    ensures (exists now :: now >= b.last && Succeeds(b, now, cost)) <==>
            if b.refillPerSec > 0.0 then cost <= b.capacity else cost <= b.tokens
  {
    if cost <= b.tokens {
      assert Succeeds(b, b.last, cost);
    } else if b.refillPerSec > 0.0 {
      if cost <= b.capacity {
        WaitEarnsTheRest(b, cost);
        WaitIsExact(b, cost, Answer(b, cost).secs);
        assert Succeeds(b, b.last + Answer(b, cost).secs, cost);
      }
    } else {
      forall now: real
        ensures Refill(b, now).tokens == b.tokens
      {
        assert Earn(now - b.last, b.refillPerSec) == 0.0;
      }
    }
  }

  /** With two points an hour, a record that costs three is never created. */
  lemma TwoPointsNeverCreate(start: real)
    ensures Valid(FromConfig(2, start))
    ensures !exists now :: now >= start && Succeeds(FromConfig(2, start), now, 3.0)
  {
    OneHourRefills(2, start);
    AcquireReturnsIff(FromConfig(2, start), 3.0);
  }

  /** The bucket after some turns. */
  function After(b: BucketState, turns: seq<Turn>): BucketState
    decreases |turns|
  {
    if turns == [] then b else After(Attempt(b, turns[0].at, turns[0].cost), turns[1..])
  }

  lemma {:induction false} TurnsKeepTheConfiguration(b: BucketState, turns: seq<Turn>)
    requires Valid(b) && Serialized(b, turns)
    ensures var a := After(b, turns);
            Valid(a) && a.capacity == b.capacity && a.refillPerSec == b.refillPerSec
    decreases |turns|
  {
    if turns != [] {
      TurnConserves(b, turns[0]);
      TurnsKeepTheConfiguration(Attempt(b, turns[0].at, turns[0].cost), turns[1..]);
    }
  }

  /** With a configured budget, whatever the turns before, a cost within the hourly points is
      served after one pause at the latest. */
  lemma OneSleepWithinHourlyBudget(points: nat, start: real, turns: seq<Turn>, cost: real, now: real)
    requires Serialized(FromConfig(points, start), turns) && 0.0 <= cost <= HourlyPoints(points)
    ensures var b := Refill(After(FromConfig(points, start), turns), now);
            && SleepsNeeded(b, cost) <= 1
            && forall later :: later >= b.last + Pause(Answer(b, cost)) && !Answer(b, cost).Taken? ==>
                 Succeeds(b, later, cost)
  {
    var a := After(FromConfig(points, start), turns);
    OneHourRefills(points, start);
    TurnsKeepTheConfiguration(FromConfig(points, start), turns);
    AttemptKeepsValid(a, now, 0.0);
    OnePauseSuffices(Refill(a, now), cost);
  }

  lemma CeilOfPart(x: real, h: real)
    requires x <= h && 0.0 < h
    ensures CeilPositive(x / h) <= 1
  {
    var part := x / h;
    assert Earn(part, h) == x && Earn(1.0, h) == h;
    if part > 1.0 {
      EarnStrictlyMonotone(1.0, part, h);
    }
  }

  lemma OnePauseSuffices(b: BucketState, cost: real)
    requires RefillsHourly(b) && 0.0 <= cost <= b.capacity
    ensures SleepsNeeded(b, cost) <= 1
    ensures forall later :: later >= b.last + Pause(Answer(b, cost)) && !Answer(b, cost).Taken? ==>
              Succeeds(b, later, cost)
  {
    HourlyRefillIsPositive(b);
    if !Answer(b, cost).Taken? {
      var wait := Answer(b, cost).secs;
      var hourly := b.refillPerSec * SECONDS_PER_HOUR;
      assert hourly == b.capacity;
      CeilOfPart(cost - b.tokens, hourly);
      WaitEarnsTheRest(b, cost);
      if wait > SECONDS_PER_HOUR {
        EarnStrictlyMonotone(SECONDS_PER_HOUR, wait, b.refillPerSec);
      }
      forall later | later >= b.last + Pause(Answer(b, cost))
        ensures Succeeds(b, later, cost)
      {
        WaitIsExact(b, cost, later - b.last);
      }
    }
  }

  /** A budget smaller than the cost of one operation is never served at all. */
  lemma {:induction false} TooSmallABudgetNeverServes(b: BucketState, turns: seq<Turn>, from: real, to: real)
    requires Valid(b) && Serialized(b, turns)
    requires forall i :: 0 <= i < |turns| ==> turns[i].cost > b.capacity
    ensures GrantedIn(b, turns, from, to) == 0.0
    decreases |turns|
  {
    if turns != [] {
      var t := turns[0];
      TurnConserves(b, t);
      var b' := Attempt(b, t.at, t.cost);
      TooSmallABudgetNeverServes(b', turns[1..], from, to);
      assert TurnEntry(b, t).granted == 0.0;
      assert Ledger(b, turns)[1..] == Ledger(b', turns[1..]);
    }
  }
}
