/** `plan_segments` of `src/thread.rs`: splitting a thread into posts and numbering them.
    The number of posts decides how wide the ` i/N` suffix is, the suffix decides the budget
    of a post, and the budget decides the number of posts. */
module Numbering {
  import opened Graphemes
  import opened Splitter
  import opened SplitterLaws

  /** Bluesky's maximum post length, in clusters. */
  const MAX_POST_GRAPHEMES := 300

  // ---- the suffix ----

  function Digits(n: nat): nat {
    if n < 10 then 1 else 1 + Digits(n / 10)
  }

  const SPACE := Blank(32)
  const SLASH := Ink(47)

  function Decimal(n: nat): (t: Text)
    ensures |t| == Digits(n)
  {
    if n < 10 then [Ink(48 + n)] else Decimal(n / 10) + [Ink(48 + n % 10)]
  }

  /** ` i/N`. */
  function Suffix(i: nat, total: nat): Text {
    [SPACE] + Decimal(i) + [SLASH] + Decimal(total)
  }

  /** `numbering_reserve`. */
  function NumberingReserve(total: nat): nat {
    2 + 2 * Digits(if total < 1 then 1 else total)
  }

  // ---- the plan ----

  function PerPost(limit: nat, reserve: nat): Budget {
    if limit > reserve then limit - reserve else 1
  }

  /** All pieces split to `budget`, one after the other. */
  function SplitAll(pieces: seq<Text>, budget: Budget): seq<Text> {
    if pieces == [] then [] else Chunks(pieces[0], budget) + SplitAll(pieces[1..], budget)
  }

  /** How many posts there are once room for numbering `count` posts is set aside. */
  function Recount(pieces: seq<Text>, limit: nat, count: nat): nat {
    |SplitAll(pieces, PerPost(limit, NumberingReserve(count)))|
  }

  /** The count that enters the last of at most `rounds` rounds: the loop stops early once a
      round reproduces its count. */
  function LastCount(pieces: seq<Text>, limit: nat, count: nat, rounds: nat): nat
    decreases rounds, |pieces|
  {
    var next := Recount(pieces, limit, count);
    if next == count || rounds <= 1 then count else LastCount(pieces, limit, next, rounds - 1)
  }

  const MAX_ROUNDS := 8

  /** The texts that a numbered plan numbers. */
  function Settled(pieces: seq<Text>, limit: nat): seq<Text> {
    var count := |SplitAll(pieces, PerPost(limit, 0))|;
    SplitAll(pieces, PerPost(limit, NumberingReserve(LastCount(pieces, limit, count, MAX_ROUNDS))))
  }

  function Numbered(segments: seq<Text>): (posts: seq<Text>)
    ensures |posts| == |segments|
  {
    seq(|segments|, i requires 0 <= i < |segments| => segments[i] + Suffix(i + 1, |segments|))
  }

  function Plan(pieces: seq<Text>, numbered: bool, limit: nat): seq<Text> {
    var whole := SplitAll(pieces, PerPost(limit, 0));
    if !numbered || whole == [] then whole
    else
      var segments := Settled(pieces, limit);
      if |segments| <= 1 then segments else Numbered(segments)
  }

  // ---- the code ----

  method SplitPieces(pieces: seq<Text>, limit: nat, reserve: nat) returns (segments: seq<Text>)
    ensures segments == SplitAll(pieces, PerPost(limit, reserve))
  {
    var perPost := PerPost(limit, reserve);
    segments := [];
    for i := 0 to |pieces|
      invariant segments + SplitAll(pieces[i..], perPost) == SplitAll(pieces, perPost)
    {
      var chunks := SplitIntoChunks(pieces[i], perPost);
      assert pieces[i..][1..] == pieces[i + 1..];
      segments := segments + chunks;
    }
  }

  /** `plan_segments`. */
  method PlanSegments(pieces: seq<Text>, numbered: bool, limit: nat) returns (posts: seq<Text>)
    ensures posts == Plan(pieces, numbered, limit)
  {
    var segments := SplitPieces(pieces, limit, 0);
    if !numbered || segments == [] {
      return segments;
    }
    var count := |segments|;
    ghost var last := LastCount(pieces, limit, count, MAX_ROUNDS);
    for k := 0 to MAX_ROUNDS
      invariant count == |segments|
      invariant k < MAX_ROUNDS ==> LastCount(pieces, limit, count, MAX_ROUNDS - k) == last
      invariant k == MAX_ROUNDS ==> segments == Settled(pieces, limit)
    {
      var reserve := NumberingReserve(count);
      var next := SplitPieces(pieces, limit, reserve);
      var stable := |next| == count;
      count, segments := |next|, next;
      if stable {
        break;
      }
    }
    if |segments| <= 1 {
      return segments;
    }
    return Numbered(segments);
  }
}
