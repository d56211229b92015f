/** The paging streams of `src/read.rs`. The server is a function of how many requests came
    before and of the cursor sent: it may answer the same cursor differently over time. */
module Pagination {
  import opened Wrappers

  datatype Page<T> = Page(items: seq<T>, cursor: Option<string>)

  type Server<!T> = (nat, Option<string>) -> Result<Page<T>>

  // ---- the specification: the pages in a row ----

  /** The cursor of request `k`: none at first, then what the page before came with. */
  function CursorFor<T>(server: Server<T>, k: nat): Option<string> {
    if k == 0 then None
    else
      var before := server(k - 1, CursorFor(server, k - 1));
      if before.Ok? then before.value.cursor else None
  }

  function Answer<T>(server: Server<T>, k: nat): Result<Page<T>> {
    server(k, CursorFor(server, k))
  }

  /** Request `k` brings items. */
  predicate Brings<T>(server: Server<T>, k: nat) {
    Answer(server, k).Ok? && Answer(server, k).value.items != []
  }

  /** Request `k` is ever made: all before it brought items and a cursor to go on with. */
  predicate Reached<T>(server: Server<T>, k: nat) {
    k == 0 || (Reached(server, k - 1) && Brings(server, k - 1) && Answer(server, k - 1).value.cursor.Some?)
  }

  /** The items of the first `k` requests, one page after the other. */
  function Items<T>(server: Server<T>, k: nat): seq<T> {
    if k == 0 then []
    else Items(server, k - 1) + if Brings(server, k - 1) then Answer(server, k - 1).value.items else []
  }

  /** `m` is the least number of pages that hold `n` items. */
  predicate LeastPages<T>(server: Server<T>, m: nat, n: nat) {
    |Items(server, m)| >= n && (m > 0 ==> |Items(server, m - 1)| < n)
  }

  lemma {:induction false} ItemsGrow<T>(server: Server<T>, j: nat, k: nat)
    requires j <= k
    ensures Items(server, j) <= Items(server, k)
  {
    if j < k {
      ItemsGrow(server, j, k - 1);
    }
  }

  lemma NextPage<T>(server: Server<T>, k: nat)
    ensures var page := Answer(server, k);
            Items(server, k + 1) == Items(server, k) + if page.Ok? then page.value.items else []
    ensures CursorFor(server, k + 1) == if Answer(server, k).Ok? then Answer(server, k).value.cursor else None
  {
  }

  /** A request is made exactly if each one before it brought items and a cursor; the first is
      sent without a cursor, every later one with that of the page before. */
  lemma {:induction false} ReachedIff<T>(server: Server<T>, k: nat)
    ensures Reached(server, k) <==>
            forall j: nat :: j < k ==>
              && Answer(server, j).Ok? && Answer(server, j).value.items != []
              && Answer(server, j).value.cursor.Some?
    ensures Reached(server, k) ==>
            Answer(server, k) == server(k, if k == 0 then None else Answer(server, k - 1).value.cursor)
  {
    if k > 0 {
      ReachedIff(server, k - 1);
    }
  }

  /** The items of the first `k` pages are all of theirs and nothing else. */
  lemma {:induction false} ItemsAt<T>(server: Server<T>, k: nat, j: nat, i: nat)
    requires j < k && Answer(server, j).Ok? && i < |Answer(server, j).value.items|
    ensures |Items(server, 0)| == 0
    ensures var before := |Items(server, j)|;
            && |Items(server, j + 1)| == before + |Answer(server, j).value.items|
            && before + i < |Items(server, k)|
            && Items(server, k)[before + i] == Answer(server, j).value.items[i]
  {
    ItemsGrow(server, j + 1, k);
  }

  /** There is only one such number. */
  lemma LeastPagesUnique<T>(server: Server<T>, m: nat, l: nat, n: nat)
    requires LeastPages(server, m, n) && LeastPages(server, l, n)
    ensures m == l
  {
    if m < l {
      ItemsGrow(server, m, l - 1);
    } else if l < m {
      ItemsGrow(server, l, m - 1);
    }
  }

  lemma {:induction false} NotReachedLater<T>(server: Server<T>, j: nat, k: nat)
    requires j <= k && !Reached(server, j)
    ensures !Reached(server, k)
  {
    if j < k {
      NotReachedLater(server, j, k - 1);
    }
  }

  lemma ReachedIsBelow<T>(server: Server<T>, k: nat, limit: nat)
    requires Reached(server, k) && !Reached(server, limit)
    ensures k < limit
  {
  }

  // ---- the stream ----

  datatype Next<T> = Item(value: T) | Failed | End

  /** Why a stream ends after `k` requests. */
  predicate Stops<T>(server: Server<T>, k: nat, how: Next<T>) {
    k > 0 &&
    match how
    case Item(_) => false
    case Failed => Answer(server, k - 1).Err?
    case End =>
      Answer(server, k - 1).Ok? &&
      (Answer(server, k - 1).value.items == [] || Answer(server, k - 1).value.cursor == None)
  }

  class Paginated<T> {
    const server: Server<T>
    var cursor: Option<string>
    var buffer: seq<T>
    var exhausted: bool
    /** The stream has yielded its error or its end. */
    var ended: bool
    /** How many requests were made, and how many items were yielded. */
    var fetches: nat
    ghost var yielded: nat

    /** The buffer is the rest of the pages fetched, and the state says whether and with which
        cursor to go on. */
    ghost predicate Paged()
      reads this
    {
      && yielded <= |Items(server, fetches)| && buffer == Items(server, fetches)[yielded..]
      && (fetches > 0 ==> Reached(server, fetches - 1))
      && (ended ==> fetches > 0 && buffer == [])
      && (!ended && exhausted ==> Stops(server, fetches, End))
      && (!ended && !exhausted ==> Reached(server, fetches) && cursor == CursorFor(server, fetches))
    }

    ghost predicate Valid()
      reads this
    {
      && Paged()
      && (!ended && fetches > 0 ==> yielded > 0 && LeastPages(server, fetches, yielded))
      && (fetches == 0 ==> yielded == 0)
    }

    /** `paginate`. */
    constructor (server: Server<T>)
      ensures Valid() && this.server == server && fetches == yielded == 0 && !ended
    {
      this.server := server;
      cursor, buffer, exhausted, ended := None, [], false, false;
      fetches, yielded := 0, 0;
    }

    /** One request, when the buffer has run dry: an answer that ends the stream, or a page. */
    method FetchPage() returns (stop: Option<Next<T>>)
      requires Valid() && !ended && !exhausted && buffer == []
      modifies this
      ensures Paged() && fetches == old(fetches) + 1 && yielded == old(yielded)
      ensures stop.Some? ==> ended && !stop.value.Item? && Stops(server, fetches, stop.value)
      ensures stop.Some? ==> yielded == |Items(server, fetches)|
      ensures stop.None? ==> !ended && buffer != [] && |Items(server, fetches - 1)| == yielded
    {
      var page := server(fetches, cursor);
      ghost var k := fetches;
      assert page == Answer(server, k) && Reached(server, k) && yielded == |Items(server, k)|;
      NextPage(server, k);
      cursor, fetches := None, fetches + 1;
      if page.Err? {
        ended := true;
        return Some(Failed);
      }
      if page.value.items == [] {
        ended := true;
        return Some(End);
      }
      exhausted := page.value.cursor.None?;
      cursor, buffer := page.value.cursor, page.value.items;
      return None;
    }

    /** See to it that there is an item to yield, or end the stream. */
    method FillBuffer() returns (stop: Option<Next<T>>)
      requires Valid() && !ended
      modifies this
      ensures Paged() && old(fetches) <= fetches <= old(fetches) + 1 && yielded == old(yielded)
      ensures stop.Some? ==> Valid() && ended && !stop.value.Item? && Stops(server, fetches, stop.value)
      ensures stop.Some? ==> yielded == |Items(server, fetches)|
      ensures stop.None? ==> !ended && buffer != [] && fetches > 0 && |Items(server, fetches - 1)| <= yielded
    {
      stop := None;
      if buffer == [] {
        if exhausted {
          ended := true;
          return Some(End);
        }
        stop := FetchPage();
      }
    }

    /** The next item of the current page. */
    method PopItem() returns (item: T)
      requires Paged() && !ended && buffer != [] && fetches > 0 && |Items(server, fetches - 1)| <= yielded
      modifies this`buffer, this`yielded
      ensures Valid() && yielded == old(yielded) + 1 <= |Items(server, fetches)|
      ensures item == Items(server, fetches)[old(yielded)]
      ensures LeastPages(server, fetches, yielded)
    {
      ghost var all, y := Items(server, fetches), yielded;
      assert buffer[0] == all[y] && buffer[1..] == all[y + 1..];
      item := buffer[0];
      buffer, yielded := buffer[1..], yielded + 1;
    }

    /** `next`: what is buffered comes first, then at most one page is fetched. After `n` items
        exactly the pages that `n` items need have been fetched. */
    method GetNext() returns (next: Next<T>)
      requires Valid()
      modifies this
      ensures Valid() && old(fetches) <= fetches <= old(fetches) + 1
      ensures old(ended) ==> next == End && fetches == old(fetches)
      ensures next.Item? ==>
                && !ended && yielded == old(yielded) + 1 <= |Items(server, fetches)|
                && next.value == Items(server, fetches)[old(yielded)]
                && LeastPages(server, fetches, yielded)
      ensures !next.Item? ==> ended && yielded == old(yielded)
      ensures !next.Item? && !old(ended) ==>
                yielded == |Items(server, fetches)| && Stops(server, fetches, next)
    {
      if ended {
        return End;
      }
      var stop := FillBuffer();
      if stop.Some? {
        return stop.value;
      }
      var item := PopItem();
      return Item(item);
    }

    /** One turn of `collect_all`: the next item is pushed onto what was collected. */
    method Collect(out: seq<T>, ghost from: nat, ghost limit: nat) returns (next: Next<T>, more: seq<T>)
      requires Valid() && !ended && !Reached(server, limit) && Yields(server, fetches, from, yielded, out)
      modifies this
      ensures Valid() && fetches <= limit && yielded <= |Items(server, limit)|
      ensures Yields(server, fetches, from, yielded, more)
      ensures next.Item? ==> !ended && yielded == old(yielded) + 1
      ensures !next.Item? ==> ended && yielded == |Items(server, fetches)| && Stops(server, fetches, next)
    {
      ghost var before, to := fetches, yielded;
      next := GetNext();
      WithinLimit(server, fetches, limit);
      if next.Item? {
        OneMore(server, before, fetches, from, to, out, next.value);
        more := out + [next.value];
      } else {
        NoMore(server, before, fetches, from, to, out);
        more := out;
      }
    }

    /** `collect_all`, of a list that does end: `limit` requests are never all made. All items
        that were not yielded yet, or the first error. */
    method CollectAll(ghost limit: nat) returns (all: Result<seq<T>>)
      requires Valid() && !Reached(server, limit)
      modifies this
      ensures Valid() && ended && fetches <= limit
      ensures old(ended) ==> all == Ok([]) && fetches == old(fetches)
      ensures !old(ended) ==>
                match all
                case Ok(items) =>
                  Yields(server, fetches, old(yielded), |Items(server, fetches)|, items) &&
                  Stops(server, fetches, End)
                case Err => Stops(server, fetches, Failed)
    {
      WithinLimit(server, fetches, limit);
      if ended {
        return Ok([]);
      }
      var out := [];
      ghost var total, start := |Items(server, limit)|, yielded;
      while true
        invariant Valid() && !ended && yielded <= total
        invariant Yields(server, fetches, start, yielded, out)
        decreases total - yielded
      {
        var next;
        next, out := Collect(out, start, limit);
        match next {
          case Item(_) =>
          case Failed => return Err;
          case End => return Ok(out);
        }
      }
    }
  }

  /** `out` is what was yielded between two points. */
  ghost predicate Yields<T>(server: Server<T>, k: nat, from: nat, to: nat, out: seq<T>) {
    from <= to <= |Items(server, k)| && out == Items(server, k)[from..to]
  }

  lemma WithinLimit<T>(server: Server<T>, k: nat, limit: nat)
    requires (k > 0 ==> Reached(server, k - 1)) && !Reached(server, limit)
    ensures k <= limit && |Items(server, k)| <= |Items(server, limit)|
  {
    if k > 0 {
      ReachedIsBelow(server, k - 1, limit);
    }
    ItemsGrow(server, k, limit);
  }

  lemma OneMore<T>(server: Server<T>, j: nat, k: nat, from: nat, to: nat, out: seq<T>, v: T)
    requires j <= k && Yields(server, j, from, to, out)
    requires to < |Items(server, k)| && v == Items(server, k)[to]
    ensures Yields(server, k, from, to + 1, out + [v])
  {
    ItemsGrow(server, j, k);
  }

  lemma NoMore<T>(server: Server<T>, j: nat, k: nat, from: nat, to: nat, out: seq<T>)
    requires j <= k && Yields(server, j, from, to, out)
    ensures Yields(server, k, from, to, out)
  {
    ItemsGrow(server, j, k);
  }

  /** `take(n)`: at most `n` items, after which the stream is not asked again. */
  class Taken<T> {
    const inner: Paginated<T>
    var remaining: nat

    constructor (inner: Paginated<T>, n: nat)
      ensures this.inner == inner && remaining == n
    {
      this.inner, remaining := inner, n;
    }

    method GetNext() returns (next: Next<T>)
      requires inner.Valid()
      modifies this, inner
      ensures inner.Valid() && old(inner.fetches) <= inner.fetches <= old(inner.fetches) + 1
      ensures old(remaining) == 0 ==> next == End && inner.fetches == old(inner.fetches)
      ensures remaining == if old(remaining) == 0 || next.End? then 0 else old(remaining) - 1
      ensures next.Item? ==>
                && inner.yielded == old(inner.yielded) + 1 <= |Items(inner.server, inner.fetches)|
                && next.value == Items(inner.server, inner.fetches)[old(inner.yielded)]
                && !inner.ended && LeastPages(inner.server, inner.fetches, inner.yielded)
      ensures !next.Item? ==> inner.yielded == old(inner.yielded)
      ensures !next.Item? && old(remaining) > 0 && !old(inner.ended) ==>
                inner.yielded == |Items(inner.server, inner.fetches)| && Stops(inner.server, inner.fetches, next)
    {
      if remaining == 0 {
        return End;
      }
      next := inner.GetNext();
      remaining := if next.End? then 0 else remaining - 1;
    }

    /** One turn of reading: the next item is added to what was read since `start`. */
    method ReadOne(items: seq<T>, ghost start: nat) returns (next: Next<T>, more: seq<T>)
      requires inner.Valid() && !inner.ended && Yields(inner.server, inner.fetches, start, inner.yielded, items)
      requires LeastPages(inner.server, inner.fetches, inner.yielded)
      modifies this, inner
      ensures inner.Valid() && Yields(inner.server, inner.fetches, start, inner.yielded, more)
      ensures next.Item? ==>
                && !inner.ended && |more| == |items| + 1 && remaining == old(remaining) - 1
                && LeastPages(inner.server, inner.fetches, inner.yielded)
      ensures !next.Item? ==> more == items
      ensures !next.Item? && old(remaining) == 0 ==> LeastPages(inner.server, inner.fetches, inner.yielded)
      ensures !next.Item? && old(remaining) > 0 ==>
                inner.yielded == |Items(inner.server, inner.fetches)| && Stops(inner.server, inner.fetches, next)
    {
      ghost var before, to := inner.fetches, inner.yielded;
      next := GetNext();
      if next.Item? {
        OneMore(inner.server, before, inner.fetches, start, to, items, next.value);
        more := items + [next.value];
      } else {
        NoMore(inner.server, before, inner.fetches, start, to, items);
        more := items;
      }
    }

    /** Reading `take(n)` to its end: the next `n` items of the concatenation, from exactly the
        pages that hold everything yielded so far, or, short of `n`, all there are. */
    method ReadAll() returns (items: seq<T>)
      requires inner.Valid() && !inner.ended
      modifies this, inner
      ensures inner.Valid() && Yields(inner.server, inner.fetches, old(inner.yielded), inner.yielded, items)
      ensures |items| <= old(remaining)
      ensures |items| == old(remaining) ==> LeastPages(inner.server, inner.fetches, inner.yielded)
      ensures |items| < old(remaining) ==>
                inner.yielded == |Items(inner.server, inner.fetches)| &&
                (Stops(inner.server, inner.fetches, End) || Stops(inner.server, inner.fetches, Failed))
    {
      items := [];
      ghost var n, start := remaining, inner.yielded;
      while true
        invariant inner.Valid() && !inner.ended && remaining + |items| == n
        invariant Yields(inner.server, inner.fetches, start, inner.yielded, items)
        invariant LeastPages(inner.server, inner.fetches, inner.yielded)
        decreases remaining
      {
        var next;
        next, items := ReadOne(items, start);
        if !next.Item? {
          return;
        }
      }
    }
  }
}
