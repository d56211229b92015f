/** The notification watermark of `src/dedup.rs`. */
module Dedup {
  import opened Wrappers

  /** A notification. Timestamps are instants on a line; `body` is everything else. */
  datatype Notification = Notification(uri: string, indexedAt: int, body: nat) {
    function Id(): Key { Key(uri, indexedAt) }
  }

  /** What identifies a notification for de-duplication. */
  datatype Key = Key(uri: string, indexedAt: int)

  /** The newest instant processed, and the URIs processed at exactly that instant. */
  datatype Watermark = Watermark(highWater: Option<int>, seen: set<string>)

  const EMPTY := Watermark(None, {})

  // ---- the specification ----

  predicate IsNew(w: Watermark, n: Notification) {
    match w.highWater
    case None => true
    case Some(high) => n.indexedAt > high || (n.indexedAt == high && n.uri !in w.seen)
  }

  function Mark(w: Watermark, n: Notification): Watermark {
    match w.highWater
    case Some(high) =>
      if n.indexedAt == high then Watermark(Some(high), w.seen + {n.uri})
      else if n.indexedAt < high then w
      else Watermark(Some(n.indexedAt), {n.uri})
    case None => Watermark(Some(n.indexedAt), {n.uri})
  }

  function MarkAll(w: Watermark, ns: seq<Notification>): Watermark
    decreases |ns|
  {
    if ns == [] then w else MarkAll(Mark(w, ns[0]), ns[1..])
  }

  /** The notifications that `w` does not cover, in the order given. */
  function Fresh(w: Watermark, ns: seq<Notification>): seq<Notification> {
    if ns == [] then [] else (if IsNew(w, ns[0]) then [ns[0]] else []) + Fresh(w, ns[1..])
  }

  /** The library's stable sort by timestamp. */
  function SortByTime(ns: seq<Notification>): seq<Notification> {
    if ns == [] then [] else Insert(ns[0], SortByTime(ns[1..]))
  }

  function Insert(n: Notification, ns: seq<Notification>): seq<Notification> {
    if ns == [] || n.indexedAt <= ns[0].indexedAt then [n] + ns else [ns[0]] + Insert(n, ns[1..])
  }

  /** What one batch yields for dispatch. */
  function Batch(w: Watermark, ns: seq<Notification>): seq<Notification> {
    SortByTime(Fresh(w, ns))
  }

  // ---- the code ----

  /** The serialized form: the set as a list in no particular order. */
  datatype DedupState = DedupState(highWater: Option<int>, seen: seq<string>)

  function Listed(seen: seq<string>): set<string> {
    set uri | uri in seen
  }

  class Dedup {
    var highWater: Option<int>
    var seenAtWatermark: set<string>

    function State(): Watermark
      reads this
    {
      Watermark(highWater, seenAtWatermark)
    }

    constructor ()
      ensures State() == EMPTY
    {
      highWater, seenAtWatermark := None, {};
    }

    /** `from_json`. */
    constructor FromJson(saved: DedupState)
      ensures State() == Watermark(saved.highWater, Listed(saved.seen))
    {
      highWater, seenAtWatermark := saved.highWater, Listed(saved.seen);
    }

    /** `to_json`: restoring what is saved gives the same watermark back. */
    method ToJson() returns (saved: DedupState)
      ensures Watermark(saved.highWater, Listed(saved.seen)) == State()
    {
      var left, seen := seenAtWatermark, [];
      while left != {}
        invariant Listed(seen) + left == seenAtWatermark
        decreases |left|
      {
        var uri :| uri in left;
        left, seen := left - {uri}, seen + [uri];
      }
      return DedupState(highWater, seen);
    }

    method MarkOne(n: Notification)
      modifies this
      ensures State() == Mark(old(State()), n)
    {
      match highWater {
        case Some(high) =>
          if n.indexedAt == high {
            seenAtWatermark := seenAtWatermark + {n.uri};
          } else if n.indexedAt > high {
            highWater, seenAtWatermark := Some(n.indexedAt), {n.uri};
          }
        case None =>
          highWater, seenAtWatermark := Some(n.indexedAt), {n.uri};
      }
    }

    /** `prime`: move past `ns` without dispatching them. */
    method Prime(ns: seq<Notification>)
      modifies this
      ensures State() == MarkAll(old(State()), ns)
    {
      for k := 0 to |ns|
        invariant MarkAll(State(), ns[k..]) == MarkAll(old(State()), ns)
      {
        assert ns[k..][1..] == ns[k + 1..];
        MarkOne(ns[k]);
      }
    }

    /** `take_new_sorted`: filter against the watermark as it was, sort, then mark. */
    method TakeNewSorted(ns: seq<Notification>) returns (news: seq<Notification>)
      modifies this
      ensures news == Batch(old(State()), ns)
      ensures State() == MarkAll(old(State()), news)
    {
      ghost var w := State();
      news := [];
      for k := 0 to |ns|
        invariant State() == w
        invariant news + Fresh(w, ns[k..]) == Fresh(w, ns)
      {
        assert ns[k..][1..] == ns[k + 1..];
        if IsNew(State(), ns[k]) {
          news := news + [ns[k]];
        }
      }
      assert news == Fresh(w, ns);
      news := SortByTime(news);
      Prime(news);
    }
  }
}

/** What the watermark promises. */
module DedupLaws {
  import opened Wrappers
  import opened Dedup

  // ---- the compact watermark refines the full history ----

  /** `w` is the summary of a history: its newest instant and the URIs at that instant. */
  ghost predicate Summarizes(w: Watermark, history: set<Key>) {
    match w.highWater
    case None => history == {} && w.seen == {}
    case Some(high) =>
      && (forall k :: k in history ==> k.indexedAt <= high)
      && (exists k :: k in history && k.indexedAt == high)
      && (forall uri :: uri in w.seen <==> Key(uri, high) in history)
  }

  function Keys(ns: seq<Notification>): set<Key> {
    if ns == [] then {} else {ns[0].Id()} + Keys(ns[1..])
  }

  lemma MarkExtendsHistory(w: Watermark, history: set<Key>, n: Notification)
    requires Summarizes(w, history)
    ensures Summarizes(Mark(w, n), history + {n.Id()})
  {
  }

  /** Marking any sequence extends the history by exactly those notifications. */
  lemma {:induction false} MarkingSummarizes(w: Watermark, history: set<Key>, ns: seq<Notification>)
    requires Summarizes(w, history)
    ensures Summarizes(MarkAll(w, ns), history + Keys(ns))
    decreases |ns|
  {
    if ns == [] {
      assert history + Keys(ns) == history;
    } else {
      MarkExtendsHistory(w, history, ns[0]);
      MarkingSummarizes(Mark(w, ns[0]), history + {ns[0].Id()}, ns[1..]);
      assert history + {ns[0].Id()} + Keys(ns[1..]) == history + Keys(ns);
    }
  }

  /** A history has one summary. */
  lemma SummaryIsUnique(w: Watermark, v: Watermark, history: set<Key>)
    requires Summarizes(w, history) && Summarizes(v, history)
    ensures w == v
  {
  }

  /** The order and the repetitions of marking do not matter. */
  lemma MarkingIgnoresOrder(w: Watermark, history: set<Key>, ms: seq<Notification>, ns: seq<Notification>)
    requires Summarizes(w, history) && Keys(ms) == Keys(ns)
    ensures MarkAll(w, ms) == MarkAll(w, ns)
  {
    MarkingSummarizes(w, history, ms);
    MarkingSummarizes(w, history, ns);
    SummaryIsUnique(MarkAll(w, ms), MarkAll(w, ns), history + Keys(ms));
  }

  /** For everything not older than the watermark, the summary answers as the full history
      would; everything older counts as handled. */
  lemma IsNewConsultsTheHistory(w: Watermark, history: set<Key>, n: Notification)
    requires Summarizes(w, history)
    ensures IsNew(w, n) <==>
            n.Id() !in history && forall k :: k in history ==> k.indexedAt <= n.indexedAt
  {
  }

  // ---- coverage only grows ----

  lemma {:induction false} MarkingNeverUncovers(w: Watermark, ns: seq<Notification>, n: Notification)
    requires !IsNew(w, n)
    ensures !IsNew(MarkAll(w, ns), n)
    decreases |ns|
  {
    if ns != [] {
      MarkingNeverUncovers(Mark(w, ns[0]), ns[1..], n);
    }
  }

  lemma {:induction false} MarkingCovers(w: Watermark, ns: seq<Notification>, n: Notification)
    requires n in ns
    ensures !IsNew(MarkAll(w, ns), n)
    decreases |ns|
  {
    if n == ns[0] {
      MarkingNeverUncovers(Mark(w, ns[0]), ns[1..], n);
    } else {
      MarkingCovers(Mark(w, ns[0]), ns[1..], n);
    }
  }

  // ---- one batch ----

  ghost predicate Chronological(ns: seq<Notification>) {
    forall i, j :: 0 <= i < j < |ns| ==> ns[i].indexedAt <= ns[j].indexedAt
  }

  lemma {:induction false} InsertKeepsAll(n: Notification, ns: seq<Notification>)
    ensures multiset(Insert(n, ns)) == multiset{n} + multiset(ns)
  {
    if ns != [] && n.indexedAt > ns[0].indexedAt {
      InsertKeepsAll(n, ns[1..]);
      assert ns == [ns[0]] + ns[1..];
    }
  }

  lemma {:induction false} InsertSorts(n: Notification, ns: seq<Notification>)
    requires Chronological(ns)
    ensures Chronological(Insert(n, ns))
  {
    if ns != [] && n.indexedAt > ns[0].indexedAt {
      var rest := Insert(n, ns[1..]);
      InsertSorts(n, ns[1..]);
      InsertKeepsAll(n, ns[1..]);
      forall k | 0 <= k < |rest|
        ensures ns[0].indexedAt <= rest[k].indexedAt
      {
        assert rest[k] in multiset(rest);
      }
    }
  }

  /** Sorted, and the same notifications. */
  lemma {:induction false} SortSorts(ns: seq<Notification>)
    ensures Chronological(SortByTime(ns)) && multiset(SortByTime(ns)) == multiset(ns)
  {
    if ns != [] {
      SortSorts(ns[1..]);
      InsertSorts(ns[0], SortByTime(ns[1..]));
      InsertKeepsAll(ns[0], SortByTime(ns[1..]));
      assert ns == [ns[0]] + ns[1..];
    }
  }

  /** The notifications of one instant. */
  function AtTime(ns: seq<Notification>, time: int): seq<Notification> {
    if ns == [] then [] else (if ns[0].indexedAt == time then [ns[0]] else []) + AtTime(ns[1..], time)
  }

  lemma {:induction false} InsertIsStable(n: Notification, ns: seq<Notification>, time: int)
    ensures AtTime(Insert(n, ns), time) == (if n.indexedAt == time then [n] else []) + AtTime(ns, time)
  {
    if ns != [] && n.indexedAt > ns[0].indexedAt {
      InsertIsStable(n, ns[1..], time);
    }
  }

  /** Notifications of one instant keep the order the server gave them in. */
  lemma {:induction false} SortIsStable(ns: seq<Notification>, time: int)
    ensures AtTime(SortByTime(ns), time) == AtTime(ns, time)
  {
    if ns != [] {
      SortIsStable(ns[1..], time);
      InsertIsStable(ns[0], SortByTime(ns[1..]), time);
    }
  }

  lemma {:induction false} FreshMembers(w: Watermark, ns: seq<Notification>, n: Notification)
    ensures n in Fresh(w, ns) <==> n in ns && IsNew(w, n)
  {
    if ns != [] {
      FreshMembers(w, ns[1..], n);
      assert n in ns <==> n == ns[0] || n in ns[1..];
    }
  }

  lemma BatchMembers(w: Watermark, ns: seq<Notification>, n: Notification)
    ensures n in Batch(w, ns) <==> n in ns && IsNew(w, n)
  {
    FreshMembers(w, ns, n);
    SortSorts(Fresh(w, ns));
    assert n in Batch(w, ns) <==> n in multiset(Batch(w, ns));
    assert n in Fresh(w, ns) <==> n in multiset(Fresh(w, ns));
  }

  // ---- the batch, read as positions of the page ----

  /** Of two positions of a page, the earlier instant comes first, and within one instant the
      earlier position. */
  ghost predicate Before(page: seq<Notification>, i: nat, j: nat) {
    i < |page| && j < |page| &&
    (page[i].indexedAt < page[j].indexedAt || (page[i].indexedAt == page[j].indexedAt && i < j))
  }

  ghost predicate Ordered(page: seq<Notification>, order: seq<nat>) {
    forall j, k :: 0 <= j < k < |order| ==> Before(page, order[j], order[k])
  }

  /** `batch` is `page` read at the positions `order`, each before the next. */
  ghost predicate ReadsInOrder(page: seq<Notification>, order: seq<nat>, batch: seq<Notification>) {
    && |order| == |batch|
    && (forall k :: 0 <= k < |order| ==> order[k] < |page| && batch[k] == page[order[k]])
    && Ordered(page, order)
  }

  lemma {:induction false} PlaceNews(page: seq<Notification>, i: nat, order: seq<nat>, batch: seq<Notification>)
      returns (placed: seq<nat>)
    requires ReadsInOrder(page, order, batch) && i < |page|
    requires forall k :: 0 <= k < |order| ==> i < order[k]
    ensures ReadsInOrder(page, placed, Insert(page[i], batch))
    ensures forall p: nat :: p in placed <==> p == i || p in order
  {
    if order == [] || page[i].indexedAt <= page[order[0]].indexedAt {
      placed := [i] + order;
    } else {
      var rest := PlaceNews(page, i, order[1..], batch[1..]);
      placed := [order[0]] + rest;
      assert forall p: nat :: p in order <==> p == order[0] || p in order[1..];
      forall k | 0 <= k < |rest|
        ensures Before(page, order[0], rest[k])
      {
        assert rest[k] in rest;
        if rest[k] != i {
          var m :| 1 <= m < |order| && order[m] == rest[k];
        }
      }
    }
  }

  lemma BatchUnfolds(w: Watermark, page: seq<Notification>)
    requires page != []
    ensures Batch(w, page) == if IsNew(w, page[0]) then Insert(page[0], Batch(w, page[1..])) else Batch(w, page[1..])
  {
    var rest := Fresh(w, page[1..]);
    assert ([page[0]] + rest)[1..] == rest && [] + rest == rest;
  }

  lemma {:induction false} OrderFrom(w: Watermark, page: seq<Notification>, at: nat) returns (order: seq<nat>)
    requires at <= |page|
    ensures ReadsInOrder(page, order, Batch(w, page[at..]))
    ensures forall p: nat :: p in order <==> at <= p < |page| && IsNew(w, page[p])
    decreases |page| - at
  {
    if at == |page| {
      assert page[at..] == [];
      order := [];
    } else {
      order := OrderFrom(w, page, at + 1);
      assert page[at..][1..] == page[at + 1..];
      BatchUnfolds(w, page[at..]);
      if IsNew(w, page[at]) {
        order := PlaceNews(page, at, order, Batch(w, page[at + 1..]));
      }
    }
  }

  /** What one poll dispatches is the page read at exactly the positions that hold news, each
      once: earlier instants first, and within one instant in the server's order. */
  lemma BatchIsPageInOrder(w: Watermark, page: seq<Notification>) returns (order: seq<nat>)
    ensures ReadsInOrder(page, order, Batch(w, page))
    ensures forall p: nat :: p in order <==> p < |page| && IsNew(w, page[p])
  {
    order := OrderFrom(w, page, 0);
    assert page[0..] == page;
  }

  lemma {:induction false} SameOrder(page: seq<Notification>, a: seq<nat>, b: seq<nat>)
    requires Ordered(page, a) && Ordered(page, b)
    requires forall p: nat :: p in a <==> p in b
    ensures a == b
  {
    assert a != [] ==> a[0] in b;
    assert b != [] ==> b[0] in a;
    if a != [] {
      forall p: nat
        ensures p in a[1..] <==> p in b[1..]
      {
        assert p in a <==> p == a[0] || p in a[1..];
        assert p in b <==> p == b[0] || p in b[1..];
      }
      SameOrder(page, a[1..], b[1..]);
    }
  }

  /** And there is only one way to read it so. */
  lemma OneBatch(w: Watermark, page: seq<Notification>, order: seq<nat>, batch: seq<Notification>)
    requires ReadsInOrder(page, order, batch) && forall p: nat :: p in order <==> p < |page| && IsNew(w, page[p])
    ensures batch == Batch(w, page)
  {
    var mine := BatchIsPageInOrder(w, page);
    SameOrder(page, order, mine);
  }

  // ---- whole runs of polls ----

  /** Everything dispatched by polling the given batches in turn. */
  function Dispatched(w: Watermark, batches: seq<seq<Notification>>): seq<Notification>
    decreases |batches|
  {
    if batches == [] then []
    else
      var news := Batch(w, batches[0]);
      news + Dispatched(MarkAll(w, news), batches[1..])
  }

  lemma {:induction false} DispatchedIsNew(w: Watermark, batches: seq<seq<Notification>>, n: Notification)
    requires n in Dispatched(w, batches)
    ensures IsNew(w, n)
    decreases |batches|
  {
    var news := Batch(w, batches[0]);
    if n in news {
      BatchMembers(w, batches[0], n);
    } else {
      DispatchedIsNew(MarkAll(w, news), batches[1..], n);
      if !IsNew(w, n) {
        MarkingNeverUncovers(w, news, n);
      }
    }
  }

  /** The dispatch log of any run of polls is in chronological order. */
  lemma {:induction false} DispatchIsChronological(w: Watermark, batches: seq<seq<Notification>>)
    ensures Chronological(Dispatched(w, batches))
    decreases |batches|
  {
    if batches != [] {
      var news := Batch(w, batches[0]);
      var later := Dispatched(MarkAll(w, news), batches[1..]);
      SortSorts(Fresh(w, batches[0]));
      DispatchIsChronological(MarkAll(w, news), batches[1..]);
      forall i, j | 0 <= i < |news| && 0 <= j < |later|
        ensures news[i].indexedAt <= later[j].indexedAt
      {
        DispatchedIsNew(MarkAll(w, news), batches[1..], later[j]);
        MarkingCovers(w, news, news[i]);
      }
    }
  }

  ghost predicate NoRepeats(ns: seq<Notification>) {
    forall i, j :: 0 <= i < j < |ns| ==> ns[i].Id() != ns[j].Id()
  }

  /** At each poll, what the batch holds of news has no repeats. */
  ghost predicate BatchesHaveNoRepeats(w: Watermark, batches: seq<seq<Notification>>)
    decreases |batches|
  {
    batches == [] ||
    (NoRepeats(Fresh(w, batches[0])) &&
     BatchesHaveNoRepeats(MarkAll(w, Batch(w, batches[0])), batches[1..]))
  }

  /** No notification is dispatched twice over any run of polls, if and only if no single
      batch repeats one that is news: the filter runs before the batch is marked. */
  lemma {:induction false} AtMostOnceIffBatchesHaveNoRepeats(w: Watermark, batches: seq<seq<Notification>>)
    ensures NoRepeats(Dispatched(w, batches)) <==> BatchesHaveNoRepeats(w, batches)
    decreases |batches|
  {
    if batches != [] {
      var news := Batch(w, batches[0]);
      var later := Dispatched(MarkAll(w, news), batches[1..]);
      AtMostOnceIffBatchesHaveNoRepeats(MarkAll(w, news), batches[1..]);
      SortSorts(Fresh(w, batches[0]));
      RepeatsIgnoreOrder(Fresh(w, batches[0]), news);
      forall i, j | 0 <= i < |news| && 0 <= j < |later|
        ensures news[i].Id() != later[j].Id()
      {
        DispatchedIsNew(MarkAll(w, news), batches[1..], later[j]);
        MarkingCovers(w, news, news[i]);
      }
      NoRepeatsConcat(news, later);
    }
  }

  /** A page that lists one notification twice has it dispatched twice. */
  lemma ListedTwiceIsDispatchedTwice(n: Notification)
    ensures Dispatched(EMPTY, [[n, n]]) == [n, n]
  {
    var page := [n, n];
    var one := [n];
    assert page[1..] == one && one[1..] == [];
    assert Fresh(EMPTY, one) == one;
    assert Fresh(EMPTY, page) == page;
    assert SortByTime(one) == one;
    assert SortByTime(page) == Insert(n, one) == page;
    var pages := [page];
    assert pages[1..] == [];
  }

  lemma NoRepeatsConcat(a: seq<Notification>, b: seq<Notification>)
    requires forall i, j :: 0 <= i < |a| && 0 <= j < |b| ==> a[i].Id() != b[j].Id()
    ensures NoRepeats(a + b) <==> NoRepeats(a) && NoRepeats(b)
  {
    var c := a + b;
    if NoRepeats(c) {
      forall i, j | 0 <= i < j < |a| ensures a[i].Id() != a[j].Id() {
        assert a[i] == c[i] && a[j] == c[j];
      }
      forall i, j | 0 <= i < j < |b| ensures b[i].Id() != b[j].Id() {
        assert b[i] == c[|a| + i] && b[j] == c[|a| + j];
      }
    }
  }

  lemma {:induction false} KeysMembers(ns: seq<Notification>, k: Key)
    ensures k in Keys(ns) <==> exists n :: n in ns && n.Id() == k
  {
    if ns != [] {
      KeysMembers(ns[1..], k);
      assert ns[0] in ns;
    }
  }

  lemma {:induction false} NoRepeatsByCount(ns: seq<Notification>)
    ensures |Keys(ns)| <= |ns|
    ensures NoRepeats(ns) <==> |Keys(ns)| == |ns|
  {
    if ns != [] {
      var rest := ns[1..];
      NoRepeatsByCount(rest);
      KeysMembers(rest, ns[0].Id());
      if NoRepeats(ns) {
        assert NoRepeats(rest);
        assert ns[0].Id() !in Keys(rest);
      } else if NoRepeats(rest) {
        var i, j :| 0 <= i < j < |ns| && ns[i].Id() == ns[j].Id();
        assert i == 0 && rest[j - 1] == ns[j];
        assert ns[0].Id() in Keys(rest);
      }
    }
  }

  lemma RepeatsIgnoreOrder(a: seq<Notification>, b: seq<Notification>)
    requires multiset(a) == multiset(b)
    ensures NoRepeats(a) <==> NoRepeats(b)
  {
    NoRepeatsByCount(a);
    NoRepeatsByCount(b);
    forall k: Key
      ensures k in Keys(a) <==> k in Keys(b)
    {
      KeysMembers(a, k);
      KeysMembers(b, k);
      assert forall n :: n in a <==> n in multiset(a);
      assert forall n :: n in b <==> n in multiset(b);
    }
    assert Keys(a) == Keys(b);
    assert |a| == |multiset(a)| == |multiset(b)| == |b|;
  }
}
