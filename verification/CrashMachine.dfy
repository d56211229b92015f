/** The notification loop of `src/bot.rs` as a machine that can crash between any two steps. */
module CrashMachine {
  import opened Wrappers
  import opened Dedup
  import opened DedupLaws

  /** `w` counts the notification with key `k` as handled. */
  predicate Covers(w: Watermark, k: Key) {
    !IsNew(w, Notification(k.uri, k.indexedAt, 0))
  }

  /** The process is down, between polls with watermark `w`, or busy with a batch: `w` already
      covers the whole batch while `pending` is still to be dispatched. */
  datatype Phase =
    | Down
    | Idle(w: Watermark)
    | Busy(w: Watermark, pending: seq<Notification>)

  /** The process, its store, and what happened so far.
      - `owed`: every key that some fetch delivered as news to the watermark of that moment
      - `skipped`: the keys passed over on purpose when priming
      - `unsaved`: the keys dispatched since the last successful save
      - `resumed`: this life began from the stored watermark or has saved one since */
  datatype World = World(
    phase: Phase,
    stored: Option<Watermark>,
    dispatched: seq<Notification>,
    owed: set<Key>,
    skipped: set<Key>,
    unsaved: set<Key>,
    resumed: bool)

  const INIT := World(Down, None, [], {}, {}, {}, false)

  datatype Event =
    | StartRestored                             // the stored watermark is read back
    | StartEmpty                                // none, unreadable, or not primed
    | StartPriming(page: seq<Notification>)     // none or unreadable: skip the backlog
    | Poll(page: seq<Notification>)
    | DispatchOne
    | Save(ok: bool)
    | Crash

  predicate Enabled(s: World, e: Event) {
    match e
    case StartRestored => s.phase.Down? && s.stored.Some?
    case StartEmpty => s.phase.Down?
    case StartPriming(_) => s.phase.Down?
    case Poll(_) => s.phase.Idle?
    case DispatchOne => s.phase.Busy? && s.phase.pending != []
    case Save(_) => s.phase.Busy? && s.phase.pending == []
    case Crash => true
  }

  function Apply(s: World, e: Event): World
    requires Enabled(s, e)
  {
    match e
    case StartRestored => s.(phase := Idle(s.stored.value), resumed := true)
    case StartEmpty => s.(phase := Idle(EMPTY), resumed := false)
    case StartPriming(page) =>
      s.(phase := Busy(MarkAll(EMPTY, page), []), resumed := false,
         owed := s.owed + Keys(page), skipped := s.skipped + Keys(page))
    case Poll(page) =>
      var batch := Batch(s.phase.w, page);
      if batch == [] then s
      else s.(phase := Busy(MarkAll(s.phase.w, batch), batch), owed := s.owed + Keys(batch))
    case DispatchOne =>
      var n := s.phase.pending[0];
      s.(phase := Busy(s.phase.w, s.phase.pending[1..]),
         dispatched := s.dispatched + [n], unsaved := s.unsaved + {n.Id()})
    case Save(ok) =>
      if ok then s.(phase := Idle(s.phase.w), stored := Some(s.phase.w), unsaved := {}, resumed := true)
      else s.(phase := Idle(s.phase.w))
    case Crash => s.(phase := Down)
  }

  /** The assumption about the server: a page holds everything that was owed before and is
      not covered by the watermark the page is checked against. */
  ghost predicate Serves(s: World, w: Watermark, page: seq<Notification>) {
    forall k :: k in s.owed && !Covers(w, k) ==> k in Keys(page)
  }

  /** Nothing in `news` that was never seen before is covered by the stored watermark. */
  ghost predicate NoLateArrivals(s: World, news: seq<Notification>) {
    s.stored.Some? ==> forall k :: k in Keys(news) && Covers(s.stored.value, k) ==> k in s.owed
  }

  /** What is asked of the server. Late arrivals matter only to a life that did not resume
      (its watermark may be behind the stored one), and only if the poll takes them for news. */
  ghost predicate ServerKeepsUp(s: World, e: Event)
    requires Enabled(s, e)
  {
    match e
    case StartPriming(page) => Serves(s, EMPTY, page)
    case Poll(page) => Serves(s, s.phase.w, page) && (!s.resumed ==> NoLateArrivals(s, Batch(s.phase.w, page)))
    case _ => true
  }

  predicate IsTrace(s: World, events: seq<Event>)
    decreases |events|
  {
    events == [] || (Enabled(s, events[0]) && IsTrace(Apply(s, events[0]), events[1..]))
  }

  function Execute(s: World, events: seq<Event>): World
    requires IsTrace(s, events)
    decreases |events|
  {
    if events == [] then s else Execute(Apply(s, events[0]), events[1..])
  }

  /** A trace along which the server keeps its side. */
  ghost predicate IsRun(s: World, events: seq<Event>)
    decreases |events|
  {
    IsTrace(s, events) &&
    (events == [] || (ServerKeepsUp(s, events[0]) && IsRun(Apply(s, events[0]), events[1..])))
  }

  lemma {:induction false} TraceExtends(s: World, events: seq<Event>, e: Event)
    requires IsTrace(s, events) && Enabled(Execute(s, events), e)
    ensures IsTrace(s, events + [e]) && Execute(s, events + [e]) == Apply(Execute(s, events), e)
    decreases |events|
  {
    if events == [] {
      assert IsTrace(Apply(s, e), []);
      assert ([] + [e])[1..] == [];
    } else {
      TraceExtends(Apply(s, events[0]), events[1..], e);
      assert (events + [e])[1..] == events[1..] + [e];
    }
  }

  // ---- the invariant ----

  function Done(s: World): set<Key> {
    Keys(s.dispatched) + s.skipped
  }

  /** Every owed key that `w` covers is done, or is among `pending`. */
  ghost predicate Accounted(s: World, w: Watermark, pending: seq<Notification>) {
    forall k :: k in s.owed && Covers(w, k) ==> k in Done(s) || k in Keys(pending)
  }

  /** Crash safety: the store covers no owed key that is not done. */
  ghost predicate StoreSafe(s: World) {
    s.stored.Some? ==> Accounted(s, s.stored.value, [])
  }

  ghost predicate CoversAll(w: Watermark, keys: set<Key>) {
    forall k :: k in keys ==> Covers(w, k)
  }

  ghost predicate CoversNone(w: Watermark, keys: set<Key>) {
    forall k :: k in keys ==> !Covers(w, k)
  }

  /** `w` covers whatever the store covers. */
  ghost predicate PastStore(s: World, w: Watermark) {
    s.stored.Some? && forall k :: Covers(s.stored.value, k) ==> Covers(w, k)
  }

  ghost predicate Inv(s: World) {
    && Done(s) <= s.owed
    && StoreSafe(s)
    && (s.stored.Some? ==> CoversAll(s.stored.value, Keys(s.dispatched) - s.unsaved))
    && (s.stored.None? ==> Keys(s.dispatched) <= s.unsaved)
    && match s.phase
       case Down => true
       case Idle(w) =>
         && Accounted(s, w, [])
         && (s.resumed ==> PastStore(s, w))
       case Busy(w, pending) =>
         && Keys(pending) <= s.owed
         && Accounted(s, w, pending)
         && CoversAll(w, s.owed)
         && (s.resumed ==> PastStore(s, w) && CoversNone(s.stored.value, Keys(pending)))
  }

  lemma MarkingKeepsCoverage(w: Watermark, ns: seq<Notification>, k: Key)
    requires Covers(w, k)
    ensures Covers(MarkAll(w, ns), k)
  {
    MarkingNeverUncovers(w, ns, Notification(k.uri, k.indexedAt, 0));
  }

  lemma MarkingCoversKeys(w: Watermark, ns: seq<Notification>)
    ensures CoversAll(MarkAll(w, ns), Keys(ns))
  {
    forall k | k in Keys(ns)
      ensures Covers(MarkAll(w, ns), k)
    {
      KeysMembers(ns, k);
      var n :| n in ns && n.Id() == k;
      MarkingCovers(w, ns, n);
    }
  }

  lemma BatchKeys(w: Watermark, page: seq<Notification>, k: Key)
    ensures k in Keys(Batch(w, page)) <==> k in Keys(page) && !Covers(w, k)
  {
    KeysMembers(page, k);
    KeysMembers(Batch(w, page), k);
    forall n: Notification
      ensures n in Batch(w, page) <==> n in page && IsNew(w, n)
    {
      BatchMembers(w, page, n);
    }
  }

  lemma EmptyCoversNothing(k: Key)
    ensures !Covers(EMPTY, k)
  {
  }

  lemma {:induction false} KeysConcat(a: seq<Notification>, b: seq<Notification>)
    ensures Keys(a + b) == Keys(a) + Keys(b)
  {
    if a == [] {
      assert a + b == b;
    } else {
      KeysConcat(a[1..], b);
      assert (a + b)[1..] == a[1..] + b;
    }
  }

  lemma PollKeepsInv(s: World, page: seq<Notification>)
    requires Inv(s) && s.phase.Idle? && ServerKeepsUp(s, Poll(page))
    ensures Inv(Apply(s, Poll(page)))
  {
    var w := s.phase.w;
    var batch := Batch(w, page);
    if batch != [] {
      var v := MarkAll(w, batch);
      MarkingCoversKeys(w, batch);
      forall k: Key
        ensures k in Keys(batch) <==> k in Keys(page) && !Covers(w, k)
        ensures Covers(w, k) ==> Covers(v, k)
      {
        BatchKeys(w, page, k);
        if Covers(w, k) {
          MarkingKeepsCoverage(w, batch, k);
        }
      }
    }
  }

  lemma PrimingKeepsInv(s: World, page: seq<Notification>)
    requires Inv(s) && s.phase.Down? && Serves(s, EMPTY, page)
    ensures Inv(Apply(s, StartPriming(page)))
  {
    MarkingCoversKeys(EMPTY, page);
    forall k: Key ensures !Covers(EMPTY, k) { EmptyCoversNothing(k); }
  }

  lemma DispatchKeepsInv(s: World)
    requires Inv(s) && s.phase.Busy? && s.phase.pending != []
    ensures Inv(Apply(s, DispatchOne))
  {
    KeysConcat(s.dispatched, [s.phase.pending[0]]);
  }

  /** Every step keeps the invariant, crashes and failed saves included. */
  lemma StepKeepsInv(s: World, e: Event)
    requires Inv(s) && Enabled(s, e) && ServerKeepsUp(s, e)
    ensures Inv(Apply(s, e))
  {
    match e
    case StartPriming(page) => PrimingKeepsInv(s, page);
    case Poll(page) => PollKeepsInv(s, page);
    case DispatchOne => DispatchKeepsInv(s);
    case StartEmpty => forall k: Key ensures !Covers(EMPTY, k) { EmptyCoversNothing(k); }
    case _ =>
  }

  lemma {:induction false} RunKeepsInv(s: World, events: seq<Event>)
    requires Inv(s) && IsRun(s, events)
    ensures Inv(Execute(s, events))
    decreases |events|
  {
    if events != [] {
      StepKeepsInv(s, events[0]);
      RunKeepsInv(Apply(s, events[0]), events[1..]);
    }
  }

  // ---- what the invariant is for ----

  /** Crash safety: over any run, however it crashes, the stored watermark never covers an
      owed notification that was neither dispatched nor skipped on purpose. */
  lemma StoreNeverLosesAny(events: seq<Event>, k: Key)
    requires IsRun(INIT, events)
    ensures var s := Execute(INIT, events);
            s.stored.Some? && k in s.owed && Covers(s.stored.value, k) ==> k in Done(s)
  {
    RunKeepsInv(INIT, events);
  }

  /** The assumption on late arrivals is exactly what crash safety needs of a poll: news that
      the store already covers would be lost by a crash before it is dispatched. */
  lemma PollIsSafeIffNoLateNews(s: World, page: seq<Notification>)
    requires Inv(s) && s.phase.Idle?
    ensures StoreSafe(Apply(s, Poll(page))) <==> NoLateArrivals(s, Batch(s.phase.w, page))
  {
  }

  /** The loss is reachable: a stored watermark at 10, an unreadable store, and a page that
      now shows a notification of instant 5 for the first time. */
  lemma LateNewsCanBeLost()
    ensures var old10, late5 := Notification("a", 10, 0), Notification("b", 5, 0);
            var before := [StartPriming([old10]), Save(true), Crash, StartEmpty];
            && IsRun(INIT, before)
            && var s := Execute(INIT, before);
               s.phase.Idle? && Serves(s, s.phase.w, [old10, late5]) &&
               !StoreSafe(Apply(s, Poll([old10, late5])))
  {
    var old10, late5 := Notification("a", 10, 0), Notification("b", 5, 0);
    var s1 := Apply(INIT, StartPriming([old10]));
    var s2 := Apply(s1, Save(true));
    var s3 := Apply(s2, Crash);
    var s4 := Apply(s3, StartEmpty);
    assert MarkAll(EMPTY, [old10]) == MarkAll(Mark(EMPTY, old10), []);
    assert s4.stored == Some(Watermark(Some(10), {"a"}));
    var before := [StartPriming([old10]), Save(true), Crash, StartEmpty];
    assert before[1..] == [Save(true), Crash, StartEmpty];
    assert before[1..][1..] == [Crash, StartEmpty];
    assert before[1..][1..][1..] == [StartEmpty];
    assert IsTrace(s4, []) && IsTrace(s3, [StartEmpty]) && IsTrace(s2, [Crash, StartEmpty]);
    assert IsRun(s4, []) && IsRun(s3, [StartEmpty]) && IsRun(s2, [Crash, StartEmpty]);
    assert Execute(s3, [StartEmpty]) == s4;
    assert Execute(s2, [Crash, StartEmpty]) == s4;
    assert Execute(s1, [Save(true), Crash, StartEmpty]) == s4;
    var page := [old10, late5];
    BatchKeys(EMPTY, page, late5.Id());
    assert late5.Id() in Keys(page);
    var s5 := Apply(s4, Poll(page));
    assert late5.Id() in s5.owed && late5.Id() !in Done(s5);
  }

  /** At the end of every batch, before it is saved, nothing at all is owed any more. */
  lemma EveryBatchSettlesAllDebts(events: seq<Event>)
    requires IsRun(INIT, events)
    ensures var s := Execute(INIT, events);
            s.phase.Busy? && s.phase.pending == [] ==> s.owed == Done(s)
  {
    RunKeepsInv(INIT, events);
  }

  /** In a life that resumed from the store, a notification is dispatched a second time only
      if its last dispatch was never saved. */
  lemma RepeatsWereNeverSaved(events: seq<Event>)
    requires IsRun(INIT, events)
    ensures var s := Execute(INIT, events);
            s.resumed && Enabled(s, DispatchOne) && s.phase.pending[0].Id() in Keys(s.dispatched) ==>
              s.phase.pending[0].Id() in s.unsaved
  {
    RunKeepsInv(INIT, events);
    var s := Execute(INIT, events);
    if Enabled(s, DispatchOne) {
      assert s.phase.pending[0].Id() in Keys(s.phase.pending);
    }
  }
}
