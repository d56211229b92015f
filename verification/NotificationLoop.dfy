/** The loop as `src/bot.rs` writes it, in step with the machine. */
module NotificationLoop {
  import opened Wrappers
  import opened Dedup
  import opened DedupLaws
  import opened CrashMachine

  function Saved(stored: Option<DedupState>): Option<Watermark> {
    if stored.None? then None else Some(Watermark(stored.value.highWater, Listed(stored.value.seen)))
  }

  /** The answers of the outside world to one poll: what the fetch returned and whether a
      save, if one is attempted, succeeds. */
  datatype Tick = Tick(fetched: Result<seq<Notification>>, saveOk: bool)

  /** One life of the process, up to a shutdown. `readable` tells whether a stored value can be
      read, `first` is the fetch for priming. */
  datatype Life = Life(readable: bool, processBacklog: bool, first: Result<seq<Notification>>,
                       primeSaveOk: bool, ticks: seq<Tick>)

  /** Where a crash hits: between two polls, or in a poll once `done` notifications of its
      batch are dispatched. With `done` at least the length of the batch it hits before the save. */
  datatype CrashPoint = BetweenPolls | InPoll(page: seq<Notification>, done: nat)

  /** A life that ends in a crash. */
  datatype CutLife = CutLife(life: Life, crash: CrashPoint)

  function Dispatches(n: nat): (events: seq<Event>)
    ensures |events| == n
  {
    seq(n, _ => DispatchOne)
  }

  /** What one poll dispatches. */
  function TickBatch(w: Watermark, tick: Tick): seq<Notification> {
    if tick.fetched.Err? then [] else Batch(w, tick.fetched.value)
  }

  /** The pages that were fetched; a failed fetch is skipped. */
  function Pages(ticks: seq<Tick>): seq<seq<Notification>> {
    if ticks == [] then []
    else (if ticks[0].fetched.Ok? then [ticks[0].fetched.value] else []) + Pages(ticks[1..])
  }

  /** The machine steps of one poll by a process with watermark `w`. */
  function PollEvents(w: Watermark, tick: Tick): seq<Event> {
    if tick.fetched.Err? then []
    else
      var batch := Batch(w, tick.fetched.value);
      [Poll(tick.fetched.value)] + if batch == [] then [] else Dispatches(|batch|) + [Save(tick.saveOk)]
  }

  lemma PollEventsAre(w: Watermark, tick: Tick)
    requires tick.fetched.Ok?
    ensures var batch := Batch(w, tick.fetched.value);
            PollEvents(w, tick) ==
              [Poll(tick.fetched.value)] + Dispatches(|batch|) + if batch == [] then [] else [Save(tick.saveOk)]
  {
  }

  /** The machine steps of all the polls of a loop that starts with watermark `w`. */
  function LoopEvents(w: Watermark, ticks: seq<Tick>): seq<Event>
    decreases |ticks|
  {
    if ticks == [] then []
    else PollEvents(w, ticks[0]) + LoopEvents(MarkAll(w, TickBatch(w, ticks[0])), ticks[1..])
  }

  function StartEvents(stored: Option<Watermark>, life: Life): seq<Event> {
    if life.readable && stored.Some? then [StartRestored]
    else if !life.processBacklog && life.first.Ok? then [StartPriming(life.first.value), Save(life.primeSaveOk)]
    else [StartEmpty]
  }

  /** The watermark a life begins with. */
  function StartWatermark(stored: Option<Watermark>, life: Life): Watermark {
    if life.readable && stored.Some? then stored.value
    else if !life.processBacklog && life.first.Ok? then MarkAll(EMPTY, life.first.value)
    else EMPTY
  }

  /** The machine steps of a whole life. */
  function LifeEvents(stored: Option<Watermark>, life: Life): seq<Event> {
    StartEvents(stored, life) + LoopEvents(StartWatermark(stored, life), life.ticks)
  }

  function CrashEvents(w: Watermark, crash: CrashPoint): seq<Event> {
    match crash
    case BetweenPolls => [Crash]
    case InPoll(page, done) => [Poll(page)] + Dispatches(Least(done, |Batch(w, page)|)) + [Crash]
  }

  function Least(a: nat, b: nat): nat {
    if a < b then a else b
  }

  // ---- the world after a poll, a life, and many lives, in closed form ----

  function AfterDispatches(s: World, batch: seq<Notification>): World {
    s.(dispatched := s.dispatched + batch, unsaved := s.unsaved + Keys(batch))
  }

  function AfterTick(s: World, tick: Tick): World
    requires s.phase.Idle?
  {
    var batch := TickBatch(s.phase.w, tick);
    var w := MarkAll(s.phase.w, batch);
    if batch == [] then s
    else
      var t := AfterDispatches(s, batch).(phase := Idle(w), owed := s.owed + Keys(batch));
      if tick.saveOk then t.(stored := Some(w), unsaved := {}, resumed := true) else t
  }

  function AfterLoop(s: World, ticks: seq<Tick>): (t: World)
    requires s.phase.Idle?
    ensures t.phase.Idle?
    decreases |ticks|
  {
    if ticks == [] then s else AfterLoop(AfterTick(s, ticks[0]), ticks[1..])
  }

  function AfterStart(s: World, life: Life): (t: World)
    requires s.phase.Down?
    ensures t.phase == Idle(StartWatermark(s.stored, life))
  {
    if life.readable && s.stored.Some? then s.(phase := Idle(s.stored.value), resumed := true)
    else if !life.processBacklog && life.first.Ok? then
      var w := MarkAll(EMPTY, life.first.value);
      var keys := Keys(life.first.value);
      var t := s.(phase := Idle(w), resumed := false, owed := s.owed + keys, skipped := s.skipped + keys);
      if life.primeSaveOk then t.(stored := Some(w), unsaved := {}, resumed := true) else t
    else s.(phase := Idle(EMPTY), resumed := false)
  }

  function AfterLife(s: World, life: Life): (t: World)
    requires s.phase.Down?
    ensures t.phase.Idle?
  {
    AfterLoop(AfterStart(s, life), life.ticks)
  }

  function AfterCrash(s: World, crash: CrashPoint): (t: World)
    requires s.phase.Idle?
    ensures t.phase.Down?
  {
    match crash
    case BetweenPolls => s.(phase := Down)
    case InPoll(page, done) =>
      var batch := Batch(s.phase.w, page);
      AfterDispatches(s, batch[..Least(done, |batch|)]).(phase := Down, owed := s.owed + Keys(batch))
  }

  function AfterCutLife(s: World, cut: CutLife): (t: World)
    requires s.phase.Down?
    ensures t.phase.Down?
  {
    AfterCrash(AfterLife(s, cut.life), cut.crash)
  }

  function AfterLives(s: World, lives: seq<CutLife>): World
    requires s.phase.Down?
    decreases |lives|
  {
    if lives == [] then s else AfterLives(AfterCutLife(s, lives[0]), lives[1..])
  }

  function CutLifeEvents(s: World, cut: CutLife): seq<Event>
    requires s.phase.Down?
  {
    LifeEvents(s.stored, cut.life) + CrashEvents(AfterLife(s, cut.life).phase.w, cut.crash)
  }

  function LivesEvents(s: World, lives: seq<CutLife>): seq<Event>
    requires s.phase.Down?
    decreases |lives|
  {
    if lives == [] then [] else CutLifeEvents(s, lives[0]) + LivesEvents(AfterCutLife(s, lives[0]), lives[1..])
  }

  // ---- what is asked of the server's answers ----

  ghost predicate PageServed(s: World, page: seq<Notification>)
    requires s.phase.Idle?
  {
    ServerKeepsUp(s, Poll(page))
  }

  /** In every poll of a loop that starts at `s`, the page fetched holds what is still owed. */
  ghost predicate LoopServed(s: World, ticks: seq<Tick>)
    requires s.phase.Idle?
    decreases |ticks|
  {
    ticks == [] ||
    ((ticks[0].fetched.Ok? ==> PageServed(s, ticks[0].fetched.value)) &&
     LoopServed(AfterTick(s, ticks[0]), ticks[1..]))
  }

  ghost predicate LifeServed(s: World, life: Life)
    requires s.phase.Down?
  {
    && (StartEvents(s.stored, life)[0].StartPriming? ==> Serves(s, EMPTY, life.first.value))
    && LoopServed(AfterStart(s, life), life.ticks)
  }

  ghost predicate CutLifeServed(s: World, cut: CutLife)
    requires s.phase.Down?
  {
    && LifeServed(s, cut.life)
    && (cut.crash.InPoll? ==> PageServed(AfterLife(s, cut.life), cut.crash.page))
  }

  ghost predicate LivesServed(s: World, lives: seq<CutLife>)
    requires s.phase.Down?
    decreases |lives|
  {
    lives == [] ||
    (CutLifeServed(s, lives[0]) && LivesServed(AfterCutLife(s, lives[0]), lives[1..]))
  }

  // ---- a well served bot makes a run of the machine ----

  /** `events` is a run from `s` that ends at `t`. */
  ghost predicate RunsTo(s: World, events: seq<Event>, t: World) {
    IsRun(s, events) && Execute(s, events) == t
  }

  lemma OneStep(s: World, e: Event)
    requires Enabled(s, e) && ServerKeepsUp(s, e)
    ensures RunsTo(s, [e], Apply(s, e))
  {
    assert [e][1..] == [];
    assert IsTrace(Apply(s, e), []);
  }

  lemma {:induction false} RunsCompose(s: World, a: seq<Event>, t: World, b: seq<Event>, u: World)
    requires RunsTo(s, a, t) && RunsTo(t, b, u)
    ensures RunsTo(s, a + b, u)
    decreases |a|
  {
    if a == [] {
      assert a + b == b;
    } else {
      RunsCompose(Apply(s, a[0]), a[1..], t, b, u);
      assert (a + b)[1..] == a[1..] + b;
    }
  }

  lemma {:induction false} DispatchesRun(s: World, n: nat)
    requires s.phase.Busy? && n <= |s.phase.pending|
    ensures RunsTo(s, Dispatches(n), AfterDispatches(s, s.phase.pending[..n])
                                       .(phase := Busy(s.phase.w, s.phase.pending[n..])))
    decreases n
  {
    var pending := s.phase.pending;
    if n > 0 {
      var t := Apply(s, DispatchOne);
      DispatchesRun(t, n - 1);
      OneStep(s, DispatchOne);
      assert Dispatches(n) == [DispatchOne] + Dispatches(n - 1);
      assert pending[..n] == [pending[0]] + pending[1..][..n - 1];
      assert pending[1..][n - 1..] == pending[n..];
      assert s.dispatched + pending[..n] == t.dispatched + pending[1..][..n - 1];
      RunsCompose(s, [DispatchOne], t, Dispatches(n - 1),
                  AfterDispatches(s, pending[..n]).(phase := Busy(s.phase.w, pending[n..])));
    }
  }

  /** One poll with at least part of its batch dispatched. */
  lemma PollRuns(s: World, page: seq<Notification>, n: nat)
    requires s.phase.Idle? && PageServed(s, page) && n <= |Batch(s.phase.w, page)| && Batch(s.phase.w, page) != []
    ensures var batch := Batch(s.phase.w, page);
            RunsTo(s, [Poll(page)] + Dispatches(n),
                   AfterDispatches(s, batch[..n])
                     .(phase := Busy(MarkAll(s.phase.w, batch), batch[n..]), owed := s.owed + Keys(batch)))
  {
    var t := Apply(s, Poll(page));
    OneStep(s, Poll(page));
    DispatchesRun(t, n);
    RunsCompose(s, [Poll(page)], t, Dispatches(n), Execute(t, Dispatches(n)));
  }

  lemma TickRuns(s: World, tick: Tick)
    requires s.phase.Idle? && (tick.fetched.Ok? ==> PageServed(s, tick.fetched.value))
    ensures RunsTo(s, PollEvents(s.phase.w, tick), AfterTick(s, tick))
  {
    var batch := TickBatch(s.phase.w, tick);
    if tick.fetched.Err? {
      assert IsTrace(s, []);
    } else if batch == [] {
      OneStep(s, Poll(tick.fetched.value));
      assert PollEvents(s.phase.w, tick) == [Poll(tick.fetched.value)];
    } else {
      var polled := [Poll(tick.fetched.value)] + Dispatches(|batch|);
      PollRuns(s, tick.fetched.value, |batch|);
      assert batch[..|batch|] == batch;
      var t := Execute(s, polled);
      OneStep(t, Save(tick.saveOk));
      RunsCompose(s, polled, t, [Save(tick.saveOk)], AfterTick(s, tick));
      assert PollEvents(s.phase.w, tick) == polled + [Save(tick.saveOk)];
    }
  }

  lemma AfterTickIs(s: World, tick: Tick)
    requires s.phase.Idle?
    ensures var batch, t := TickBatch(s.phase.w, tick), AfterTick(s, tick);
            t.phase == Idle(MarkAll(s.phase.w, batch)) && t.dispatched == s.dispatched + batch
  {
  }

  lemma {:induction false} LoopRuns(s: World, ticks: seq<Tick>)
    requires s.phase.Idle? && LoopServed(s, ticks)
    ensures RunsTo(s, LoopEvents(s.phase.w, ticks), AfterLoop(s, ticks))
    decreases |ticks|
  {
    if ticks == [] {
      assert IsTrace(s, []);
    } else {
      var t := AfterTick(s, ticks[0]);
      TickRuns(s, ticks[0]);
      AfterTickIs(s, ticks[0]);
      LoopRuns(t, ticks[1..]);
      RunsCompose(s, PollEvents(s.phase.w, ticks[0]), t, LoopEvents(t.phase.w, ticks[1..]), AfterLoop(s, ticks));
    }
  }

  lemma StartRuns(s: World, life: Life)
    requires s.phase.Down? && LifeServed(s, life)
    ensures RunsTo(s, StartEvents(s.stored, life), AfterStart(s, life))
  {
    var first := StartEvents(s.stored, life)[0];
    OneStep(s, first);
    if first.StartPriming? {
      var t := Apply(s, first);
      OneStep(t, Save(life.primeSaveOk));
      RunsCompose(s, [first], t, [Save(life.primeSaveOk)], AfterStart(s, life));
    }
  }

  /** What a loop dispatches is what de-duplication lets through of the pages fetched. */
  lemma {:induction false} LoopDispatches(s: World, ticks: seq<Tick>)
    requires s.phase.Idle?
    ensures AfterLoop(s, ticks).dispatched == s.dispatched + Dispatched(s.phase.w, Pages(ticks))
    decreases |ticks|
  {
    if ticks != [] {
      var batch := TickBatch(s.phase.w, ticks[0]);
      var later := Dispatched(MarkAll(s.phase.w, batch), Pages(ticks[1..]));
      OneTickDispatches(s.phase.w, ticks);
      assert s.dispatched + (batch + later) == (s.dispatched + batch) + later;
      AfterTickIs(s, ticks[0]);
      LoopDispatches(AfterTick(s, ticks[0]), ticks[1..]);
    }
  }

  lemma OneTickDispatches(w: Watermark, ticks: seq<Tick>)
    requires ticks != []
    ensures var batch := TickBatch(w, ticks[0]);
            Dispatched(w, Pages(ticks)) == batch + Dispatched(MarkAll(w, batch), Pages(ticks[1..]))
  {
    var later := Pages(ticks[1..]);
    if ticks[0].fetched.Err? {
      assert Pages(ticks) == later;
    } else {
      assert Pages(ticks)[1..] == later;
    }
  }

  /** The steps of a well served life are a run of the machine. */
  lemma LifeRuns(s: World, life: Life)
    requires s.phase.Down? && LifeServed(s, life)
    ensures RunsTo(s, LifeEvents(s.stored, life), AfterLife(s, life))
  {
    StartRuns(s, life);
    var t := AfterStart(s, life);
    LoopRuns(t, life.ticks);
    RunsCompose(s, StartEvents(s.stored, life), t, LoopEvents(t.phase.w, life.ticks), AfterLife(s, life));
  }

  lemma CrashRuns(s: World, crash: CrashPoint)
    requires s.phase.Idle? && (crash.InPoll? ==> PageServed(s, crash.page))
    ensures RunsTo(s, CrashEvents(s.phase.w, crash), AfterCrash(s, crash))
  {
    match crash
    case BetweenPolls => OneStep(s, Crash);
    case InPoll(page, done) =>
      var batch := Batch(s.phase.w, page);
      var n := Least(done, |batch|);
      var polled := [Poll(page)] + Dispatches(n);
      if batch == [] {
        OneStep(s, Poll(page));
        assert polled == [Poll(page)];
      } else {
        PollRuns(s, page, n);
      }
      var t := Execute(s, polled);
      OneStep(t, Crash);
      RunsCompose(s, polled, t, [Crash], AfterCrash(s, crash));
  }

  lemma CutLifeRuns(s: World, cut: CutLife)
    requires s.phase.Down? && CutLifeServed(s, cut)
    ensures RunsTo(s, CutLifeEvents(s, cut), AfterCutLife(s, cut))
  {
    var t := AfterLife(s, cut.life);
    LifeRuns(s, cut.life);
    CrashRuns(t, cut.crash);
    RunsCompose(s, LifeEvents(s.stored, cut.life), t, CrashEvents(t.phase.w, cut.crash), AfterCutLife(s, cut));
  }

  lemma {:induction false} LivesRun(s: World, lives: seq<CutLife>)
    requires s.phase.Down? && LivesServed(s, lives)
    ensures RunsTo(s, LivesEvents(s, lives), AfterLives(s, lives))
    decreases |lives|
  {
    if lives == [] {
      assert IsTrace(s, []);
    } else {
      var t := AfterCutLife(s, lives[0]);
      CutLifeRuns(s, lives[0]);
      LivesRun(t, lives[1..]);
      RunsCompose(s, CutLifeEvents(s, lives[0]), t, LivesEvents(t, lives[1..]), AfterLives(s, lives));
    }
  }

  /** Crash safety from the server's answers alone: through any number of lives, each ended by
      a crash at any point, as long as the pages fetched hold what is still owed. */
  lemma ServedLivesKeepInv(s: World, lives: seq<CutLife>)
    requires Inv(s) && s.phase.Down? && LivesServed(s, lives)
    ensures Inv(AfterLives(s, lives))
  {
    LivesRun(s, lives);
    RunKeepsInv(s, LivesEvents(s, lives));
  }

  // ---- restarts ----

  lemma TickStaysIdle(s: World, tick: Tick)
    requires s.phase.Idle?
    ensures AfterTick(s, tick).phase.Idle?
  {
  }

  lemma LoopUnfolds(s: World, ticks: seq<Tick>, t: World)
    requires s.phase.Idle? && t.phase.Idle? && ticks != [] && t == AfterTick(s, ticks[0])
    ensures AfterLoop(s, ticks) == AfterLoop(t, ticks[1..])
  {
  }

  lemma {:induction false} LoopContinues(s: World, ticks: seq<Tick>, more: seq<Tick>)
    requires s.phase.Idle?
    ensures AfterLoop(s, ticks + more) == AfterLoop(AfterLoop(s, ticks), more)
    decreases |ticks|
  {
    if ticks == [] {
      assert ticks + more == more;
    } else {
      var all, t := ticks + more, AfterTick(s, ticks[0]);
      assert all[0] == ticks[0] && all[1..] == ticks[1..] + more;
      TickStaysIdle(s, ticks[0]);
      LoopUnfolds(s, all, t);
      LoopUnfolds(s, ticks, t);
      LoopContinues(t, ticks[1..], more);
    }
  }

  /** The store holds the watermark of the running process. */
  predicate Anchored(s: World) {
    s.phase.Idle? && s.resumed && s.stored == Some(s.phase.w)
  }

  predicate AllSaved(ticks: seq<Tick>) {
    forall k :: 0 <= k < |ticks| ==> ticks[k].saveOk
  }

  lemma {:induction false} LoopStaysAnchored(s: World, ticks: seq<Tick>)
    requires Anchored(s) && AllSaved(ticks)
    ensures Anchored(AfterLoop(s, ticks))
    decreases |ticks|
  {
    if ticks != [] {
      LoopStaysAnchored(AfterTick(s, ticks[0]), ticks[1..]);
    }
  }

  /** A restart continues exactly where the process left off: where the first life began from the
      store, or saved what it primed, and every save succeeded, a crash between polls followed by
      a life that can read the store leads to the world of one uninterrupted life. */
  lemma RestartIsInvisible(s: World, life: Life, next: Life)
    requires s.phase.Down? && AllSaved(life.ticks) && next.readable
    requires (life.readable && s.stored.Some?) ||
             (!life.processBacklog && life.first.Ok? && life.primeSaveOk)
    ensures AfterLife(AfterCutLife(s, CutLife(life, BetweenPolls)), next) ==
            AfterLife(s, life.(ticks := life.ticks + next.ticks))
  {
    var start, ran := AfterStart(s, life), AfterLife(s, life);
    LoopStaysAnchored(start, life.ticks);
    LoopContinues(start, life.ticks, next.ticks);
    assert AfterStart(AfterCrash(ran, BetweenPolls), next) == ran;
  }

  /** How a life begins decides what of the backlog it handles: resumed, just what the stored
      watermark does not cover is news; primed, nothing of the first page is ever dispatched,
      whatever is fetched later; otherwise everything is news. */
  lemma StartDecidesTheBacklog(stored: Option<Watermark>, life: Life, n: Notification)
    ensures var w := StartWatermark(stored, life);
            if life.readable && stored.Some? then IsNew(w, n) <==> IsNew(stored.value, n)
            else if !life.processBacklog && life.first.Ok? then
              n in life.first.value ==> n !in Dispatched(w, Pages(life.ticks))
            else IsNew(w, n)
  {
    var w := StartWatermark(stored, life);
    if !(life.readable && stored.Some?) && !life.processBacklog && life.first.Ok? {
      if n in life.first.value && n in Dispatched(w, Pages(life.ticks)) {
        MarkingCovers(EMPTY, life.first.value, n);
        DispatchedIsNew(w, Pages(life.ticks), n);
      }
    }
  }

  class Bot {
    /** Every notification handed to the handlers, in order. */
    var dispatched: seq<Notification>
    /** What the store holds under the watermark key. */
    var stored: Option<DedupState>
    /** The machine this bot follows. */
    ghost var world: World
    /** The machine steps taken so far. */
    ghost var history: seq<Event>

    ghost predicate Valid()
      reads this
    {
      && world.dispatched == dispatched && world.stored == Saved(stored)
      && IsTrace(INIT, history) && Execute(INIT, history) == world
    }

    /** A bot with an empty store, before its first life. */
    constructor ()
      ensures Valid() && world == INIT && history == []
    {
      dispatched, stored, world, history := [], None, INIT, [];
    }

    /** One machine step. */
    ghost method Take(e: Event)
      requires Enabled(world, e) && IsTrace(INIT, history) && Execute(INIT, history) == world
      modifies this`world, this`history
      ensures world == Apply(old(world), e) && history == old(history) + [e]
      ensures IsTrace(INIT, history) && Execute(INIT, history) == world
    {
      TraceExtends(INIT, history, e);
      world, history := Apply(world, e), history + [e];
    }

    /** `persist_watermark`: best effort. */
    method PersistWatermark(dedup: Dedup, saveOk: bool)
      requires Valid() && world.phase == Busy(dedup.State(), [])
      modifies this
      ensures Valid() && dispatched == old(dispatched)
      ensures world == Apply(old(world), Save(saveOk)) && history == old(history) + [Save(saveOk)]
      ensures Saved(stored) == if saveOk then Some(dedup.State()) else Saved(old(stored))
    {
      var json := dedup.ToJson();
      if saveOk {
        stored := Some(json);
      }
      Take(Save(saveOk));
    }

    /** `restore_watermark`: a missing, unreadable or corrupt value yields nothing. */
    method RestoreWatermark(readable: bool) returns (dedup: Option<Dedup>)
      requires Valid()
      ensures dedup.Some? <==> readable && stored.Some?
      ensures dedup.Some? ==> fresh(dedup.value) && Saved(stored) == Some(dedup.value.State())
    {
      if !readable || stored.None? {
        return None;
      }
      var d := new Dedup.FromJson(stored.value);
      return Some(d);
    }

    /** The dispatch loop of `poll_and_dispatch`, as far as the first `n` of the batch. */
    method DispatchBatch(batch: seq<Notification>, n: nat)
      requires Valid() && n <= |batch|
      requires batch != [] ==> world.phase.Busy? && world.phase.pending == batch
      modifies this`dispatched, this`world, this`history
      ensures Valid() && history == old(history) + Dispatches(n)
      ensures world == AfterDispatches(old(world), batch[..n])
                         .(phase := if batch == [] then old(world.phase) else Busy(old(world.phase.w), batch[n..]))
    {
      for k := 0 to n
        invariant Valid() && history == old(history) + Dispatches(k)
        invariant world == AfterDispatches(old(world), batch[..k])
                             .(phase := if batch == [] then old(world.phase) else Busy(old(world.phase.w), batch[k..]))
      {
        KeysConcat(batch[..k], [batch[k]]);
        assert batch[..k + 1] == batch[..k] + [batch[k]];
        dispatched := dispatched + [batch[k]];
        Take(DispatchOne);
      }
    }

    /** `poll_and_dispatch`. */
    method PollAndDispatch(dedup: Dedup, tick: Tick) returns (count: Result<nat>)
      requires Valid() && world.phase == Idle(dedup.State())
      modifies this, dedup
      ensures Valid() && world == AfterTick(old(world), tick)
      ensures history == old(history) + PollEvents(old(dedup.State()), tick)
      ensures var batch := TickBatch(old(dedup.State()), tick);
              && count == (if tick.fetched.Err? then Err else Ok(|batch|))
              && dispatched == old(dispatched) + batch
              && dedup.State() == MarkAll(old(dedup.State()), batch)
    {
      if tick.fetched.Err? {
        return Err;
      }
      ghost var s, before := world, history;
      var batch := dedup.TakeNewSorted(tick.fetched.value);
      ghost var polled := [Poll(tick.fetched.value)] + Dispatches(|batch|);
      PollEventsAre(s.phase.w, tick);
      assert batch[..|batch|] == batch;
      Take(Poll(tick.fetched.value));
      DispatchBatch(batch, |batch|);
      assert history == before + polled;
      if |batch| > 0 {
        PersistWatermark(dedup, tick.saveOk);
      }
      return Ok(|batch|);
    }

    /** The start of `run_notification_loop`: restore, or prime past the backlog, or begin
        with nothing. */
    method Start(life: Life) returns (dedup: Dedup)
      requires Valid() && world.phase.Down?
      modifies this
      ensures Valid() && fresh(dedup) && world == AfterStart(old(world), life)
      ensures dispatched == old(dispatched)
      ensures dedup.State() == StartWatermark(old(world.stored), life)
      ensures history == old(history) + StartEvents(old(world.stored), life)
    {
      var restored := RestoreWatermark(life.readable);
      if restored.Some? {
        dedup := restored.value;
        Take(StartRestored);
        return;
      }
      dedup := new Dedup();
      if !life.processBacklog && life.first.Ok? {
        dedup.Prime(life.first.value);
        Take(StartPriming(life.first.value));
        PersistWatermark(dedup, life.primeSaveOk);
      } else {
        Take(StartEmpty);
      }
    }

    /** The ticks of `run_notification_loop`: a failed fetch costs one tick and nothing else. */
    method PollEachTick(dedup: Dedup, ticks: seq<Tick>)
      requires Valid() && world.phase == Idle(dedup.State())
      modifies this, dedup
      ensures Valid() && world == AfterLoop(old(world), ticks) && world.phase == Idle(dedup.State())
      ensures history == old(history) + LoopEvents(old(dedup.State()), ticks)
      ensures dispatched == old(dispatched) + Dispatched(old(dedup.State()), Pages(ticks))
    {
      LoopDispatches(world, ticks);
      ghost var left := LoopEvents(dedup.State(), ticks);
      ghost var all := history + left;
      for k := 0 to |ticks|
        invariant Valid() && world.phase == Idle(dedup.State())
        invariant AfterLoop(world, ticks[k..]) == AfterLoop(old(world), ticks)
        invariant left == LoopEvents(dedup.State(), ticks[k..]) && history + left == all
      {
        left := OneTick(dedup, ticks[k..], left, all);
        assert ticks[k..][1..] == ticks[k + 1..];
      }
    }

    /** One turn of the loop; `left` are the machine steps still to come. */
    method OneTick(dedup: Dedup, ticks: seq<Tick>, ghost left: seq<Event>, ghost all: seq<Event>)
      returns (ghost later: seq<Event>)
      requires Valid() && world.phase == Idle(dedup.State()) && ticks != []
      requires left == LoopEvents(dedup.State(), ticks) && history + left == all
      modifies this, dedup
      ensures Valid() && world == AfterTick(old(world), ticks[0]) && world.phase == Idle(dedup.State())
      ensures later == LoopEvents(dedup.State(), ticks[1..]) && history + later == all
    {
      AfterTickIs(world, ticks[0]);
      ghost var w := MarkAll(dedup.State(), TickBatch(dedup.State(), ticks[0]));
      later := LoopEvents(w, ticks[1..]);
      assert all == (history + PollEvents(dedup.State(), ticks[0])) + later;
      var _ := PollAndDispatch(dedup, ticks[0]);
    }

    /** `run_notification_loop`, for a run of ticks that ends in a shutdown. */
    method RunNotificationLoop(life: Life) returns (dedup: Dedup)
      requires Valid() && world.phase.Down?
      modifies this
      ensures Valid() && fresh(dedup) && world.phase == Idle(dedup.State())
      ensures world == AfterLife(old(world), life)
      ensures history == old(history) + LifeEvents(old(world.stored), life)
      ensures dispatched == old(dispatched) +
                Dispatched(StartWatermark(old(world.stored), life), Pages(life.ticks))
    {
      ghost var before, start := history, StartEvents(world.stored, life);
      ghost var polls := LoopEvents(StartWatermark(world.stored, life), life.ticks);
      assert before + LifeEvents(world.stored, life) == (before + start) + polls;
      dedup := Start(life);
      PollEachTick(dedup, life.ticks);
    }

    /** The process dies between two polls, or in a poll before the batch is done or saved. */
    method CrashAt(dedup: Dedup, crash: CrashPoint)
      requires Valid() && world.phase == Idle(dedup.State())
      modifies this, dedup
      ensures Valid() && world == AfterCrash(old(world), crash)
      ensures history == old(history) + CrashEvents(old(dedup.State()), crash)
    {
      ghost var before := history;
      match crash {
        case BetweenPolls =>
        case InPoll(page, done) =>
          var batch := dedup.TakeNewSorted(page);
          ghost var polled := [Poll(page)] + Dispatches(Least(done, |batch|));
          Take(Poll(page));
          DispatchBatch(batch, Least(done, |batch|));
          assert history == before + polled;
      }
      Take(Crash);
    }

    /** A whole life, up to its crash. */
    method RunCutLife(cut: CutLife)
      requires Valid() && world.phase.Down?
      modifies this
      ensures Valid() && world == AfterCutLife(old(world), cut)
      ensures history == old(history) + CutLifeEvents(old(world), cut)
    {
      ghost var before, first := history, LifeEvents(world.stored, cut.life);
      ghost var last := CrashEvents(AfterLife(world, cut.life).phase.w, cut.crash);
      assert before + CutLifeEvents(world, cut) == (before + first) + last;
      var dedup := RunNotificationLoop(cut.life);
      CrashAt(dedup, cut.crash);
    }

    /** One life after the other, each cut short by a crash; only the store survives. */
    method RunLives(lives: seq<CutLife>)
      requires Valid() && world.phase.Down?
      modifies this
      ensures Valid() && world == AfterLives(old(world), lives)
      ensures history == old(history) + LivesEvents(old(world), lives)
      decreases |lives|
    {
      if lives != [] {
        ghost var before, first := history, CutLifeEvents(world, lives[0]);
        ghost var later := LivesEvents(AfterCutLife(world, lives[0]), lives[1..]);
        assert before + LivesEvents(world, lives) == (before + first) + later;
        RunCutLife(lives[0]);
        RunLives(lives[1..]);
      }
    }

    /** Through all of them the bot is crash-safe, if the server keeps its side. */
    method RunLivesSafely(lives: seq<CutLife>)
      requires Valid() && world.phase.Down? && Inv(world) && LivesServed(world, lives)
      modifies this
      ensures Valid() && Inv(world)
      ensures world == AfterLives(old(world), lives) && history == old(history) + LivesEvents(old(world), lives)
    {
      ServedLivesKeepInv(world, lives);
      RunLives(lives);
    }
  }
}
