/** When resuming after disconnects is gap-free: for which logs and rewinds the handled events
    are one interval at every moment of every run. */
module GapFreeResume {
  import opened Wrappers
  import opened Jetstream

  /** What is handled is one interval: from any handled event on, nothing that parses is missing
      up to the furthest received. */
  ghost predicate OneInterval(log: seq<Event>, s: Stream) {
    s.first.Some? ==> s.reach <= |log| && GaplessUpTo(log, s, s.reach)
  }

  ghost predicate AlwaysOneInterval(log: seq<Event>, rewind: nat, from: Option<nat>) {
    forall steps :: IsTrace(log, rewind, Init(from), steps) ==>
      OneInterval(log, Execute(log, rewind, Init(from), steps))
  }

  // ---- the condition on the log ----

  predicate Parses(log: seq<Event>, i: nat) {
    i < |log| && log[i].parses
  }

  /** Event `i` is replayed after event `k` was the last one handled. */
  predicate WithinRewind(log: seq<Event>, rewind: nat, i: nat, k: nat)
    requires i < |log| && k < |log|
  {
    log[i].time + rewind >= log[k].time
  }

  /** Event `f` can be the first one handled: any that parses when the stream starts at the live
      end, the first that parses from the configured cursor on otherwise. */
  ghost predicate CanBeFirst(log: seq<Event>, rewind: nat, from: Option<nat>, f: nat) {
    && Parses(log, f)
    && (from.Some? ==>
          && StartAt(log, Rewound(from.value, rewind)) <= f
          && forall i :: StartAt(log, Rewound(from.value, rewind)) <= i < f ==> !log[i].parses)
  }

  /** Replays can work their way down from `f` to `k`: each event that parses between them has
      one before it, not before `k`, within the rewind. */
  ghost predicate LinkedDown(log: seq<Event>, rewind: nat, k: nat, f: nat) {
    && k <= f && Parses(log, k) && Parses(log, f)
    && forall m :: k < m <= f && log[m].parses ==>
         exists p :: k <= p < m && log[p].parses && WithinRewind(log, rewind, p, m)
  }

  /** No replay can begin two events that parse below the lowest handled one. */
  ghost predicate ReplaysStayClose(log: seq<Event>, rewind: nat, from: Option<nat>) {
    forall f: nat, k: nat, i: nat, j: nat ::
      (CanBeFirst(log, rewind, from, f) && LinkedDown(log, rewind, k, f) &&
       i < j < k && Parses(log, i) && Parses(log, j)) ==> !WithinRewind(log, rewind, i, k)
  }

  // ---- the condition suffices ----

  /** On top of the machine's own invariant: the lowest handled event, and how far below it the
      present connection can still begin. */
  ghost predicate CloseInv(log: seq<Event>, rewind: nat, from: Option<nat>, s: Stream, low: nat) {
    && Inv(log, rewind, s) && OneInterval(log, s)
    && (s.first.None? ==>
          && s.cursor == from
          && (s.connected && from.Some? ==>
                var start := StartAt(log, Rewound(from.value, rewind));
                start <= s.pos && forall i :: start <= i < s.pos ==> !log[i].parses))
    && (s.first.Some? ==>
          && CanBeFirst(log, rewind, from, s.first.value)
          && low in s.handled && (forall h :: h in s.handled ==> low <= h)
          && LinkedDown(log, rewind, low, s.first.value)
          && forall i :: s.pos <= i < low && log[i].parses ==> WithinRewind(log, rewind, i, low))
  }

  lemma FirstReceiveStaysClose(log: seq<Event>, rewind: nat, from: Option<nat>, s: Stream, low: nat)
    requires TimeOrdered(log) && CloseInv(log, rewind, from, s, low)
    requires s.first.None? && Enabled(log, s, Receive) && log[s.pos].parses
    ensures CloseInv(log, rewind, from, Apply(log, rewind, s, Receive), s.pos)
  {
    ReceiveKeepsInv(log, rewind, s);
  }

  lemma LinkExtends(log: seq<Event>, rewind: nat, p: nat, low: nat, f: nat)
    requires LinkedDown(log, rewind, low, f) && p < low && Parses(log, p)
    requires WithinRewind(log, rewind, p, low) && forall i :: p < i < low ==> !log[i].parses
    ensures LinkedDown(log, rewind, p, f)
  {
  }

  lemma NoneBetween(log: seq<Event>, rewind: nat, from: Option<nat>, f: nat, p: nat, low: nat)
    requires ReplaysStayClose(log, rewind, from) && CanBeFirst(log, rewind, from, f) && LinkedDown(log, rewind, low, f)
    requires p < low && Parses(log, p) && WithinRewind(log, rewind, p, low)
    ensures forall i :: p < i < low ==> !log[i].parses
  {
    forall i | p < i < low
      ensures !log[i].parses
    {
      assert !Parses(log, i);
    }
  }

  lemma ReplayReceiveLeavesNoGap(log: seq<Event>, rewind: nat, from: Option<nat>, s: Stream, low: nat)
    requires ReplaysStayClose(log, rewind, from) && CloseInv(log, rewind, from, s, low)
    requires s.first.Some? && Enabled(log, s, Receive) && log[s.pos].parses && s.pos < low
    ensures OneInterval(log, Apply(log, rewind, s, Receive))
  {
    var s' := Apply(log, rewind, s, Receive);
    NoneBetween(log, rewind, from, s.first.value, s.pos, low);
    assert AllHandled(log, s, low, s.reach);
    ReplayHandles(log, s, s', s.pos, low);
  }

  lemma ReplayReceiveStaysClose(log: seq<Event>, rewind: nat, from: Option<nat>, s: Stream, low: nat)
    requires TimeOrdered(log) && ReplaysStayClose(log, rewind, from) && CloseInv(log, rewind, from, s, low)
    requires s.first.Some? && Enabled(log, s, Receive) && log[s.pos].parses && s.pos < low
    ensures CloseInv(log, rewind, from, Apply(log, rewind, s, Receive), s.pos)
  {
    ReceiveKeepsInv(log, rewind, s);
    ReplayReceiveLeavesNoGap(log, rewind, from, s, low);
    NoneBetween(log, rewind, from, s.first.value, s.pos, low);
    LinkExtends(log, rewind, s.pos, low, s.first.value);
  }

  /** One more below the lowest, with nothing that parses between, leaves no gap. */
  lemma ReplayHandles(log: seq<Event>, s: Stream, s': Stream, p: nat, low: nat)
    requires s'.reach == s.reach <= |log| && s'.handled == s.handled + {p} && p < low <= s.reach
    requires AllHandled(log, s, low, s.reach) && forall i :: p < i < low ==> !log[i].parses
    requires forall h :: h in s.handled ==> h >= low
    ensures forall h :: h in s'.handled ==> AllHandled(log, s', h, s'.reach)
  {
  }

  lemma LaterReceiveStaysClose(log: seq<Event>, rewind: nat, from: Option<nat>, s: Stream, low: nat)
    requires TimeOrdered(log) && CloseInv(log, rewind, from, s, low)
    requires Enabled(log, s, Receive) && (s.first.Some? && log[s.pos].parses ==> s.pos >= low)
    requires s.first.None? ==> !log[s.pos].parses
    ensures CloseInv(log, rewind, from, Apply(log, rewind, s, Receive), low)
  {
    var p, s' := s.pos, Apply(log, rewind, s, Receive);
    ReceiveKeepsInv(log, rewind, s);
    if s.first.Some? {
      assert AllHandled(log, s, low, s.reach);
      forall h | h in s'.handled
        ensures AllHandled(log, s', h, s'.reach)
      {
        if h in s.handled {
          assert AllHandled(log, s, h, s.reach);
        }
      }
    }
  }

  lemma SameHandledSameInterval(log: seq<Event>, s: Stream, s': Stream)
    requires OneInterval(log, s)
    requires s'.handled == s.handled && s'.reach == s.reach && s'.first == s.first
    ensures OneInterval(log, s')
  {
    if s.first.Some? {
      forall h | h in s'.handled
        ensures AllHandled(log, s', h, s'.reach)
      {
        assert AllHandled(log, s, h, s.reach);
      }
    }
  }

  lemma ConnectStaysClose(log: seq<Event>, rewind: nat, from: Option<nat>, s: Stream, low: nat, tail: nat)
    requires TimeOrdered(log) && CloseInv(log, rewind, from, s, low) && Enabled(log, s, Connect(tail))
    ensures CloseInv(log, rewind, from, Apply(log, rewind, s, Connect(tail)), low)
  {
    var s' := Apply(log, rewind, s, Connect(tail));
    StepKeepsInv(log, rewind, s, Connect(tail));
    SameHandledSameInterval(log, s, s');
    if s.first.Some? {
      ReplayIsWithinRewind(log, rewind, s.last, low);
    }
  }

  lemma ReplayIsWithinRewind(log: seq<Event>, rewind: nat, last: nat, low: nat)
    requires TimeOrdered(log) && low <= last < |log|
    ensures forall i :: StartAt(log, Rewound(log[last].time, rewind)) <= i < low ==> WithinRewind(log, rewind, i, low)
  {
    forall i | StartAt(log, Rewound(log[last].time, rewind)) <= i < low
      ensures WithinRewind(log, rewind, i, low)
    {
      ReplaysTheRewindWindow(log, log[last].time, rewind, i);
    }
  }

  lemma DisconnectStaysClose(log: seq<Event>, rewind: nat, from: Option<nat>, s: Stream, low: nat)
    requires TimeOrdered(log) && CloseInv(log, rewind, from, s, low)
    ensures CloseInv(log, rewind, from, Apply(log, rewind, s, Disconnect), low)
  {
    var s' := Apply(log, rewind, s, Disconnect);
    StepKeepsInv(log, rewind, s, Disconnect);
    SameHandledSameInterval(log, s, s');
  }

  lemma StepStaysClose(log: seq<Event>, rewind: nat, from: Option<nat>, s: Stream, low: nat, e: Step)
    returns (low': nat)
    requires TimeOrdered(log) && ReplaysStayClose(log, rewind, from)
    requires CloseInv(log, rewind, from, s, low) && Enabled(log, s, e)
    ensures CloseInv(log, rewind, from, Apply(log, rewind, s, e), low')
  {
    low' := low;
    match e
    case Connect(tail) => ConnectStaysClose(log, rewind, from, s, low, tail);
    case Disconnect =>
      DisconnectStaysClose(log, rewind, from, s, low);
    case Receive =>
      if log[s.pos].parses && s.first.None? {
        FirstReceiveStaysClose(log, rewind, from, s, low);
        low' := s.pos;
      } else if log[s.pos].parses && s.pos < low {
        ReplayReceiveStaysClose(log, rewind, from, s, low);
        low' := s.pos;
      } else {
        LaterReceiveStaysClose(log, rewind, from, s, low);
      }
  }

  lemma {:induction false} RunStaysClose(log: seq<Event>, rewind: nat, from: Option<nat>, s: Stream, low: nat,
                                         steps: seq<Step>)
    requires TimeOrdered(log) && ReplaysStayClose(log, rewind, from)
    requires CloseInv(log, rewind, from, s, low) && IsTrace(log, rewind, s, steps)
    ensures OneInterval(log, Execute(log, rewind, s, steps))
    decreases |steps|
  {
    if steps != [] {
      var low' := StepStaysClose(log, rewind, from, s, low, steps[0]);
      RunStaysClose(log, rewind, from, Apply(log, rewind, s, steps[0]), low', steps[1..]);
    }
  }

  // ---- the condition is needed ----

  /** A run that has worked its way down to `m`: event `m` is the last handled and the lowest. */
  ghost predicate DownTo(log: seq<Event>, rewind: nat, from: Option<nat>, steps: seq<Step>, m: nat) {
    IsTrace(log, rewind, Init(from), steps) &&
    var s := Execute(log, rewind, Init(from), steps);
    && m < |log| && s.first.Some? && s.last == m && m in s.handled
    && (forall h :: h in s.handled ==> m <= h)
  }

  /** A run that has left a gap. */
  ghost predicate LeavesGap(log: seq<Event>, rewind: nat, from: Option<nat>, steps: seq<Step>) {
    IsTrace(log, rewind, Init(from), steps) && !OneInterval(log, Execute(log, rewind, Init(from), steps))
  }

  lemma OneMoreStep(log: seq<Event>, rewind: nat, from: Option<nat>, steps: seq<Step>, e: Step)
    returns (longer: seq<Step>)
    requires IsTrace(log, rewind, Init(from), steps)
    requires Enabled(log, Execute(log, rewind, Init(from), steps), e)
    ensures longer == steps + [e] && IsTrace(log, rewind, Init(from), longer)
    ensures Execute(log, rewind, Init(from), longer) ==
            Apply(log, rewind, Execute(log, rewind, Init(from), steps), e)
  {
    TraceExtends(log, rewind, Init(from), steps, e);
    longer := steps + [e];
  }

  /** Receiving up to the first event that parses at or after the present position. */
  lemma ReceiveFirst(log: seq<Event>, rewind: nat, from: Option<nat>, steps: seq<Step>, bound: nat)
    returns (longer: seq<Step>, q: nat)
    requires IsTrace(log, rewind, Init(from), steps)
    requires var s := Execute(log, rewind, Init(from), steps);
             s.connected && s.pos <= bound && Parses(log, bound)
    ensures IsTrace(log, rewind, Init(from), longer)
    ensures var s, s' := Execute(log, rewind, Init(from), steps), Execute(log, rewind, Init(from), longer);
            && s.pos <= q <= bound && Parses(log, q) && (forall i :: s.pos <= i < q ==> !log[i].parses)
            && s'.handled == s.handled + {q} && s'.last == q && s'.first.Some? && NeverBack(s, s')
            && s'.first == if s.first.Some? then s.first else Some(q)
  {
    longer := steps;
    ghost var s := Execute(log, rewind, Init(from), steps);
    q := s.pos;
    while !log[q].parses
      invariant s.pos <= q <= bound && (forall i :: s.pos <= i < q ==> !log[i].parses)
      invariant IsTrace(log, rewind, Init(from), longer)
      invariant var s' := Execute(log, rewind, Init(from), longer);
                s'.connected && s'.pos == q && s'.handled == s.handled && s'.first == s.first && s'.reach >= s.reach
      decreases bound - q
    {
      longer := OneMoreStep(log, rewind, from, longer, Receive);
      q := q + 1;
    }
    longer := OneMoreStep(log, rewind, from, longer, Receive);
  }

  /** Disconnect, connect again, and receive the first event that parses: it is at or before
      any event within the rewind of the last one. */
  lemma Replay(log: seq<Event>, rewind: nat, from: Option<nat>, steps: seq<Step>, m: nat, i: nat)
    returns (longer: seq<Step>, q: nat)
    requires TimeOrdered(log) && DownTo(log, rewind, from, steps, m)
    requires i < m && Parses(log, i) && WithinRewind(log, rewind, i, m)
    ensures IsTrace(log, rewind, Init(from), longer) && q <= i && Parses(log, q)
    ensures var s, s' := Execute(log, rewind, Init(from), steps), Execute(log, rewind, Init(from), longer);
            s'.handled == s.handled + {q} && s'.last == q && s'.first == s.first && NeverBack(s, s')
  {
    RunKeepsInv(log, rewind, Init(from), steps);
    ReplaysTheRewindWindow(log, log[m].time, rewind, i);
    longer := OneMoreStep(log, rewind, from, steps, Disconnect);
    longer := OneMoreStep(log, rewind, from, longer, Connect(0));
    longer, q := ReceiveFirst(log, rewind, from, longer, i);
  }

  /** With an event left out between a handled one and the lowest handled before, there is a gap. */
  lemma SkippedMeansGap(log: seq<Event>, rewind: nat, s: Stream, q: nat, j: nat, m: nat)
    requires Inv(log, rewind, s) && s.first.Some? && q in s.handled && m in s.handled
    requires q < j < m && log[j].parses && j !in s.handled
    ensures !OneInterval(log, s)
  {
    assert m < s.reach <= |log| && !AllHandled(log, s, q, s.reach);
  }

  lemma StartAtFirst(log: seq<Event>, rewind: nat, from: Option<nat>, f: nat) returns (steps: seq<Step>)
    requires TimeOrdered(log) && CanBeFirst(log, rewind, from, f)
    ensures DownTo(log, rewind, from, steps, f)
  {
    var q;
    steps := OneMoreStep(log, rewind, from, [], Connect(f));
    steps, q := ReceiveFirst(log, rewind, from, steps, f);
    RunKeepsInv(log, rewind, Init(from), steps);
  }

  /** A replay that begins at or below `i` and is cut off after one event leaves out `j`. */
  lemma ReplaySkips(log: seq<Event>, rewind: nat, from: Option<nat>, steps: seq<Step>, k: nat, i: nat, j: nat)
    returns (longer: seq<Step>)
    requires TimeOrdered(log) && DownTo(log, rewind, from, steps, k)
    requires i < j < k && Parses(log, i) && Parses(log, j) && WithinRewind(log, rewind, i, k)
    ensures LeavesGap(log, rewind, from, longer)
  {
    var q;
    longer, q := Replay(log, rewind, from, steps, k, i);
    RunKeepsInv(log, rewind, Init(from), longer);
    SkippedMeansGap(log, rewind, Execute(log, rewind, Init(from), longer), q, j, k);
  }

  /** A replay that can begin at `m`, the next event below, takes it or leaves a gap. */
  lemma ReplayTakesNext(log: seq<Event>, rewind: nat, from: Option<nat>, steps: seq<Step>, next: nat, m: nat)
    returns (longer: seq<Step>, gap: bool)
    requires TimeOrdered(log) && DownTo(log, rewind, from, steps, next)
    requires m < next && Parses(log, m) && WithinRewind(log, rewind, m, next)
    ensures if gap then LeavesGap(log, rewind, from, longer) else DownTo(log, rewind, from, longer, m)
  {
    var q;
    longer, q := Replay(log, rewind, from, steps, next, m);
    gap := q < m;
    if gap {
      RunKeepsInv(log, rewind, Init(from), longer);
      SkippedMeansGap(log, rewind, Execute(log, rewind, Init(from), longer), q, m, next);
    }
  }

  /** Replays can be made to work their way down from the first event to any that is linked to
      it, unless they leave a gap before. */
  lemma {:induction false} WorkDown(log: seq<Event>, rewind: nat, from: Option<nat>, f: nat, m: nat)
    returns (steps: seq<Step>, gap: bool)
    requires TimeOrdered(log) && CanBeFirst(log, rewind, from, f) && LinkedDown(log, rewind, m, f)
    ensures if gap then LeavesGap(log, rewind, from, steps) else DownTo(log, rewind, from, steps, m)
    decreases f - m
  {
    if m == f {
      steps := StartAtFirst(log, rewind, from, f);
      gap := false;
    } else {
      var next := NextParsing(log, m, f);
      LinkShortens(log, rewind, m, next, f);
      steps, gap := WorkDown(log, rewind, from, f, next);
      if !gap {
        steps, gap := ReplayTakesNext(log, rewind, from, steps, next, m);
      }
    }
  }

  lemma NextParsing(log: seq<Event>, m: nat, f: nat) returns (next: nat)
    requires m < f && Parses(log, f)
    ensures m < next <= f && log[next].parses && forall i :: m < i < next ==> !log[i].parses
  {
    next := m + 1;
    while !log[next].parses
      invariant m < next <= f && forall i :: m < i < next ==> !log[i].parses
      decreases f - next
    {
      next := next + 1;
    }
  }

  lemma LinkNotBefore(log: seq<Event>, rewind: nat, m: nat, next: nat, p: nat, k: nat)
    requires TimeOrdered(log) && m < next < k < |log| && m <= p < k
    requires log[p].parses && log[next].parses && forall i :: m < i < next ==> !log[i].parses
    requires WithinRewind(log, rewind, p, k)
    ensures var q := if p < next then next else p;
            next <= q < k && log[q].parses && WithinRewind(log, rewind, q, k)
  {
    if p < next {
      assert log[m].time <= log[next].time;
    }
  }

  lemma LinkBefore(log: seq<Event>, rewind: nat, m: nat, f: nat, k: nat) returns (p: nat)
    requires LinkedDown(log, rewind, m, f) && m < k <= f && log[k].parses
    ensures m <= p < k && log[p].parses && WithinRewind(log, rewind, p, k)
  {
    p :| m <= p < k && log[p].parses && WithinRewind(log, rewind, p, k);
  }

  lemma LinkShortens(log: seq<Event>, rewind: nat, m: nat, next: nat, f: nat)
    requires TimeOrdered(log) && LinkedDown(log, rewind, m, f)
    requires m < next <= f && log[next].parses && forall i :: m < i < next ==> !log[i].parses
    ensures LinkedDown(log, rewind, next, f) && WithinRewind(log, rewind, m, next)
  {
    forall k | next < k <= f && log[k].parses
      ensures exists p :: next <= p < k && log[p].parses && WithinRewind(log, rewind, p, k)
    {
      var p := LinkBefore(log, rewind, m, f, k);
      LinkNotBefore(log, rewind, m, next, p, k);
    }
    var p := LinkBefore(log, rewind, m, f, next);
    assert p == m;
  }

  /** A replay that can begin two events below the lowest handled one can be made to leave a gap. */
  lemma FarReplayLeavesGap(log: seq<Event>, rewind: nat, from: Option<nat>) returns (steps: seq<Step>)
    requires TimeOrdered(log) && !ReplaysStayClose(log, rewind, from)
    ensures LeavesGap(log, rewind, from, steps)
  {
    var f: nat, k: nat, i: nat, j: nat :|
      CanBeFirst(log, rewind, from, f) && LinkedDown(log, rewind, k, f) &&
      i < j < k && Parses(log, i) && Parses(log, j) && WithinRewind(log, rewind, i, k);
    var gap;
    steps, gap := WorkDown(log, rewind, from, f, k);
    if !gap {
      steps := ReplaySkips(log, rewind, from, steps, k, i, j);
    }
  }

  // ---- the theorem ----

  /** Over every run of connections, replays cut off anywhere included, the handled events are
      one interval at every moment, if and only if no replay can begin two events that parse
      below the lowest handled one. */
  lemma OneIntervalIffReplaysStayClose(log: seq<Event>, rewind: nat, from: Option<nat>)
    requires TimeOrdered(log)
    ensures AlwaysOneInterval(log, rewind, from) <==> ReplaysStayClose(log, rewind, from)
  {
    if ReplaysStayClose(log, rewind, from) {
      forall steps | IsTrace(log, rewind, Init(from), steps)
        ensures OneInterval(log, Execute(log, rewind, Init(from), steps))
      {
        RunStaysClose(log, rewind, from, Init(from), 0, steps);
      }
    } else {
      var steps := FarReplayLeavesGap(log, rewind, from);
      assert !OneInterval(log, Execute(log, rewind, Init(from), steps));
    }
  }

  /** For a stream that starts at the live end this says: no three events that parse lie within
      one rewind of each other. */
  lemma LiveStreamOneIntervalIff(log: seq<Event>, rewind: nat)
    requires TimeOrdered(log)
    ensures AlwaysOneInterval(log, rewind, None) <==>
            forall i: nat, j: nat, k: nat ::
              i < j < k && Parses(log, i) && Parses(log, j) && Parses(log, k) ==> !WithinRewind(log, rewind, i, k)
  {
    OneIntervalIffReplaysStayClose(log, rewind, None);
    assert forall k: nat :: Parses(log, k) ==> CanBeFirst(log, rewind, None, k) && LinkedDown(log, rewind, k, k);
  }
}
