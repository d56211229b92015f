/** Resuming the event stream of `src/stream.rs` after disconnects. Events are named by their
    position in the server's log. */
module Jetstream {
  import opened Wrappers

  /** A logged event; one that does not parse is skipped without moving the cursor. */
  datatype Event = Event(time: nat, parses: bool)

  ghost predicate TimeOrdered(log: seq<Event>) {
    forall i, j :: 0 <= i < j < |log| ==> log[i].time <= log[j].time
  }

  /** `saturating_sub`, as `build_url` rewinds a cursor. */
  function Rewound(cursor: nat, rewind: nat): nat {
    if cursor < rewind then 0 else cursor - rewind
  }

  /** The server's side of a cursor: replay starts at the first event not older than it. */
  function StartAt(log: seq<Event>, cursor: nat): (s: nat)
    ensures s <= |log|
  {
    if log == [] || log[0].time >= cursor then 0 else 1 + StartAt(log[1..], cursor)
  }

  // ---- the machine ----

  /** `pos` is the next position to be received, or the one the last connection got to.
      `first` is the first event ever handled, `reach` is past the furthest received since. */
  datatype Stream = Stream(
    connected: bool,
    cursor: Option<nat>,
    pos: nat,
    handled: set<nat>,
    first: Option<nat>,
    last: nat,
    reach: nat)

  function Init(cursor: Option<nat>): Stream {
    Stream(false, cursor, 0, {}, None, 0, 0)
  }

  datatype Step =
    | Connect(tail: nat)   // `tail` is the live end of the log
    | Receive
    | Disconnect

  predicate Enabled(log: seq<Event>, s: Stream, e: Step) {
    match e
    case Connect(tail) => !s.connected && tail <= |log|
    case Receive => s.connected && s.pos < |log|
    case Disconnect => true
  }

  function Apply(log: seq<Event>, rewind: nat, s: Stream, e: Step): Stream
    requires Enabled(log, s, e)
  {
    match e
    case Connect(tail) =>
      s.(connected := true,
         pos := if s.cursor.None? then tail else StartAt(log, Rewound(s.cursor.value, rewind)))
    case Receive =>
      var p := s.pos;
      var s' := s.(pos := p + 1, reach := if p + 1 > s.reach then p + 1 else s.reach);
      if log[p].parses then
        s'.(cursor := Some(log[p].time), handled := s.handled + {p}, last := p,
            first := if s.first.None? then Some(p) else s.first,
            reach := if s.first.None? then p + 1 else s'.reach)
      else s'
    case Disconnect => s.(connected := false)
  }

  predicate IsTrace(log: seq<Event>, rewind: nat, s: Stream, steps: seq<Step>)
    decreases |steps|
  {
    steps == [] ||
    (Enabled(log, s, steps[0]) && IsTrace(log, rewind, Apply(log, rewind, s, steps[0]), steps[1..]))
  }

  function Execute(log: seq<Event>, rewind: nat, s: Stream, steps: seq<Step>): Stream
    requires IsTrace(log, rewind, s, steps)
    decreases |steps|
  {
    if steps == [] then s else Execute(log, rewind, Apply(log, rewind, s, steps[0]), steps[1..])
  }

  lemma {:induction false} TraceExtends(log: seq<Event>, rewind: nat, s: Stream, steps: seq<Step>, e: Step)
    requires IsTrace(log, rewind, s, steps) && Enabled(log, Execute(log, rewind, s, steps), e)
    ensures IsTrace(log, rewind, s, steps + [e])
    ensures Execute(log, rewind, s, steps + [e]) == Apply(log, rewind, Execute(log, rewind, s, steps), e)
    decreases |steps|
  {
    if steps == [] {
      assert IsTrace(log, rewind, Apply(log, rewind, s, e), []);
      assert ([] + [e])[1..] == [];
    } else {
      TraceExtends(log, rewind, Apply(log, rewind, s, steps[0]), steps[1..], e);
      assert (steps + [e])[1..] == steps[1..] + [e];
    }
  }

  // ---- the invariant ----

  /** The first handled event stays the first, and the upper end never decreases. */
  predicate NeverBack(s: Stream, s': Stream) {
    s.first.Some? ==> s'.first == s.first && s'.reach >= s.reach
  }

  /** Every event of `[lo, hi)` that parses has been handled. */
  ghost predicate AllHandled(log: seq<Event>, s: Stream, lo: nat, hi: nat)
    requires hi <= |log|
  {
    forall i :: lo <= i < hi && log[i].parses ==> i in s.handled
  }

  /** Nothing handled is missing an event that parses between it and `hi`. */
  ghost predicate GaplessUpTo(log: seq<Event>, s: Stream, hi: nat)
    requires hi <= |log|
  {
    forall h :: h in s.handled ==> AllHandled(log, s, h, hi)
  }

  ghost predicate Inv(log: seq<Event>, rewind: nat, s: Stream) {
    && s.pos <= |log| && s.reach <= |log|
    && (s.first.None? ==> s.handled == {})
    && (s.first.Some? ==>
          && s.last < |log| && s.cursor == Some(log[s.last].time)
          && s.first.value in s.handled && s.last in s.handled
          && StartAt(log, Rewound(log[s.last].time, rewind)) <= s.pos <= s.reach
          && (forall h :: h in s.handled ==> h < s.reach && log[h].parses)
          && AllHandled(log, s, s.first.value, s.reach)
          && GaplessUpTo(log, s, s.pos))
  }

  lemma {:induction false} StartAtFinds(log: seq<Event>, cursor: nat, i: nat)
    requires TimeOrdered(log) && i < |log|
    ensures log[i].time >= cursor <==> StartAt(log, cursor) <= i
  {
    if log[0].time < cursor && i > 0 {
      StartAtFinds(log[1..], cursor, i - 1);
    }
  }

  /** A reconnect replays exactly what lies within `rewind` of the cursor, and what is later. */
  lemma ReplaysTheRewindWindow(log: seq<Event>, cursor: nat, rewind: nat, i: nat)
    requires TimeOrdered(log) && i < |log|
    ensures StartAt(log, Rewound(cursor, rewind)) <= i <==> log[i].time + rewind >= cursor
  {
    StartAtFinds(log, Rewound(cursor, rewind), i);
  }

  /** A reconnect starts at or before the event handled last. */
  lemma ResumesAtOrBeforeLast(log: seq<Event>, rewind: nat, last: nat)
    requires TimeOrdered(log) && last < |log|
    ensures StartAt(log, Rewound(log[last].time, rewind)) <= last
  {
    StartAtFinds(log, Rewound(log[last].time, rewind), last);
  }

  lemma ReceiveKeepsInv(log: seq<Event>, rewind: nat, s: Stream)
    requires TimeOrdered(log) && Inv(log, rewind, s) && Enabled(log, s, Receive)
    ensures Inv(log, rewind, Apply(log, rewind, s, Receive))
  {
    var p, s' := s.pos, Apply(log, rewind, s, Receive);
    if log[p].parses {
      ResumesAtOrBeforeLast(log, rewind, p);
    }
    if s'.first.Some? {
      assert AllHandled(log, s', s'.first.value, s'.reach);
      forall h | h in s'.handled
        ensures AllHandled(log, s', h, p + 1)
      {
        assert h == p || (h in s.handled && AllHandled(log, s, h, p));
      }
    }
  }

  /** Every step keeps the invariant: connecting, receiving, and disconnecting at any point,
      replays included. */
  lemma StepKeepsInv(log: seq<Event>, rewind: nat, s: Stream, e: Step)
    requires TimeOrdered(log) && Inv(log, rewind, s) && Enabled(log, s, e)
    ensures Inv(log, rewind, Apply(log, rewind, s, e))
  {
    match e
    case Receive => ReceiveKeepsInv(log, rewind, s);
    case Connect(tail) =>
      var s' := Apply(log, rewind, s, e);
      if s.first.Some? {
        forall h | h in s'.handled
          ensures AllHandled(log, s', h, s'.pos)
        {
          assert AllHandled(log, s, h, s.pos);
        }
      }
    case Disconnect =>
      var s' := Apply(log, rewind, s, e);
      if s.first.Some? {
        assert AllHandled(log, s', s'.first.value, s'.reach);
        forall h | h in s'.handled
          ensures AllHandled(log, s', h, s'.pos)
        {
          assert AllHandled(log, s, h, s.pos);
        }
      }
  }

  lemma {:induction false} RunKeepsInv(log: seq<Event>, rewind: nat, s: Stream, steps: seq<Step>)
    requires TimeOrdered(log) && Inv(log, rewind, s) && IsTrace(log, rewind, s, steps)
    ensures Inv(log, rewind, Execute(log, rewind, s, steps))
    ensures NeverBack(s, Execute(log, rewind, s, steps))
    decreases |steps|
  {
    if steps != [] {
      StepKeepsInv(log, rewind, s, steps[0]);
      RunKeepsInv(log, rewind, Apply(log, rewind, s, steps[0]), steps[1..]);
    }
  }

  // ---- gap-free resume ----

  /** Over any run of connections, however they end: of all that was logged from the first
      handled event on, up to the furthest received, nothing that parses is missed, and nothing
      past it is handled. */
  lemma NothingAfterFirstIsMissed(log: seq<Event>, rewind: nat, from: Option<nat>, steps: seq<Step>)
    requires TimeOrdered(log) && IsTrace(log, rewind, Init(from), steps)
    ensures var s := Execute(log, rewind, Init(from), steps);
            s.first.Some? ==>
              forall i :: 0 <= i < |log| && log[i].parses ==>
                (i in s.handled ==> i < s.reach) && (s.first.value <= i < s.reach ==> i in s.handled)
  {
    RunKeepsInv(log, rewind, Init(from), steps);
  }

  /** Once the current connection has caught up with the first handled event, what is handled
      is one interval, everything that parses from the earliest replayed to the furthest. */
  lemma CaughtUpMeansOneInterval(log: seq<Event>, rewind: nat, from: Option<nat>, steps: seq<Step>)
    requires TimeOrdered(log) && IsTrace(log, rewind, Init(from), steps)
    ensures var s := Execute(log, rewind, Init(from), steps);
            s.first.Some? && s.pos >= s.first.value ==>
              s.reach <= |log| && GaplessUpTo(log, s, s.reach)
  {
    RunKeepsInv(log, rewind, Init(from), steps);
    var s := Execute(log, rewind, Init(from), steps);
    if s.first.Some? && s.pos >= s.first.value {
      forall h | h in s.handled
        ensures AllHandled(log, s, h, s.reach)
      {
        assert AllHandled(log, s, h, s.pos);
        assert AllHandled(log, s, s.first.value, s.reach);
      }
    }
  }

  /** A rewind past the first event, cut off early, can leave a gap for the time being: events
      0 and 2 are handled, event 1 is not. */
  lemma CutOffReplayLeavesAGap()
    ensures var log := [Event(10, true), Event(11, true), Event(12, true)];
            var steps := [Connect(2), Receive, Disconnect, Connect(3), Receive, Disconnect];
            && TimeOrdered(log) && IsTrace(log, 5, Init(None), steps)
            && Execute(log, 5, Init(None), steps).handled == {0, 2}
  {
  }
}
