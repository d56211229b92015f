/** The reconnect loop of `src/stream.rs`, in step with the machine of `Jetstream`. */
module StreamRunner {
  import opened Wrappers
  import opened Jetstream

  const MAX_U64 := 0xffff_ffff_ffff_ffff

  /** What the network does to one pass of the loop: whether the connection comes up, where the
      live end of the log is then, and how many events arrive before it ends. */
  datatype Session = Session(connects: bool, tail: nat, arrivals: nat)

  // ---- what one session does ----

  /** A session that the log can serve. */
  predicate Possible(log: seq<Event>, session: Session) {
    session.tail <= |log|
  }

  /** The position a connection starts at: the live end, or the rewound cursor. */
  function StartOf(log: seq<Event>, rewind: nat, cursor: Option<nat>, session: Session): (p: nat)
    requires Possible(log, session)
    ensures p <= |log|
  {
    if cursor.None? then session.tail else StartAt(log, Rewound(cursor.value, rewind))
  }

  /** How many events arrive. */
  function Arriving(log: seq<Event>, rewind: nat, cursor: Option<nat>, session: Session): (n: nat)
    requires Possible(log, session)
    ensures StartOf(log, rewind, cursor, session) + n <= |log|
  {
    var left := |log| - StartOf(log, rewind, cursor, session);
    if !session.connects then 0 else if session.arrivals < left then session.arrivals else left
  }

  /** The positions in `[p, q)` of events that parse. */
  function Parsing(log: seq<Event>, p: nat, q: nat): seq<nat>
    requires p <= q <= |log|
  {
    if p == q then [] else Parsing(log, p, q - 1) + if log[q - 1].parses then [q - 1] else []
  }

  /** The cursor once the events of `[p, q)` have been received. */
  function CursorAfter(log: seq<Event>, cursor: Option<nat>, p: nat, q: nat): Option<nat>
    requires p <= q <= |log|
  {
    if p == q then cursor
    else if log[q - 1].parses then Some(log[q - 1].time)
    else CursorAfter(log, cursor, p, q - 1)
  }

  function Receives(n: nat): (steps: seq<Step>)
    ensures |steps| == n
  {
    seq(n, _ => Receive)
  }

  function SessionSteps(log: seq<Event>, rewind: nat, cursor: Option<nat>, session: Session): seq<Step>
    requires Possible(log, session)
  {
    if !session.connects then []
    else [Connect(session.tail)] + Receives(Arriving(log, rewind, cursor, session)) + [Disconnect]
  }

  /** What one session hands to the handlers, and the cursor it leaves. */
  function Handed(log: seq<Event>, rewind: nat, cursor: Option<nat>, session: Session): seq<nat>
    requires Possible(log, session)
  {
    var p := StartOf(log, rewind, cursor, session);
    Parsing(log, p, p + Arriving(log, rewind, cursor, session))
  }

  function CursorLeft(log: seq<Event>, rewind: nat, cursor: Option<nat>, session: Session): Option<nat>
    requires Possible(log, session)
  {
    var p := StartOf(log, rewind, cursor, session);
    CursorAfter(log, cursor, p, p + Arriving(log, rewind, cursor, session))
  }

  ghost predicate AllPossible(log: seq<Event>, sessions: seq<Session>) {
    forall k :: 0 <= k < |sessions| ==> Possible(log, sessions[k])
  }

  /** The same for a list of sessions, each taking up at the cursor the one before left. */
  function HandedByAll(log: seq<Event>, rewind: nat, cursor: Option<nat>, sessions: seq<Session>): seq<nat>
    requires AllPossible(log, sessions)
    decreases |sessions|
  {
    if sessions == [] then []
    else
      var before := sessions[..|sessions| - 1];
      HandedByAll(log, rewind, cursor, before) +
      Handed(log, rewind, CursorLeftByAll(log, rewind, cursor, before), sessions[|sessions| - 1])
  }

  function CursorLeftByAll(log: seq<Event>, rewind: nat, cursor: Option<nat>, sessions: seq<Session>): Option<nat>
    requires AllPossible(log, sessions)
    decreases |sessions|
  {
    if sessions == [] then cursor
    else
      var before := sessions[..|sessions| - 1];
      CursorLeft(log, rewind, CursorLeftByAll(log, rewind, cursor, before), sessions[|sessions| - 1])
  }

  /** All that parse, and no others. */
  lemma {:induction false} ParsingMembers(log: seq<Event>, p: nat, q: nat, i: nat)
    requires p <= q <= |log|
    ensures i in Parsing(log, p, q) <==> p <= i < q && log[i].parses
  {
    if p < q {
      ParsingMembers(log, p, q - 1, i);
    }
  }

  /** A session hands over exactly the events that arrive and parse: those from the live end, or
      from the first that is not older than the rewound cursor, for as many as arrive. */
  lemma HandedMembers(log: seq<Event>, rewind: nat, cursor: Option<nat>, session: Session, i: nat)
    requires Possible(log, session)
    ensures var p := if cursor.None? then session.tail else StartAt(log, Rewound(cursor.value, rewind));
            i in Handed(log, rewind, cursor, session) <==>
              session.connects && p <= i < |log| && i < p + session.arrivals && log[i].parses
  {
    var p := StartOf(log, rewind, cursor, session);
    ParsingMembers(log, p, p + Arriving(log, rewind, cursor, session), i);
  }

  /** No session is skipped: what each hands over, from the cursor the ones before it left, comes
      right after what they handed over. */
  lemma {:induction false} EverySessionCounts(log: seq<Event>, rewind: nat, cursor: Option<nat>,
                                              sessions: seq<Session>, k: nat)
    requires AllPossible(log, sessions) && k < |sessions|
    ensures var before := sessions[..k];
            HandedByAll(log, rewind, cursor, before) +
              Handed(log, rewind, CursorLeftByAll(log, rewind, cursor, before), sessions[k]) <=
            HandedByAll(log, rewind, cursor, sessions)
    decreases |sessions|
  {
    if k < |sessions| - 1 {
      var shorter := sessions[..|sessions| - 1];
      EverySessionCounts(log, rewind, cursor, shorter, k);
      assert shorter[..k] == sessions[..k];
    }
  }

  /** Each once, in log order. */
  lemma {:induction false} ParsingIncreases(log: seq<Event>, p: nat, q: nat, j: nat, k: nat)
    requires p <= q <= |log| && j < k < |Parsing(log, p, q)|
    ensures Parsing(log, p, q)[j] < Parsing(log, p, q)[k]
  {
    if p < q {
      var earlier := Parsing(log, p, q - 1);
      if k < |earlier| {
        ParsingIncreases(log, p, q - 1, j, k);
      } else {
        assert earlier[j] in earlier;
        ParsingMembers(log, p, q - 1, earlier[j]);
      }
    }
  }

  /** A cursor is the time of the last event that parsed. */
  lemma {:induction false} CursorIsLastParsing(log: seq<Event>, cursor: Option<nat>, p: nat, q: nat)
    requires p <= q <= |log|
    ensures var ps := Parsing(log, p, q);
            if ps == [] then CursorAfter(log, cursor, p, q) == cursor
            else ps[|ps| - 1] < |log| && CursorAfter(log, cursor, p, q) == Some(log[ps[|ps| - 1]].time)
  {
    if p < q && !log[q - 1].parses {
      CursorIsLastParsing(log, cursor, p, q - 1);
    }
  }

  class Runner {
    const rewind: nat
    const configured: Option<nat>
    var cursor: Option<nat>
    /** The positions of the events handed to the handlers, in order. */
    var dispatched: seq<nat>
    /** The machine this runner follows, and its steps so far. */
    ghost var world: Stream
    ghost var history: seq<Step>

    ghost predicate Valid(log: seq<Event>)
      reads this
    {
      && world.cursor == cursor
      && world.handled == (set k | k in dispatched)
      && IsTrace(log, rewind, Init(configured), history)
      && Execute(log, rewind, Init(configured), history) == world
      && (TimeOrdered(log) ==> Inv(log, rewind, world))
    }

    /** The rewind is given in microseconds and clipped to 64 bits. */
    constructor (rewindMicros: nat, configured: Option<nat>, ghost log: seq<Event>)
      ensures Valid(log) && dispatched == [] && history == [] && !world.connected && cursor == configured
      ensures this.configured == configured && rewind == if rewindMicros <= MAX_U64 then rewindMicros else MAX_U64
    {
      rewind := if rewindMicros <= MAX_U64 then rewindMicros else MAX_U64;
      this.configured, cursor, dispatched := configured, configured, [];
      world, history := Init(configured), [];
    }

    ghost method Take(log: seq<Event>, e: Step)
      requires IsTrace(log, rewind, Init(configured), history)
      requires Execute(log, rewind, Init(configured), history) == world
      requires Enabled(log, world, e)
      modifies this`world, this`history
      ensures world == Apply(log, rewind, old(world), e) && history == old(history) + [e]
      ensures IsTrace(log, rewind, Init(configured), history)
      ensures Execute(log, rewind, Init(configured), history) == world
      ensures TimeOrdered(log) && Inv(log, rewind, old(world)) ==> Inv(log, rewind, world)
      ensures NeverBack(old(world), world)
    {
      TraceExtends(log, rewind, Init(configured), history, e);
      if TimeOrdered(log) && Inv(log, rewind, world) {
        StepKeepsInv(log, rewind, world, e);
      }
      world, history := Apply(log, rewind, world, e), history + [e];
    }

    /** `handle_text`: parse the event at position `p`, advance the cursor, dispatch. */
    method HandleText(log: seq<Event>, p: nat)
      requires Valid(log) && Enabled(log, world, Receive) && world.pos == p
      modifies this
      ensures Valid(log) && world == Apply(log, rewind, old(world), Receive)
      ensures history == old(history) + [Receive] && NeverBack(old(world), world)
      ensures dispatched == old(dispatched) + if log[p].parses then [p] else []
      ensures cursor == if log[p].parses then Some(log[p].time) else old(cursor)
    {
      if log[p].parses {
        cursor := Some(log[p].time);
        dispatched := dispatched + [p];
      }
      Take(log, Receive);
    }

    /** `connect_and_stream` on the URL for the current cursor: what arrives is received in log
        order from the start of the connection on, each event once. */
    method ConnectAndStream(log: seq<Event>, session: Session) returns (gotData: bool)
      requires Valid(log) && !world.connected && Possible(log, session)
      modifies this
      ensures Valid(log) && !world.connected && NeverBack(old(world), world)
      ensures history == old(history) + SessionSteps(log, rewind, old(cursor), session)
      ensures dispatched == old(dispatched) + Handed(log, rewind, old(cursor), session)
      ensures cursor == CursorLeft(log, rewind, old(cursor), session)
      ensures gotData <==> Arriving(log, rewind, old(cursor), session) > 0
    {
      gotData := false;
      if !session.connects {
        return;
      }
      var p := if cursor.None? then session.tail else StartAt(log, Rewound(cursor.value, rewind));
      ghost var n, before := Arriving(log, rewind, cursor, session), history;
      Take(log, Connect(session.tail));
      assert before + [Connect(session.tail)] + Receives(n) + [Disconnect] ==
             before + ([Connect(session.tail)] + Receives(n) + [Disconnect]);
      gotData := Stream(log, p, session.arrivals);
      Take(log, Disconnect);
    }

    /** The message loop of `connect_and_stream`, from position `start` on. */
    method Stream(log: seq<Event>, start: nat, arrivals: nat) returns (gotData: bool)
      requires Valid(log) && world.connected && world.pos == start <= |log|
      modifies this
      ensures Valid(log) && world.connected && NeverBack(old(world), world)
      ensures var n := if arrivals < |log| - start then arrivals else |log| - start;
              && history == old(history) + Receives(n)
              && dispatched == old(dispatched) + Parsing(log, start, start + n)
              && cursor == CursorAfter(log, old(cursor), start, start + n)
              && (gotData <==> n > 0)
    {
      var p := start;
      gotData := false;
      for k := 0 to arrivals
        invariant Valid(log) && world.connected && world.pos == p == start + k <= |log|
        invariant history == old(history) + Receives(k)
        invariant dispatched == old(dispatched) + Parsing(log, start, p)
        invariant cursor == CursorAfter(log, old(cursor), start, p)
        invariant NeverBack(old(world), world) && (gotData <==> k > 0)
      {
        if p >= |log| {
          break;
        }
        HandleText(log, p);
        p, gotData := p + 1, true;
      }
    }

    /** `run`, for any list of sessions before the shutdown: each takes up at the rewound cursor
        that the one before left. */
    method Run(log: seq<Event>, sessions: seq<Session>)
      requires Valid(log) && !world.connected
      requires AllPossible(log, sessions)
      modifies this
      ensures Valid(log) && !world.connected && old(history) <= history && NeverBack(old(world), world)
      ensures dispatched == old(dispatched) + HandedByAll(log, rewind, old(cursor), sessions)
      ensures cursor == CursorLeftByAll(log, rewind, old(cursor), sessions)
    {
      for k := 0 to |sessions|
        invariant Valid(log) && !world.connected && old(history) <= history && NeverBack(old(world), world)
        invariant dispatched == old(dispatched) + HandedByAll(log, rewind, old(cursor), sessions[..k])
        invariant cursor == CursorLeftByAll(log, rewind, old(cursor), sessions[..k])
      {
        assert sessions[..k + 1][..k] == sessions[..k];
        var _ := ConnectAndStream(log, sessions[k]);
      }
      assert sessions[..|sessions|] == sessions;
    }
  }
}
