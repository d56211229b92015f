/** The direct-message loop of `src/dm.rs`: prime a cursor, then drain the log page by page
    while the handlers, and everybody else, keep appending to it. */
module DirectMessages {
  import opened Wrappers

  /** What a creation entry refers to: a live message, or one deleted or of unknown kind. */
  datatype MessageRef = MessageView(sender: string, text: string) | NotLive

  datatype LogItem = CreateMessage(convoId: string, message: MessageRef) | OtherItem

  datatype DirectMessage = DirectMessage(convoId: string, sender: string, text: string)

  // ---- the filters ----

  /** `message_from_log`. */
  function MessageFromLog(item: LogItem): Option<DirectMessage> {
    if item.CreateMessage? && item.message.MessageView? then
      Some(DirectMessage(item.convoId, item.message.sender, item.message.text))
    else
      None
  }

  /** A live message that `skip` did not send. */
  predicate IsForeign(item: LogItem, skip: string) {
    MessageFromLog(item).Some? && MessageFromLog(item).value.sender != skip
  }

  /** `dispatchable_messages`. */
  function Dispatchable(items: seq<LogItem>, skip: string): seq<DirectMessage> {
    if items == [] then []
    else if IsForeign(items[0], skip) then
      [MessageFromLog(items[0]).value] + Dispatchable(items[1..], skip)
    else
      Dispatchable(items[1..], skip)
  }

  lemma {:induction false} DispatchableConcat(a: seq<LogItem>, b: seq<LogItem>, skip: string)
    ensures Dispatchable(a + b, skip) == Dispatchable(a, skip) + Dispatchable(b, skip)
  {
    if a == [] {
      assert a + b == b;
    } else {
      DispatchableConcat(a[1..], b, skip);
      assert (a + b)[1..] == a[1..] + b;
    }
  }

  // ---- the server ----

  /** A cursor is a position in the log; no cursor is its beginning. */
  type Cursor = Option<nat>

  function Pos(c: Cursor): nat {
    if c.None? then 0 else c.value
  }

  datatype Page = Page(logs: seq<LogItem>, cursor: Cursor)

  /** A page is the log from the cursor on, and is empty only at the end of the log. The new
      cursor stands just past the page; an empty page may leave it out. */
  predicate Serves(log: seq<LogItem>, cursor: Cursor, page: Page) {
    var p, q := Pos(cursor), Pos(cursor) + |page.logs|;
    && q <= |log| && page.logs == log[p..q]
    && (page.logs == [] ==> p == |log|)
    && (page.cursor == Some(q) || (page.logs == [] && page.cursor == None))
  }

  /** The cursor after a page: the server's when it sends one. */
  function Adopt(cursor: Cursor, page: Page): Cursor {
    if page.cursor.Some? then page.cursor else cursor
  }

  /** What a request was answered: nothing, or a page of so many entries. */
  datatype Reply = Refused | Served(count: nat)

  function ReplyOf(out: Result<Page>): Reply {
    if out.Ok? then Served(|out.value.logs|) else Refused
  }

  /** The conversation log. It only grows. `replies` are the answers to all requests so far. */
  class ChatServer {
    var log: seq<LogItem>
    ghost var replies: seq<Reply>

    /** `getLog`, which may fail; others may write before it is served. */
    method FetchConvoLog(cursor: Cursor) returns (out: Result<Page>)
      requires Pos(cursor) <= |log|
      modifies this
      ensures old(log) <= log && replies == old(replies) + [ReplyOf(out)]
      ensures out.Ok? ==> Serves(log, cursor, out.value)
    {
      var written: seq<LogItem> := *;
      log := log + written;
      out := ServePage(cursor);
    }

    /** Serve or fail, with nobody writing. */
    method ServePage(cursor: Cursor) returns (out: Result<Page>)
      requires Pos(cursor) <= |log|
      modifies this`replies
      ensures replies == old(replies) + [ReplyOf(out)]
      ensures out.Ok? ==> Serves(log, cursor, out.value)
    {
      var p := Pos(cursor);
      var fails: bool := *;
      if fails {
        out := Err;
      } else {
        var q: nat :| p <= q <= |log| && (p < |log| ==> p < q);
        var named: bool := *;
        out := Ok(Page(log[p..q], if p < q || named then Some(q) else None));
      }
      replies := replies + [ReplyOf(out)];
    }

    /** Anything may be appended while a handler runs. */
    method RunHandler(dm: DirectMessage)
      modifies this`log
      ensures old(log) <= log
    {
      var written: seq<LogItem> := *;
      log := log + written;
    }

    /** In a quiet conversation only the handler writes, at most `most` messages of the
        bot's own. */
    method RunEchoHandler(dm: DirectMessage, bot: string, most: nat)
      modifies this`log
      ensures old(log) <= log && |log| <= |old(log)| + most
      ensures Dispatchable(log[|old(log)|..], bot) == []
    {
      var text: string, n: nat := *, *;
      if n > most {
        n := most;
      }
      var own := seq(n, _ => CreateMessage(dm.convoId, MessageView(bot, text)));
      OwnAreNotDispatchable(own, bot);
      assert (log + own)[|log|..] == own;
      log := log + own;
    }
  }

  lemma {:induction false} OwnAreNotDispatchable(items: seq<LogItem>, bot: string)
    requires forall k :: 0 <= k < |items| ==> !IsForeign(items[k], bot)
    ensures Dispatchable(items, bot) == []
  {
    if items != [] {
      OwnAreNotDispatchable(items[1..], bot);
    }
  }

  /** The dispatchable messages of the log between two positions. */
  function Read(log: seq<LogItem>, p: nat, q: nat, skip: string): seq<DirectMessage>
    requires p <= q <= |log|
  {
    Dispatchable(log[p..q], skip)
  }

  /** A growing log never changes what was read, and reading on continues it. */
  lemma ReadOn(before: seq<LogItem>, after: seq<LogItem>, p: nat, q: nat, r: nat, skip: string)
    requires before <= after && p <= q <= |before| && q <= r <= |after|
    ensures Read(after, p, r, skip) == Read(before, p, q, skip) + Read(after, q, r, skip)
    ensures Read(after, p, q, skip) == Read(before, p, q, skip)
  {
    assert after[p..q] == before[p..q];
    assert after[p..r] == before[p..q] + after[q..r];
    DispatchableConcat(before[p..q], after[q..r], skip);
  }

  lemma ReadOnFrom(base: seq<DirectMessage>, earlier: seq<DirectMessage>, sent: seq<DirectMessage>,
                   before: seq<LogItem>, after: seq<LogItem>, p: nat, q: nat, r: nat, skip: string)
    requires before <= after && p <= q <= |before| && q <= r <= |after|
    requires earlier == base + Read(before, p, q, skip) && sent == earlier + Read(after, q, r, skip)
    ensures sent == base + Read(after, p, r, skip)
  {
    ReadOn(before, after, p, q, r, skip);
  }

  const MAX_LOG_PAGES := 10_000

  /** How a drain of the log ended. */
  datatype End = ReachedTail | FetchFailed | PageCap | Stopped

  predicate Full(reply: Reply) {
    reply.Served? && reply.count > 0
  }

  /** The entries of all the pages served. */
  function Entries(replies: seq<Reply>): nat {
    if replies == [] then 0
    else
      var last := replies[|replies| - 1];
      Entries(replies[..|replies| - 1]) + if last.Served? then last.count else 0
  }

  /** Only the last request may be refused or find nothing. */
  ghost predicate FullButTheLast(replies: seq<Reply>) {
    forall k :: 0 <= k < |replies| - 1 ==> Full(replies[k])
  }

  /** How the answers to one `poll` explain its end: it goes on from page to page, and ends with
      the first request that is refused or finds nothing, or after the page at which a stop is
      noticed, or at the cap. */
  ghost predicate PollEnds(replies: seq<Reply>, stop: Option<nat>, end: End) {
    && 1 <= |replies| <= MAX_LOG_PAGES && FullButTheLast(replies)
    && (forall k :: 0 <= k < |replies| - 1 ==> stop != Some(k))
    && var last := |replies| - 1;
       match end
       case FetchFailed => replies[last].Refused?
       case ReachedTail => replies[last] == Served(0)
       case Stopped => Full(replies[last]) && stop == Some(last)
       case PageCap => Full(replies[last]) && stop != Some(last) && |replies| == MAX_LOG_PAGES
  }

  /** Pages so far that neither end a drain nor are followed by a stop. */
  ghost predicate GoesOn(replies: seq<Reply>, stop: Option<nat>) {
    forall k :: 0 <= k < |replies| ==> Full(replies[k]) && stop != Some(k)
  }

  lemma PollEnding(earlier: seq<Reply>, reply: Reply, stop: Option<nat>, end: End)
    requires GoesOn(earlier, stop) && |earlier| < MAX_LOG_PAGES
    requires match end
             case FetchFailed => reply.Refused?
             case ReachedTail => reply == Served(0)
             case Stopped => Full(reply) && stop == Some(|earlier|)
             case PageCap => Full(reply) && stop != Some(|earlier|) && |earlier| + 1 == MAX_LOG_PAGES
    ensures PollEnds(earlier + [reply], stop, end)
  {
  }

  lemma OneMoreReply(earlier: seq<Reply>, reply: Reply, stop: Option<nat>)
    ensures Entries(earlier + [reply]) == Entries(earlier) + if reply.Served? then reply.count else 0
    ensures GoesOn(earlier, stop) && Full(reply) && stop != Some(|earlier|) ==> GoesOn(earlier + [reply], stop)
  {
    assert (earlier + [reply])[..|earlier|] == earlier;
  }

  /** The same for `prime`, which looks for a stop before each request. */
  ghost predicate PrimeEnds(replies: seq<Reply>, stop: Option<nat>, end: End) {
    && |replies| <= MAX_LOG_PAGES && FullButTheLast(replies)
    && (forall k :: 0 <= k < |replies| ==> stop != Some(k))
    && var last := |replies| - 1;
       match end
       case FetchFailed => last >= 0 && replies[last].Refused?
       case ReachedTail => last >= 0 && replies[last] == Served(0)
       case Stopped => (last >= 0 ==> Full(replies[last])) && stop == Some(|replies|)
       case PageCap => last >= 0 && Full(replies[last]) && |replies| == MAX_LOG_PAGES
  }

  lemma PrimeStopping(earlier: seq<Reply>, stop: Option<nat>)
    requires GoesOn(earlier, stop) && |earlier| < MAX_LOG_PAGES && stop == Some(|earlier|)
    ensures PrimeEnds(earlier, stop, Stopped)
  {
  }

  lemma PrimeEnding(earlier: seq<Reply>, reply: Reply, stop: Option<nat>)
    requires GoesOn(earlier, stop) && |earlier| < MAX_LOG_PAGES && stop != Some(|earlier|)
    ensures reply.Refused? ==> PrimeEnds(earlier + [reply], stop, FetchFailed)
    ensures reply == Served(0) ==> PrimeEnds(earlier + [reply], stop, ReachedTail)
    ensures Full(reply) && |earlier| + 1 == MAX_LOG_PAGES ==> PrimeEnds(earlier + [reply], stop, PageCap)
  {
  }

  /** The answers to the requests of one walk along the log, and how it ended. */
  datatype Drain = Drain(asked: seq<Reply>, end: End)

  function AllAsked(drains: seq<Drain>): seq<Reply> {
    if drains == [] then [] else AllAsked(drains[..|drains| - 1]) + drains[|drains| - 1].asked
  }

  /** Poll `k` is the one of tick `k`, and ends as its answers say. */
  ghost predicate PollsEnd(polls: seq<Drain>, stops: seq<Option<nat>>) {
    |polls| == |stops| &&
    (polls == [] ||
     var last := |polls| - 1;
     PollsEnd(polls[..last], stops[..last]) && PollEnds(polls[last].asked, stops[last], polls[last].end))
  }

  lemma OneMorePoll(polls: seq<Drain>, poll: Drain, stops: seq<Option<nat>>, stop: Option<nat>)
    requires PollsEnd(polls, stops) && PollEnds(poll.asked, stop, poll.end)
    ensures PollsEnd(polls + [poll], stops + [stop]) && (polls + [poll])[|polls|] == poll
    ensures AllAsked(polls + [poll]) == AllAsked(polls) + poll.asked
  {
    assert (polls + [poll])[..|polls|] == polls && (stops + [stop])[..|stops|] == stops;
  }

  lemma Prefixes(stops: seq<Option<nat>>, k: nat)
    ensures k < |stops| ==> stops[..k + 1] == stops[..k] + [stops[k]]
    ensures stops[..|stops|] == stops
  {
  }

  lemma Regroup(a: seq<Reply>, b: seq<Reply>, c: seq<Reply>)
    ensures (a + b) + c == a + (b + c)
  {
  }

  // ---- the code ----

  class DmRunner {
    const did: string
    const processBacklog: bool
    /** Every message handed to the handlers, in order. */
    var dispatched: seq<DirectMessage>

    constructor (did: string, processBacklog: bool)
      ensures this.did == did && this.processBacklog == processBacklog && dispatched == []
    {
      this.did, this.processBacklog, dispatched := did, processBacklog, [];
    }

    /** `prime`: walk to the live tail and dispatch nothing. `stop` is the page before which a
        shutdown is signalled; `asked` are the answers to its requests. */
    method Prime(server: ChatServer, stop: Option<nat>)
      returns (cursor: Option<Cursor>, ghost asked: seq<Reply>, ghost end: End)
      modifies server
      ensures old(server.log) <= server.log && server.replies == old(server.replies) + asked
      ensures cursor.None? <==> end.Stopped?
      ensures cursor.Some? ==> Pos(cursor.value) == Entries(asked) <= |server.log|
      ensures processBacklog ==> server.log == old(server.log) && asked == [] && cursor == Some(None)
      ensures !processBacklog ==> PrimeEnds(asked, stop, end)
      ensures !processBacklog && end.ReachedTail? ==> Pos(cursor.value) == |server.log|
    {
      asked := [];
      if processBacklog {
        return Some(None), asked, ReachedTail;
      }
      var at: Cursor := None;
      var pages := 0;
      while true
        invariant old(server.log) <= server.log && server.replies == old(server.replies) + asked
        invariant Pos(at) == Entries(asked) <= |server.log|
        invariant GoesOn(asked, stop) && |asked| == pages < MAX_LOG_PAGES
        decreases MAX_LOG_PAGES - pages
      {
        if stop == Some(pages) {
          PrimeStopping(asked, stop);
          return None, asked, Stopped;
        }
        var last;
        ghost var reply;
        at, last, reply := PrimeTurn(server, at, pages, stop, asked);
        asked, pages := asked + [reply], pages + 1;
        if last.Some? {
          return Some(at), asked, last.value;
        }
      }
    }

    /** One turn of `prime`: a page, and whether it was the last one. */
    method PrimeTurn(server: ChatServer, at: Cursor, pages: nat, stop: Option<nat>, ghost asked: seq<Reply>)
      returns (later: Cursor, end: Option<End>, ghost reply: Reply)
      requires Pos(at) == Entries(asked) <= |server.log|
      requires GoesOn(asked, stop) && |asked| == pages < MAX_LOG_PAGES && stop != Some(pages)
      modifies server
      ensures old(server.log) <= server.log && server.replies == old(server.replies) + [reply]
      ensures Pos(later) == Entries(asked + [reply]) <= |server.log|
      ensures end.Some? ==> end != Some(Stopped) && PrimeEnds(asked + [reply], stop, end.value)
      ensures end == Some(ReachedTail) ==> Pos(later) == |server.log|
      ensures end.None? ==> GoesOn(asked + [reply], stop) && pages + 1 < MAX_LOG_PAGES
    {
      var out := server.FetchConvoLog(at);
      reply := ReplyOf(out);
      PrimeEnding(asked, reply, stop);
      OneMoreReply(asked, reply, stop);
      if out.Err? {
        return at, Some(FetchFailed), reply;
      }
      later := Adopt(at, out.value);
      end := if out.value.logs == [] then Some(ReachedTail)
             else if pages + 1 >= MAX_LOG_PAGES then Some(PageCap)
             else None;
    }

    /** The dispatch loop over one page. */
    method DispatchPage(server: ChatServer, page: seq<LogItem>)
      modifies this`dispatched, server`log
      ensures old(server.log) <= server.log
      ensures dispatched == old(dispatched) + Dispatchable(page, did)
      ensures page == [] ==> server.log == old(server.log)
    {
      var dms := Dispatchable(page, did);
      for k := 0 to |dms|
        invariant old(server.log) <= server.log && (page == [] ==> server.log == old(server.log))
        invariant dispatched == old(dispatched) + dms[..k]
      {
        dispatched := dispatched + [dms[k]];
        server.RunHandler(dms[k]);
      }
    }

    /** One page of `poll`: fetch it and dispatch it. */
    method PollPage(server: ChatServer, cursor: Cursor) returns (out: Result<Page>)
      requires Pos(cursor) <= |server.log|
      modifies this`dispatched, server
      ensures old(server.log) <= server.log && server.replies == old(server.replies) + [ReplyOf(out)]
      ensures out.Err? ==> dispatched == old(dispatched)
      ensures out.Ok? ==>
                var next := Pos(Adopt(cursor, out.value));
                && Pos(cursor) + |out.value.logs| == next <= |server.log|
                && dispatched == old(dispatched) + Read(server.log, Pos(cursor), next, did)
                && (out.value.logs == [] ==> next == |server.log|)
    {
      out := server.FetchConvoLog(cursor);
      if out.Ok? {
        ghost var before, q := server.log, Pos(cursor);
        DispatchPage(server, out.value.logs);
        ReadOn(before, server.log, q, q + |out.value.logs|, q + |out.value.logs|, did);
      }
    }

    /** What a poll that started at `start` has done by the time it is at `next`. */
    ghost predicate HasRead(server: ChatServer, start: Cursor, next: Cursor, base: seq<DirectMessage>)
      reads this, server
    {
      Pos(start) <= Pos(next) <= |server.log| && dispatched == base + Read(server.log, Pos(start), Pos(next), did)
    }

    /** A page that goes on from what was read since `start`. */
    method PollOn(server: ChatServer, start: Cursor, next: Cursor, ghost base: seq<DirectMessage>)
      returns (out: Result<Page>)
      requires HasRead(server, start, next, base)
      modifies this`dispatched, server
      ensures old(server.log) <= server.log && server.replies == old(server.replies) + [ReplyOf(out)]
      ensures out.Err? ==> HasRead(server, start, next, base)
      ensures out.Ok? ==>
                var later := Adopt(next, out.value);
                && HasRead(server, start, later, base) && Pos(later) == Pos(next) + |out.value.logs|
                && (out.value.logs == [] ==> Pos(later) == |server.log|)
    {
      ghost var before, earlier := server.log, dispatched;
      out := PollPage(server, next);
      ghost var r := if out.Ok? then Pos(Adopt(next, out.value)) else Pos(next);
      assert Read(server.log, Pos(next), Pos(next), did) == [];
      ReadOnFrom(base, earlier, dispatched, before, server.log, Pos(start), Pos(next), r, did);
    }

    /** One turn of `poll`: a page, and whether it was the last one. */
    method PollTurn(server: ChatServer, start: Cursor, next: Cursor, pages: nat, stop: Option<nat>,
                    ghost asked: seq<Reply>, ghost base: seq<DirectMessage>)
      returns (later: Cursor, end: Option<End>, ghost reply: Reply)
      requires HasRead(server, start, next, base) && GoesOn(asked, stop) && |asked| == pages < MAX_LOG_PAGES
      modifies this`dispatched, server
      ensures old(server.log) <= server.log && server.replies == old(server.replies) + [reply]
      ensures HasRead(server, start, later, base)
      ensures Pos(later) == Pos(next) + if reply.Served? then reply.count else 0
      ensures end.Some? ==> PollEnds(asked + [reply], stop, end.value)
      ensures end == Some(ReachedTail) ==> Pos(later) == |server.log|
      ensures end.None? ==> GoesOn(asked + [reply], stop) && pages + 1 < MAX_LOG_PAGES
    {
      var out := PollOn(server, start, next, base);
      reply := ReplyOf(out);
      if out.Err? {
        PollEnding(asked, reply, stop, FetchFailed);
        return next, Some(FetchFailed), reply;
      }
      later := Adopt(next, out.value);
      end := if out.value.logs == [] then Some(ReachedTail)
             else if stop == Some(pages) then Some(Stopped)
             else if pages + 1 >= MAX_LOG_PAGES then Some(PageCap)
             else None;
      if end.Some? {
        PollEnding(asked, reply, stop, end.value);
      } else {
        OneMoreReply(asked, reply, stop);
      }
    }

    /** `poll`: dispatch and move past everything that is available. `stop` is the page after
        which a shutdown is noticed; `asked` are the answers to its requests. */
    method Poll(server: ChatServer, cursor: Cursor, stop: Option<nat>)
      returns (next: Cursor, ghost asked: seq<Reply>, ghost end: End)
      requires Pos(cursor) <= |server.log|
      modifies this`dispatched, server
      ensures old(server.log) <= server.log && server.replies == old(server.replies) + asked
      ensures Pos(cursor) + Entries(asked) == Pos(next) <= |server.log|
      ensures dispatched == old(dispatched) + Read(server.log, Pos(cursor), Pos(next), did)
      ensures PollEnds(asked, stop, end)
      ensures end.ReachedTail? ==> Pos(next) == |server.log|
    {
      next, asked := cursor, [];
      var pages := 0;
      while true
        invariant old(server.log) <= server.log && server.replies == old(server.replies) + asked
        invariant HasRead(server, cursor, next, old(dispatched)) && Pos(cursor) + Entries(asked) == Pos(next)
        invariant GoesOn(asked, stop) && |asked| == pages < MAX_LOG_PAGES
        decreases MAX_LOG_PAGES - pages
      {
        var last;
        ghost var reply;
        next, last, reply := PollTurn(server, cursor, next, pages, stop, asked, old(dispatched));
        OneMoreReply(asked, reply, stop);
        asked, pages := asked + [reply], pages + 1;
        if last.Some? {
          return next, asked, last.value;
        }
      }
    }

    /** After a poll that found nothing more, the cursor is at the live tail. */
    ghost predicate AtTail(server: ChatServer, cursor: Cursor, polls: seq<Drain>)
      reads server
    {
      polls != [] && polls[|polls| - 1].end.ReachedTail? ==> Pos(cursor) == |server.log|
    }

    /** One tick of `run`: a whole poll, that goes on from what was read since `start`. */
    method Tick(server: ChatServer, start: Cursor, cursor: Cursor, stop: Option<nat>, ghost base: seq<DirectMessage>)
      returns (next: Cursor, ghost poll: Drain)
      requires HasRead(server, start, cursor, base)
      modifies this`dispatched, server
      ensures old(server.log) <= server.log && server.replies == old(server.replies) + poll.asked
      ensures HasRead(server, start, next, base) && PollEnds(poll.asked, stop, poll.end)
      ensures poll.end.ReachedTail? ==> Pos(next) == |server.log|
    {
      ghost var before, earlier, asked, end := server.log, dispatched, [], PageCap;
      next, asked, end := Poll(server, cursor, stop);
      poll := Drain(asked, end);
      ReadOnFrom(base, earlier, dispatched, before, server.log, Pos(start), Pos(cursor), Pos(next), did);
    }

    /** The ticks of `run`. */
    method PollEachTick(server: ChatServer, start: Cursor, stops: seq<Option<nat>>)
      returns (cursor: Cursor, ghost polls: seq<Drain>)
      requires Pos(start) <= |server.log|
      modifies this`dispatched, server
      ensures old(server.log) <= server.log && server.replies == old(server.replies) + AllAsked(polls)
      ensures HasRead(server, start, cursor, old(dispatched))
      ensures PollsEnd(polls, stops) && AtTail(server, cursor, polls)
    {
      cursor, polls := start, [];
      Prefixes(stops, 0);
      for k := 0 to |stops|
        invariant PollsEnd(polls, stops[..k])
        invariant old(server.log) <= server.log && server.replies == old(server.replies) + AllAsked(polls)
        invariant HasRead(server, start, cursor, old(dispatched)) && AtTail(server, cursor, polls)
      {
        Prefixes(stops, k);
        ghost var poll, past, asked := Drain([], PageCap), stops[..k], AllAsked(polls);
        cursor, poll := Tick(server, start, cursor, stops[k], old(dispatched));
        Regroup(old(server.replies), asked, poll.asked);
        OneMorePoll(polls, poll, past, stops[k]);
        polls := polls + [poll];
      }
    }

    /** `run`, for a run of ticks that ends in a shutdown: whatever fails and whoever writes,
        what is dispatched is exactly the foreign live messages between the primed cursor and
        the current one, once each and in log order. Every tick is one whole poll. */
    method Run(server: ChatServer, stopPriming: Option<nat>, stops: seq<Option<nat>>)
      returns (primed: Option<Cursor>, cursor: Cursor, ghost walk: Drain, ghost polls: seq<Drain>)
      modifies this`dispatched, server
      ensures old(server.log) <= server.log
      ensures server.replies == old(server.replies) + walk.asked + AllAsked(polls)
      ensures if processBacklog then walk.asked == [] && primed == Some(None)
              else PrimeEnds(walk.asked, stopPriming, walk.end) && (primed.None? <==> walk.end.Stopped?)
      ensures primed.None? ==> dispatched == old(dispatched) && polls == []
      ensures primed.Some? ==>
                && Pos(primed.value) == Entries(walk.asked)
                && Pos(primed.value) <= Pos(cursor) <= |server.log|
                && dispatched == old(dispatched) + Read(server.log, Pos(primed.value), Pos(cursor), did)
                && PollsEnd(polls, stops) && AtTail(server, cursor, polls)
    {
      cursor, polls := None, [];
      ghost var asked, end;
      primed, asked, end := Prime(server, stopPriming);
      walk := Drain(asked, end);
      if primed.Some? {
        cursor, polls := PollEachTick(server, primed.value, stops);
      }
    }

    /** The dispatch loop over one page in a quiet conversation. */
    method EchoPage(server: ChatServer, page: seq<LogItem>, replies: nat)
      modifies this`dispatched, server`log
      ensures old(server.log) <= server.log
      ensures |server.log| - |old(server.log)| <= Weight(page, did, replies) - |page|
      ensures Dispatchable(server.log[|old(server.log)|..], did) == []
      ensures dispatched == old(dispatched) + Dispatchable(page, did)
      ensures page == [] ==> server.log == old(server.log)
    {
      ghost var base := server.log;
      for k := 0 to |page|
        invariant base <= server.log
        invariant |server.log| - |base| + Weight(page[k..], did, replies) - |page[k..]| <=
                  Weight(page, did, replies) - |page|
        invariant Dispatchable(server.log[|base|..], did) == []
        invariant dispatched + Dispatchable(page[k..], did) == old(dispatched) + Dispatchable(page, did)
        invariant page == [] ==> server.log == base
      {
        assert page[k..][1..] == page[k + 1..];
        if IsForeign(page[k], did) {
          var dm := MessageFromLog(page[k]).value;
          dispatched := dispatched + [dm];
          ghost var before := server.log;
          server.RunEchoHandler(dm, did, replies);
          DispatchableConcat(before[|base|..], server.log[|before|..], did);
          assert server.log[|base|..] == before[|base|..] + server.log[|before|..];
        }
      }
    }

    /** One page of a quiet drain: fetch it, dispatch it, let the handler reply. */
    method QuietPage(server: ChatServer, cursor: Cursor, replies: nat) returns (out: Result<Page>)
      requires Pos(cursor) <= |server.log|
      modifies this`dispatched, server
      ensures old(server.log) <= server.log && server.replies == old(server.replies) + [ReplyOf(out)]
      ensures out.Err? ==> server.log == old(server.log) && dispatched == old(dispatched)
      ensures out.Ok? ==>
                var next := Pos(Adopt(cursor, out.value));
                && next <= |server.log|
                && dispatched + Read(server.log, next, |server.log|, did) ==
                   old(dispatched + Read(server.log, Pos(cursor), |server.log|, did))
                && Weight(server.log[next..], did, replies) + |out.value.logs| <=
                   old(Weight(server.log[Pos(cursor)..], did, replies))
                && (out.value.logs == [] ==> next == |server.log|)
    {
      out := server.ServePage(cursor);
      if out.Ok? {
        var page := out.value.logs;
        ghost var before, log := server.log, dispatched;
        ghost var q, r := Pos(cursor), Pos(cursor) + |page|;
        EchoPage(server, page, replies);
        assert page == before[q..r];
        QuietAccount(log, before, server.log, q, r, did, replies);
      }
    }

    /** `poll` without its page cap, in a quiet conversation: it ends all the same, at the
        live tail unless a fetch fails, after at most one page per unit of weight that was
        unread, and dispatches just the foreign messages that were there before. */
    method PollQuietly(server: ChatServer, cursor: Cursor, replies: nat)
      returns (next: Cursor, ghost asked: seq<Reply>, ghost end: End)
      requires Pos(cursor) <= |server.log|
      modifies this`dispatched, server
      ensures old(server.log) <= server.log && Pos(next) <= |server.log|
      ensures server.replies == old(server.replies) + asked && asked != [] && FullButTheLast(asked)
      ensures match end
              case ReachedTail => asked[|asked| - 1] == Served(0)
              case FetchFailed => asked[|asked| - 1].Refused?
              case _ => false
      ensures |asked| <= 1 + old(Weight(server.log[Pos(cursor)..], did, replies))
      ensures end.ReachedTail? ==>
                && Pos(next) == |server.log|
                && dispatched == old(dispatched) + old(Read(server.log, Pos(cursor), |server.log|, did))
    {
      next, asked := cursor, [];
      ghost var budget := Weight(server.log[Pos(cursor)..], did, replies);
      ghost var all := dispatched + Read(server.log, Pos(cursor), |server.log|, did);
      while true
        invariant old(server.log) <= server.log && Pos(next) <= |server.log|
        invariant dispatched + Read(server.log, Pos(next), |server.log|, did) == all
        invariant server.replies == old(server.replies) + asked && forall k :: 0 <= k < |asked| ==> Full(asked[k])
        invariant |asked| + Weight(server.log[Pos(next)..], did, replies) <= budget
        decreases Weight(server.log[Pos(next)..], did, replies)
      {
        var out := QuietPage(server, next, replies);
        asked := asked + [ReplyOf(out)];
        if out.Err? {
          return next, asked, FetchFailed;
        }
        next := Adopt(next, out.value);
        if out.value.logs == [] {
          assert Read(server.log, Pos(next), |server.log|, did) == [];
          return next, asked, ReachedTail;
        }
      }
    }
  }

  // ---- why an echo bot cannot loop ----

  /** What an unread entry can cost: itself, and for a foreign message its replies too. */
  function Weight(items: seq<LogItem>, skip: string, replies: nat): nat {
    if items == [] then 0
    else (if IsForeign(items[0], skip) then 1 + replies else 1) + Weight(items[1..], skip, replies)
  }

  lemma {:induction false} WeightConcat(a: seq<LogItem>, b: seq<LogItem>, skip: string, replies: nat)
    ensures Weight(a + b, skip, replies) == Weight(a, skip, replies) + Weight(b, skip, replies)
  {
    if a == [] {
      assert a + b == b;
    } else {
      WeightConcat(a[1..], b, skip, replies);
      assert (a + b)[1..] == a[1..] + b;
    }
  }

  /** Entries nobody reacts to weigh one each. */
  lemma {:induction false} WeightOfOwn(items: seq<LogItem>, skip: string, replies: nat)
    requires Dispatchable(items, skip) == []
    ensures Weight(items, skip, replies) == |items|
  {
    if items != [] {
      WeightOfOwn(items[1..], skip, replies);
    }
  }

  lemma QuietAccount(sent: seq<DirectMessage>, before: seq<LogItem>, after: seq<LogItem>, q: nat, r: nat,
                     skip: string, replies: nat)
    requires q <= r <= |before| && before <= after
    requires |after| - |before| <= Weight(before[q..r], skip, replies) - (r - q)
    requires Dispatchable(after[|before|..], skip) == []
    ensures Weight(after[r..], skip, replies) + (r - q) <= Weight(before[q..], skip, replies)
    ensures sent + Dispatchable(before[q..r], skip) + Read(after, r, |after|, skip) ==
            sent + Read(before, q, |before|, skip)
  {
    ReadThenReplies(before, after, q, r, skip, replies);
    var read, left := Dispatchable(before[q..r], skip), Read(after, r, |after|, skip);
    assert (sent + read) + left == sent + (read + left);
  }

  /** Reading a page and appending its replies takes at least the length of the page off the
      unread weight, and changes nothing about what is left to dispatch. */
  lemma ReadThenReplies(before: seq<LogItem>, after: seq<LogItem>, q: nat, r: nat, skip: string, replies: nat)
    requires q <= r <= |before| && before <= after
    requires |after| - |before| <= Weight(before[q..r], skip, replies) - (r - q)
    requires Dispatchable(after[|before|..], skip) == []
    ensures Weight(after[r..], skip, replies) + (r - q) <= Weight(before[q..], skip, replies)
    ensures Read(before, q, r, skip) + Read(after, r, |after|, skip) == Read(before, q, |before|, skip)
  {
    var page, unread, added := before[q..r], before[r..], after[|before|..];
    WeightConcat(page, unread, skip, replies);
    WeightConcat(unread, added, skip, replies);
    WeightOfOwn(added, skip, replies);
    DispatchableConcat(page, unread, skip);
    DispatchableConcat(unread, added, skip);
    assert before[q..] == before[q..|before|] == page + unread;
    assert after[r..] == after[r..|after|] == unread + added;
  }

  /** Rounds of an echo bot that answers every message it is handed with one of its own: the
      unread messages after `n` rounds. */
  function EchoRounds(unread: seq<LogItem>, bot: string, skip: string, n: nat): seq<LogItem>
    decreases n
  {
    if n == 0 then unread
    else
      var answered := |Dispatchable(unread, skip)|;
      EchoRounds(seq(answered, _ => CreateMessage("", MessageView(bot, ""))), bot, skip, n - 1)
  }

  lemma {:induction false} OwnAreDispatchable(items: seq<LogItem>, skip: string)
    requires forall k :: 0 <= k < |items| ==> IsForeign(items[k], skip)
    ensures |Dispatchable(items, skip)| == |items|
  {
    if items != [] {
      OwnAreDispatchable(items[1..], skip);
    }
  }

  lemma {:induction false} UnfilteredEchoNeverStops(unread: seq<LogItem>, bot: string, skip: string, n: nat)
    requires skip != bot && Dispatchable(unread, skip) != []
    ensures Dispatchable(EchoRounds(unread, bot, skip, n), skip) != []
    decreases n
  {
    if n > 0 {
      var own := seq(|Dispatchable(unread, skip)|, _ => CreateMessage("", MessageView(bot, "")));
      OwnAreDispatchable(own, skip);
      UnfilteredEchoNeverStops(own, bot, skip, n - 1);
    }
  }

  /** Filtering out the bot's own DID is exactly what ends the conversation with itself. */
  lemma EchoStopsIffOwnAreSkipped(unread: seq<LogItem>, bot: string, skip: string)
    requires Dispatchable(unread, skip) != []
    ensures (exists n :: Dispatchable(EchoRounds(unread, bot, skip, n), skip) == []) <==> skip == bot
  {
    if skip == bot {
      var own := seq(|Dispatchable(unread, skip)|, _ => CreateMessage("", MessageView(bot, "")));
      OwnAreNotDispatchable(own, skip);
      assert EchoRounds(own, bot, skip, 0) == own;
      assert EchoRounds(unread, bot, skip, 1) == own;
    } else {
      forall n: nat
        ensures Dispatchable(EchoRounds(unread, bot, skip, n), skip) != []
      {
        UnfilteredEchoNeverStops(unread, bot, skip, n);
      }
    }
  }

  // ---- the filter, read as positions ----

  /** The positions of the foreign live messages, counted from `at`. */
  function ForeignAt(items: seq<LogItem>, skip: string, at: nat): seq<nat> {
    if items == [] then []
    else if IsForeign(items[0], skip) then [at] + ForeignAt(items[1..], skip, at + 1)
    else ForeignAt(items[1..], skip, at + 1)
  }

  /** They are all the positions there are. */
  lemma {:induction false} ForeignPositions(items: seq<LogItem>, skip: string, at: nat, i: nat)
    ensures i in ForeignAt(items, skip, at) <==>
            && at <= i < at + |items|
            && exists convo, sender, text ::
                 items[i - at] == CreateMessage(convo, MessageView(sender, text)) && sender != skip
  {
    if items != [] {
      ForeignPositions(items[1..], skip, at + 1, i);
      assert i in ForeignAt(items, skip, at) <==>
             i in ForeignAt(items[1..], skip, at + 1) || (i == at && IsForeign(items[0], skip));
    }
  }

  /** They increase, so each entry is read once. */
  lemma {:induction false} PositionsIncrease(items: seq<LogItem>, skip: string, at: nat, k: nat)
    requires k + 1 < |ForeignAt(items, skip, at)|
    ensures ForeignAt(items, skip, at)[k] < ForeignAt(items, skip, at)[k + 1]
  {
    var rest, later := items[1..], ForeignAt(items[1..], skip, at + 1);
    if !IsForeign(items[0], skip) {
      PositionsIncrease(rest, skip, at + 1, k);
    } else if k > 0 {
      PositionsIncrease(rest, skip, at + 1, k - 1);
    } else {
      assert later[0] in later;
      ForeignPositions(rest, skip, at + 1, later[0]);
    }
  }

  lemma {:induction false} OnePositionEach(items: seq<LogItem>, skip: string, at: nat)
    ensures |ForeignAt(items, skip, at)| == |Dispatchable(items, skip)|
  {
    if items != [] {
      OnePositionEach(items[1..], skip, at + 1);
    }
  }

  /** What is dispatched is one message for each of these positions, in the same order. */
  lemma {:induction false} DispatchedOnceInOrder(items: seq<LogItem>, skip: string, at: nat, k: nat)
    requires k < |Dispatchable(items, skip)|
    ensures |ForeignAt(items, skip, at)| == |Dispatchable(items, skip)|
    ensures var p := ForeignAt(items, skip, at)[k] - at;
            && 0 <= p < |items|
            && var dm := Dispatchable(items, skip)[k];
               items[p] == CreateMessage(dm.convoId, MessageView(dm.sender, dm.text)) && dm.sender != skip
  {
    OnePositionEach(items, skip, at);
    var rest := items[1..];
    if !IsForeign(items[0], skip) {
      DispatchedOnceInOrder(rest, skip, at + 1, k);
      assert rest[ForeignAt(rest, skip, at + 1)[k] - at - 1] == items[ForeignAt(rest, skip, at + 1)[k] - at];
    } else if k > 0 {
      DispatchedOnceInOrder(rest, skip, at + 1, k - 1);
      assert rest[ForeignAt(rest, skip, at + 1)[k - 1] - at - 1] == items[ForeignAt(rest, skip, at + 1)[k - 1] - at];
    }
  }
}
