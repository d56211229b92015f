/** `parse_command` of `src/command.rs`. The Unicode table of whitespace is the parameter `ws`. */
module Command {
  import opened Wrappers

  datatype Command = Command(name: string, args: seq<string>, rest: string)

  // ---- the string library ----

  function TrimStart(ws: char -> bool, s: string): (r: string)
    ensures |r| <= |s|
  {
    if s != "" && ws(s[0]) then TrimStart(ws, s[1..]) else s
  }

  function TrimEnd(ws: char -> bool, s: string): string {
    if s != "" && ws(s[|s| - 1]) then TrimEnd(ws, s[..|s| - 1]) else s
  }

  function Trim(ws: char -> bool, s: string): string {
    TrimEnd(ws, TrimStart(ws, s))
  }

  /** The position of the first whitespace, or the length. */
  function FindSpace(ws: char -> bool, s: string): (i: nat)
    ensures i <= |s|
  {
    if s == "" || ws(s[0]) then 0 else 1 + FindSpace(ws, s[1..])
  }

  function StripPrefix(s: string, prefix: string): Option<string> {
    if prefix <= s then Some(s[|prefix|..]) else None
  }

  function SplitWhitespace(ws: char -> bool, s: string): seq<string>
    decreases |s|
  {
    var t := TrimStart(ws, s);
    if t == "" then [] else
      var k := FindSpace(ws, t);
      if k == 0 then [] else [t[..k]] + SplitWhitespace(ws, t[k..])
  }

  // ---- the specification ----

  /** `s` begins with an `@` and something that is not whitespace. */
  predicate StartsMention(ws: char -> bool, s: string) {
    |s| >= 2 && s[0] == '@' && !ws(s[1])
  }

  /** What follows the first word and the whitespace after it. */
  function AfterWord(ws: char -> bool, s: string): (r: string)
    ensures |r| <= |s|
  {
    if s == "" || ws(s[0]) then TrimStart(ws, s) else AfterWord(ws, s[1..])
  }

  /** The text after its leading run of mentions. */
  function StripMentions(ws: char -> bool, s: string): string
    decreases |s|
  {
    if StartsMention(ws, s) then StripMentions(ws, AfterWord(ws, s[1..])) else s
  }

  /** What remains once mentions and prefix are gone. */
  function CommandText(ws: char -> bool, text: string, prefix: Option<string>, stripHandles: bool): Option<string> {
    var trimmed := Trim(ws, text);
    var s := if stripHandles then StripMentions(ws, trimmed) else trimmed;
    if prefix.None? then Some(s)
    else
      var stripped := StripPrefix(s, prefix.value);
      if stripped.None? then None else Some(TrimStart(ws, stripped.value))
  }

  function Parse(ws: char -> bool, text: string, prefix: Option<string>, stripHandles: bool): Option<Command> {
    var s := CommandText(ws, text, prefix, stripHandles);
    if s.None? || s.value == "" then None
    else
      var end := FindSpace(ws, s.value);
      var rest := Trim(ws, s.value[end..]);
      Some(Command(s.value[..end], SplitWhitespace(ws, rest), rest))
  }

  // ---- the code ----

  lemma {:induction false} AfterWordByPosition(ws: char -> bool, s: string)
    ensures AfterWord(ws, s) == TrimStart(ws, s[FindSpace(ws, s)..])
  {
    if s != "" && !ws(s[0]) {
      AfterWordByPosition(ws, s[1..]);
    }
  }

  /** `parse_command`. The mention loop ends because each mention shortens the text. */
  method ParseCommand(ws: char -> bool, text: string, prefix: Option<string>, stripHandles: bool)
    returns (command: Option<Command>)
    ensures command == Parse(ws, text, prefix, stripHandles)
  {
    var s := Trim(ws, text);
    if stripHandles {
      ghost var target := StripMentions(ws, s);
      while s != "" && s[0] == '@'
        invariant StripMentions(ws, s) == target
        decreases |s|
      {
        var rest := s[1..];
        var end := FindSpace(ws, rest);
        if end == 0 {
          break;
        }
        AfterWordByPosition(ws, rest);
        s := TrimStart(ws, rest[end..]);
      }
    }
    if prefix.Some? {
      var stripped := StripPrefix(s, prefix.value);
      if stripped.None? {
        return None;
      }
      s := TrimStart(ws, stripped.value);
    }
    if s == "" {
      return None;
    }
    var nameEnd := FindSpace(ws, s);
    var rest := Trim(ws, s[nameEnd..]);
    return Some(Command(s[..nameEnd], SplitWhitespace(ws, rest), rest));
  }

  // ---- facts about the string library ----

  predicate Solid(ws: char -> bool, s: string) {
    forall k :: 0 <= k < |s| ==> !ws(s[k])
  }

  predicate Blank(ws: char -> bool, s: string) {
    forall k :: 0 <= k < |s| ==> ws(s[k])
  }

  /** No whitespace at either end. */
  predicate Trimmed(ws: char -> bool, s: string) {
    s == "" || (!ws(s[0]) && !ws(s[|s| - 1]))
  }

  lemma {:induction false} TrimStartTrims(ws: char -> bool, s: string)
    ensures var r := TrimStart(ws, s);
            (r != "" ==> !ws(r[0]) && r[|r| - 1] == s[|s| - 1])
  {
    if s != "" && ws(s[0]) {
      TrimStartTrims(ws, s[1..]);
    }
  }

  lemma {:induction false} TrimEndTrims(ws: char -> bool, s: string)
    ensures var r := TrimEnd(ws, s);
            r <= s && (r != "" ==> !ws(r[|r| - 1]))
  {
    if s != "" && ws(s[|s| - 1]) {
      TrimEndTrims(ws, s[..|s| - 1]);
    }
  }

  lemma TrimTrims(ws: char -> bool, s: string)
    ensures Trimmed(ws, Trim(ws, s))
  {
    TrimStartTrims(ws, s);
    TrimEndTrims(ws, TrimStart(ws, s));
  }

  lemma TrimmedStays(ws: char -> bool, s: string)
    requires Trimmed(ws, s)
    ensures Trim(ws, s) == s
  {
  }

  lemma {:induction false} FindSpaceFinds(ws: char -> bool, s: string)
    ensures var k := FindSpace(ws, s);
            Solid(ws, s[..k]) && (k < |s| ==> ws(s[k]))
  {
    if s != "" && !ws(s[0]) {
      FindSpaceFinds(ws, s[1..]);
      var k := FindSpace(ws, s[1..]);
      assert s[..k + 1] == [s[0]] + s[1..][..k];
    }
  }

  lemma {:induction false} FindSpaceAfter(ws: char -> bool, word: string, rest: string)
    requires Solid(ws, word) && (rest == "" || ws(rest[0]))
    ensures FindSpace(ws, word + rest) == |word|
  {
    if word == "" {
      assert word + rest == rest;
    } else {
      FindSpaceAfter(ws, word[1..], rest);
      assert (word + rest)[1..] == word[1..] + rest;
    }
  }

  // ---- blanks ----

  lemma {:induction false} BlanksAreTrimmed(ws: char -> bool, gap: string, tail: string)
    requires Blank(ws, gap) && (tail == "" || !ws(tail[0]))
    ensures TrimStart(ws, gap + tail) == tail
  {
    if gap == "" {
      assert gap + tail == tail;
    } else {
      BlanksAreTrimmed(ws, gap[1..], tail);
      assert (gap + tail)[1..] == gap[1..] + tail;
    }
  }

  lemma {:induction false} EndBlanksAreTrimmed(ws: char -> bool, s: string, gap: string)
    requires Blank(ws, gap) && (s == "" || !ws(s[|s| - 1]))
    ensures TrimEnd(ws, s + gap) == s
  {
    if gap == "" {
      assert s + gap == s;
    } else {
      EndBlanksAreTrimmed(ws, s, gap[..|gap| - 1]);
      assert (s + gap)[..|s + gap| - 1] == s + gap[..|gap| - 1];
    }
  }

  lemma {:induction false} HandleEnds(ws: char -> bool, handle: string, gap: string, tail: string)
    requires Solid(ws, handle) && Blank(ws, gap) && gap != "" && tail != "" && !ws(tail[0])
    ensures AfterWord(ws, handle + (gap + tail)) == tail
  {
    var r := handle + (gap + tail);
    if handle == "" {
      BlanksAreTrimmed(ws, gap, tail);
      assert r == gap + tail && r[0] == gap[0];
    } else {
      HandleEnds(ws, handle[1..], gap, tail);
      assert r[1..] == handle[1..] + (gap + tail);
    }
  }

  /** Trimming takes off blanks and nothing else. */
  lemma {:induction false} TrimStartSplits(ws: char -> bool, s: string) returns (lead: string)
    ensures s == lead + TrimStart(ws, s) && Blank(ws, lead)
  {
    if s != "" && ws(s[0]) {
      lead := TrimStartSplits(ws, s[1..]);
      lead := [s[0]] + lead;
    } else {
      lead := "";
    }
  }

  lemma {:induction false} TrimEndSplits(ws: char -> bool, s: string) returns (trail: string)
    ensures s == TrimEnd(ws, s) + trail && Blank(ws, trail)
  {
    if s != "" && ws(s[|s| - 1]) {
      trail := TrimEndSplits(ws, s[..|s| - 1]);
      trail := trail + [s[|s| - 1]];
    } else {
      trail := "";
    }
  }

  lemma TrimSplits(ws: char -> bool, s: string) returns (lead: string, trail: string)
    ensures s == lead + Trim(ws, s) + trail && Blank(ws, lead) && Blank(ws, trail)
  {
    lead := TrimStartSplits(ws, s);
    trail := TrimEndSplits(ws, TrimStart(ws, s));
  }

  lemma TrimTakesBlanks(ws: char -> bool, lead: string, s: string, trail: string)
    requires Blank(ws, lead) && Blank(ws, trail) && Trimmed(ws, s) && s != ""
    ensures Trim(ws, lead + s + trail) == s
  {
    assert lead + s + trail == lead + (s + trail);
    BlanksAreTrimmed(ws, lead, s + trail);
    EndBlanksAreTrimmed(ws, s, trail);
  }

  // ---- how a command is written ----

  predicate IsWord(ws: char -> bool, s: string) {
    s != "" && Solid(ws, s)
  }

  /** `@handle` tokens, each with the whitespace after it. */
  function Mentions(handles: seq<string>, gaps: seq<string>): string
    requires |gaps| == |handles|
  {
    if handles == [] then "" else "@" + handles[0] + gaps[0] + Mentions(handles[1..], gaps[1..])
  }

  /** One way to write a command: whitespace, mentions, the prefix, whitespace, the name,
      whitespace, the rest, whitespace. */
  datatype Reading = Reading(lead: string, handles: seq<string>, gaps: seq<string>, afterPrefix: string,
                             name: string, gap: string, rest: string, trail: string)

  function NamePart(r: Reading): string {
    r.name + (r.gap + r.rest)
  }

  function Body(r: Reading, prefix: Option<string>): string {
    (if prefix.Some? then prefix.value else "") + (r.afterPrefix + NamePart(r))
  }

  function Spelled(r: Reading, prefix: Option<string>): string
    requires |r.gaps| == |r.handles|
  {
    r.lead + (Mentions(r.handles, r.gaps) + Body(r, prefix)) + r.trail
  }

  ghost predicate AreMentions(ws: char -> bool, handles: seq<string>, gaps: seq<string>) {
    && |gaps| == |handles|
    && forall k :: 0 <= k < |handles| ==> IsWord(ws, handles[k]) && gaps[k] != "" && Blank(ws, gaps[k])
  }

  /** Mentions only where they are stripped; no whitespace after a prefix that is not there; the
      body starts neither with whitespace nor, where mentions are stripped, with one more. */
  ghost predicate Reads(ws: char -> bool, r: Reading, prefix: Option<string>, stripHandles: bool) {
    && AreMentions(ws, r.handles, r.gaps) && (r.handles != [] ==> stripHandles)
    && Blank(ws, r.lead) && Blank(ws, r.afterPrefix) && Blank(ws, r.gap) && Blank(ws, r.trail)
    && (prefix.None? ==> r.afterPrefix == "")
    && IsWord(ws, r.name) && Trimmed(ws, r.rest) && (r.rest == "" <==> r.gap == "")
    && var body := Body(r, prefix);
       body != "" && !ws(body[0]) && (stripHandles ==> !StartsMention(ws, body))
  }

  lemma OneMentionIsStripped(ws: char -> bool, handle: string, gap: string, tail: string)
    requires IsWord(ws, handle) && gap != "" && Blank(ws, gap) && tail != "" && !ws(tail[0])
    ensures StripMentions(ws, "@" + handle + gap + tail) == StripMentions(ws, tail)
  {
    var s, r := "@" + handle + gap + tail, handle + (gap + tail);
    assert s[1..] == r && s[1] == handle[0];
    HandleEnds(ws, handle, gap, tail);
    StripOnce(ws, s, tail);
  }

  lemma StripOnce(ws: char -> bool, s: string, t: string)
    requires StartsMention(ws, s) && AfterWord(ws, s[1..]) == t
    ensures StripMentions(ws, s) == StripMentions(ws, t)
  {
  }

  lemma {:induction false} MentionsAreStripped(ws: char -> bool, handles: seq<string>, gaps: seq<string>,
                                               body: string)
    requires !ws('@') && body != "" && !ws(body[0]) && !StartsMention(ws, body) && AreMentions(ws, handles, gaps)
    ensures StripMentions(ws, Mentions(handles, gaps) + body) == body
    ensures !ws((Mentions(handles, gaps) + body)[0])
  {
    if handles == [] {
      assert Mentions(handles, gaps) + body == body;
    } else {
      var tail := Mentions(handles[1..], gaps[1..]) + body;
      MentionsAreStripped(ws, handles[1..], gaps[1..], body);
      assert Mentions(handles, gaps) + body == "@" + handles[0] + gaps[0] + tail;
      OneMentionIsStripped(ws, handles[0], gaps[0], tail);
    }
  }

  lemma NamePartParses(ws: char -> bool, r: Reading)
    requires Blank(ws, r.gap) && IsWord(ws, r.name) && Trimmed(ws, r.rest) && (r.rest == "" <==> r.gap == "")
    ensures var s := NamePart(r);
            && s != "" && !ws(s[0]) && !ws(s[|s| - 1])
            && FindSpace(ws, s) == |r.name| && s[..|r.name|] == r.name && Trim(ws, s[|r.name|..]) == r.rest
  {
    var s := NamePart(r);
    FindSpaceAfter(ws, r.name, r.gap + r.rest);
    assert s[..|r.name|] == r.name && s[|r.name|..] == r.gap + r.rest;
    BlanksAreTrimmed(ws, r.gap, r.rest);
    EndBlanksAreTrimmed(ws, r.rest, "");
    assert r.rest + "" == r.rest;
  }

  lemma CoreIsUncovered(ws: char -> bool, lead: string, handles: seq<string>, gaps: seq<string>, body: string,
                        trail: string, stripHandles: bool)
    requires !ws('@') && AreMentions(ws, handles, gaps) && (handles != [] ==> stripHandles)
    requires Blank(ws, lead) && Blank(ws, trail) && body != "" && !ws(body[0]) && !ws(body[|body| - 1])
    requires stripHandles ==> !StartsMention(ws, body)
    ensures var core := Mentions(handles, gaps) + body;
            && Trim(ws, lead + core + trail) == core
            && (if stripHandles then StripMentions(ws, core) else core) == body
  {
    var core := Mentions(handles, gaps) + body;
    if stripHandles {
      MentionsAreStripped(ws, handles, gaps, body);
    } else {
      assert core == body;
    }
    assert core[|core| - 1] == body[|body| - 1];
    TrimTakesBlanks(ws, lead, core, trail);
  }

  lemma BodyEndsSolid(ws: char -> bool, r: Reading, prefix: Option<string>)
    requires NamePart(r) != "" && !ws(NamePart(r)[|NamePart(r)| - 1])
    ensures Body(r, prefix) != "" && !ws(Body(r, prefix)[|Body(r, prefix)| - 1])
  {
    var body, part := Body(r, prefix), NamePart(r);
    assert body[|body| - 1] == part[|part| - 1];
  }

  lemma PrefixIsStripped(ws: char -> bool, text: string, prefix: Option<string>, stripHandles: bool,
                         body: string, gap: string, s: string)
    requires var trimmed := Trim(ws, text);
             body == if stripHandles then StripMentions(ws, trimmed) else trimmed
    requires body == (if prefix.Some? then prefix.value else "") + (gap + s)
    requires Blank(ws, gap) && (prefix.None? ==> gap == "") && s != "" && !ws(s[0])
    ensures CommandText(ws, text, prefix, stripHandles) == Some(s)
  {
    if prefix.Some? {
      BlanksAreTrimmed(ws, gap, s);
      assert prefix.value <= body && body[|prefix.value|..] == gap + s;
    } else {
      assert body == s;
    }
  }

  lemma CommandTextOf(ws: char -> bool, r: Reading, prefix: Option<string>, stripHandles: bool)
    requires !ws('@') && Reads(ws, r, prefix, stripHandles)
    ensures CommandText(ws, Spelled(r, prefix), prefix, stripHandles) == Some(NamePart(r))
  {
    NamePartParses(ws, r);
    BodyEndsSolid(ws, r, prefix);
    CoreIsUncovered(ws, r.lead, r.handles, r.gaps, Body(r, prefix), r.trail, stripHandles);
    PrefixIsStripped(ws, Spelled(r, prefix), prefix, stripHandles, Body(r, prefix), r.afterPrefix, NamePart(r));
  }

  lemma ParseOf(ws: char -> bool, text: string, prefix: Option<string>, stripHandles: bool, s: string, k: nat)
    requires CommandText(ws, text, prefix, stripHandles) == Some(s) && s != "" && FindSpace(ws, s) == k <= |s|
    ensures var rest := Trim(ws, s[k..]);
            Parse(ws, text, prefix, stripHandles) == Some(Command(s[..k], SplitWhitespace(ws, rest), rest))
  {
  }

  /** However a command is written, whatever the whitespace, it parses to its name, its rest and
      the words of its rest. */
  lemma ParseReads(ws: char -> bool, r: Reading, prefix: Option<string>, stripHandles: bool)
    requires !ws('@') && Reads(ws, r, prefix, stripHandles)
    ensures Parse(ws, Spelled(r, prefix), prefix, stripHandles) ==
            Some(Command(r.name, SplitWhitespace(ws, r.rest), r.rest))
  {
    NamePartParses(ws, r);
    CommandTextOf(ws, r, prefix, stripHandles);
    ParseOf(ws, Spelled(r, prefix), prefix, stripHandles, NamePart(r), |r.name|);
  }

  // ---- and nothing else is a command ----

  lemma AfterWordSplits(ws: char -> bool, s: string) returns (word: string, gap: string)
    requires AfterWord(ws, s) != ""
    ensures s == word + gap + AfterWord(ws, s) && Solid(ws, word) && Blank(ws, gap) && gap != ""
  {
    AfterWordByPosition(ws, s);
    FindSpaceFinds(ws, s);
    var k := FindSpace(ws, s);
    word := s[..k];
    gap := TrimStartSplits(ws, s[k..]);
    assert s == word + s[k..];
    assert s[k..] != "" && ws(s[k..][0]);
    TrimStartTrims(ws, s[k..]);
  }

  lemma MentionsPrepend(ws: char -> bool, word: string, gap: string, handles: seq<string>, gaps: seq<string>,
                        body: string)
    requires AreMentions(ws, handles, gaps) && IsWord(ws, word) && gap != "" && Blank(ws, gap)
    ensures AreMentions(ws, [word] + handles, [gap] + gaps)
    ensures Mentions([word] + handles, [gap] + gaps) + body == "@" + (word + gap + (Mentions(handles, gaps) + body))
  {
    assert ([word] + handles)[1..] == handles && ([gap] + gaps)[1..] == gaps;
  }

  lemma {:induction false} StripMentionsSplits(ws: char -> bool, s: string)
      returns (handles: seq<string>, gaps: seq<string>)
    requires StripMentions(ws, s) != ""
    ensures AreMentions(ws, handles, gaps) && s == Mentions(handles, gaps) + StripMentions(ws, s)
    decreases |s|
  {
    if StartsMention(ws, s) {
      var after := AfterWord(ws, s[1..]);
      var word, gap := AfterWordSplits(ws, s[1..]);
      var hs, gs := StripMentionsSplits(ws, after);
      assert s == "@" + s[1..];
      assert word != "";
      MentionsPrepend(ws, word, gap, hs, gs, StripMentions(ws, s));
      handles, gaps := [word] + hs, [gap] + gs;
    } else {
      handles, gaps := [], [];
    }
  }

  lemma EndsInBlank(ws: char -> bool, s: string, trail: string)
    requires Blank(ws, trail)
    ensures trail != "" ==> ws((s + trail)[|s + trail| - 1])
  {
  }

  lemma NamePartSplits(ws: char -> bool, u: string) returns (name: string, gap: string, rest: string)
    requires u != "" && !ws(u[0]) && !ws(u[|u| - 1])
    ensures IsWord(ws, name) && Blank(ws, gap) && Trimmed(ws, rest) && (rest == "" <==> gap == "")
    ensures u == name + (gap + rest)
  {
    var k := FindSpace(ws, u);
    FindSpaceFinds(ws, u);
    name := u[..k];
    var tail := u[k..];
    assert u == name + tail && (tail != "" ==> ws(tail[0]));
    var lead, trail := TrimSplits(ws, tail);
    gap, rest := lead, Trim(ws, tail);
    TrimTrims(ws, tail);
    EndsInBlank(ws, name + (gap + rest), trail);
    assert u == name + (gap + rest) + trail;
    EndsInBlank(ws, name, gap);
  }

  lemma BodySplits(ws: char -> bool, body: string, prefix: Option<string>, u: string) returns (afterPrefix: string)
    requires Trimmed(ws, body) && u != ""
    requires if prefix.None? then u == body
             else prefix.value <= body && u == TrimStart(ws, body[|prefix.value|..])
    ensures Blank(ws, afterPrefix) && (prefix.None? ==> afterPrefix == "")
    ensures body == (if prefix.Some? then prefix.value else "") + (afterPrefix + u)
    ensures !ws(u[0]) && !ws(u[|u| - 1])
  {
    if prefix.Some? {
      var tail := body[|prefix.value|..];
      afterPrefix := TrimStartSplits(ws, tail);
      TrimStartTrims(ws, tail);
      assert body == prefix.value + tail && u[|u| - 1] == tail[|tail| - 1] == body[|body| - 1];
    } else {
      afterPrefix := "";
      assert "" + ("" + u) == u;
    }
  }

  lemma CoreSplits(ws: char -> bool, core: string, stripHandles: bool, body: string)
    returns (handles: seq<string>, gaps: seq<string>)
    requires Trimmed(ws, core) && body != "" && body == if stripHandles then StripMentions(ws, core) else core
    ensures AreMentions(ws, handles, gaps) && (handles != [] ==> stripHandles)
    ensures core == Mentions(handles, gaps) + body
    ensures Trimmed(ws, body) && (stripHandles ==> !StartsMention(ws, body))
  {
    handles, gaps := [], [];
    if stripHandles {
      StripMentionsResult(ws, core);
      handles, gaps := StripMentionsSplits(ws, core);
    }
  }

  /** Every text that parses is written so, in one of these ways. */
  lemma ParsedIsWritten(ws: char -> bool, text: string, prefix: Option<string>, stripHandles: bool)
    returns (r: Reading)
    requires Parse(ws, text, prefix, stripHandles).Some?
    ensures Reads(ws, r, prefix, stripHandles) && Spelled(r, prefix) == text
  {
    var core := Trim(ws, text);
    var body := if stripHandles then StripMentions(ws, core) else core;
    var u := CommandText(ws, text, prefix, stripHandles).value;
    var lead, trail := TrimSplits(ws, text);
    TrimTrims(ws, text);
    EmptyHasNoPrefix(ws, body, prefix, u);
    var handles, gaps := CoreSplits(ws, core, stripHandles, body);
    var afterPrefix := BodySplits(ws, body, prefix, u);
    var name, gap, rest := NamePartSplits(ws, u);
    r := Reading(lead, handles, gaps, afterPrefix, name, gap, rest, trail);
    assert NamePart(r) == u && Body(r, prefix) == body;
  }

  lemma EmptyHasNoPrefix(ws: char -> bool, body: string, prefix: Option<string>, u: string)
    requires u != ""
    requires if prefix.None? then u == body
             else prefix.value <= body && u == TrimStart(ws, body[|prefix.value|..])
    ensures body != ""
  {
  }

  // ---- words ----

  /** Words with whitespace before, between and after them. */
  function Spaced(gaps: seq<string>, words: seq<string>): string
    requires |gaps| == |words| + 1
    decreases |words|
  {
    if words == [] then gaps[0] else gaps[0] + (words[0] + Spaced(gaps[1..], words[1..]))
  }

  ghost predicate AreSpaced(ws: char -> bool, gaps: seq<string>, words: seq<string>) {
    && |gaps| == |words| + 1
    && (forall k :: 0 <= k < |gaps| ==> Blank(ws, gaps[k]))
    && (forall k :: 0 < k < |words| ==> gaps[k] != "")
    && (forall k :: 0 <= k < |words| ==> IsWord(ws, words[k]))
  }

  lemma SplitOne(ws: char -> bool, gap: string, word: string, tail: string)
    requires Blank(ws, gap) && IsWord(ws, word) && (tail == "" || ws(tail[0]))
    ensures SplitWhitespace(ws, gap + (word + tail)) == [word] + SplitWhitespace(ws, tail)
  {
    var t := word + tail;
    BlanksAreTrimmed(ws, gap, t);
    FindSpaceAfter(ws, word, tail);
    assert t[..|word|] == word && t[|word|..] == tail;
  }

  /** The words of a text are its words, whatever the whitespace around them. */
  lemma {:induction false} SplitFindsWords(ws: char -> bool, gaps: seq<string>, words: seq<string>)
    requires AreSpaced(ws, gaps, words)
    ensures SplitWhitespace(ws, Spaced(gaps, words)) == words
    decreases |words|
  {
    if words == [] {
      BlanksAreTrimmed(ws, gaps[0], "");
      assert gaps[0] + "" == gaps[0];
    } else {
      var tail := Spaced(gaps[1..], words[1..]);
      assert tail == "" || ws(tail[0]);
      SplitFindsWords(ws, gaps[1..], words[1..]);
      SplitOne(ws, gaps[0], words[0], tail);
    }
  }

  lemma SpacedPrepend(ws: char -> bool, gap: string, word: string, gaps: seq<string>, words: seq<string>)
    requires AreSpaced(ws, gaps, words) && Blank(ws, gap) && IsWord(ws, word)
    requires words == [] || gaps[0] != ""
    ensures AreSpaced(ws, [gap] + gaps, [word] + words)
    ensures Spaced([gap] + gaps, [word] + words) == gap + (word + Spaced(gaps, words))
  {
    assert ([gap] + gaps)[1..] == gaps && ([word] + words)[1..] == words;
  }

  lemma SpacedStart(ws: char -> bool, gaps: seq<string>, words: seq<string>)
    requires AreSpaced(ws, gaps, words) && (Spaced(gaps, words) == "" || ws(Spaced(gaps, words)[0]))
    ensures words == [] || gaps[0] != ""
  {
    if words != [] {
      assert "" + (words[0] + Spaced(gaps[1..], words[1..])) == words[0] + Spaced(gaps[1..], words[1..]);
    }
  }

  lemma FirstWord(ws: char -> bool, t: string) returns (word: string, tail: string)
    requires t != "" && !ws(t[0])
    ensures t == word + tail && IsWord(ws, word) && (tail == "" || ws(tail[0]))
  {
    var k := FindSpace(ws, t);
    FindSpaceFinds(ws, t);
    word, tail := t[..k], t[k..];
  }

  lemma SplitFirst(ws: char -> bool, s: string) returns (gap: string, word: string, tail: string)
    requires TrimStart(ws, s) != ""
    ensures s == gap + (word + tail) && Blank(ws, gap) && IsWord(ws, word) && (tail == "" || ws(tail[0]))
  {
    gap := TrimStartSplits(ws, s);
    TrimStartTrims(ws, s);
    word, tail := FirstWord(ws, TrimStart(ws, s));
  }

  /** And every text is words and whitespace in turn. */
  lemma {:induction false} EveryTextIsSpaced(ws: char -> bool, s: string) returns (gaps: seq<string>)
    ensures AreSpaced(ws, gaps, SplitWhitespace(ws, s)) && Spaced(gaps, SplitWhitespace(ws, s)) == s
    decreases |s|
  {
    if TrimStart(ws, s) == "" {
      var gap := TrimStartSplits(ws, s);
      gaps := [gap];
    } else {
      var gap, word, tail := SplitFirst(ws, s);
      SplitOne(ws, gap, word, tail);
      var later := EveryTextIsSpaced(ws, tail);
      SpacedStart(ws, later, SplitWhitespace(ws, tail));
      SpacedPrepend(ws, gap, word, later, SplitWhitespace(ws, tail));
      gaps := [gap] + later;
    }
  }

  // ---- normal form ----

  lemma {:induction false} AfterWordTrims(ws: char -> bool, s: string)
    ensures var r := AfterWord(ws, s); r != "" ==> !ws(r[0]) && r[|r| - 1] == s[|s| - 1]
  {
    if s == "" || ws(s[0]) {
      TrimStartTrims(ws, s);
    } else {
      AfterWordTrims(ws, s[1..]);
    }
  }

  lemma {:induction false} StripMentionsResult(ws: char -> bool, s: string)
    requires Trimmed(ws, s)
    ensures Trimmed(ws, StripMentions(ws, s)) && !StartsMention(ws, StripMentions(ws, s))
    decreases |s|
  {
    if StartsMention(ws, s) {
      AfterWordTrims(ws, s[1..]);
      StripMentionsResult(ws, AfterWord(ws, s[1..]));
    }
  }

  // ---- printing ----

  /** `@handle` tokens, a space after each. */
  function PrintHandles(handles: seq<string>): string {
    Mentions(handles, Spaces(|handles|))
  }

  function Spaces(n: nat): seq<string> {
    seq(n, _ => " ")
  }

  function Tail(rest: string): string {
    if rest == "" then "" else " " + rest
  }

  function PrintBody(prefix: Option<string>, name: string, rest: string): string {
    (if prefix.Some? then prefix.value else "") + (name + Tail(rest))
  }

  /** What printing needs to be read back: the body starts neither with whitespace nor, where
      mentions are stripped, with one. */
  predicate Readable(ws: char -> bool, prefix: Option<string>, stripHandles: bool, name: string, rest: string) {
    var body := PrintBody(prefix, name, rest);
    && IsWord(ws, name) && Trimmed(ws, rest)
    && !ws(body[0]) && (stripHandles ==> !StartsMention(ws, body))
  }

  /** The facts about the Unicode table that are used. */
  predicate SpaceTable(ws: char -> bool) {
    ws(' ') && !ws('@')
  }

  /** Printing mentions, prefix, name and rest, and parsing, gives the same name, rest and
      words back. */
  lemma ParseInvertsPrint(ws: char -> bool, handles: seq<string>, prefix: Option<string>, stripHandles: bool,
                          name: string, rest: string)
    requires SpaceTable(ws) && Readable(ws, prefix, stripHandles, name, rest)
    requires forall k :: 0 <= k < |handles| ==> IsWord(ws, handles[k])
    requires handles != [] ==> stripHandles
    ensures Parse(ws, PrintHandles(handles) + PrintBody(prefix, name, rest), prefix, stripHandles) ==
            Some(Command(name, SplitWhitespace(ws, rest), rest))
  {
    var r := PrintedReading(ws, handles, prefix, stripHandles, name, rest);
    ParseReads(ws, r, prefix, stripHandles);
  }

  lemma PrintedReading(ws: char -> bool, handles: seq<string>, prefix: Option<string>, stripHandles: bool,
                       name: string, rest: string) returns (r: Reading)
    requires SpaceTable(ws) && Readable(ws, prefix, stripHandles, name, rest)
    requires forall k :: 0 <= k < |handles| ==> IsWord(ws, handles[k])
    requires handles != [] ==> stripHandles
    ensures Reads(ws, r, prefix, stripHandles) && r.name == name && r.rest == rest
    ensures Spelled(r, prefix) == PrintHandles(handles) + PrintBody(prefix, name, rest)
  {
    var gap := if rest == "" then "" else " ";
    r := Reading("", handles, Spaces(|handles|), "", name, gap, rest, "");
    assert gap + rest == Tail(rest);
    assert "" + NamePart(r) == NamePart(r);
    assert Body(r, prefix) == PrintBody(prefix, name, rest);
    Padded(PrintHandles(handles) + PrintBody(prefix, name, rest));
  }

  lemma Padded(s: string)
    ensures "" + s + "" == s
  {
  }

  /** Parsing a text, printing the command and parsing again gives the same command. */
  predicate RoundTrips(ws: char -> bool, text: string, prefix: Option<string>, stripHandles: bool) {
    var command := Parse(ws, text, prefix, stripHandles);
    command.None? ||
    Parse(ws, PrintBody(prefix, command.value.name, command.value.rest), prefix, stripHandles) == command
  }

  lemma ReadingIsReadable(ws: char -> bool, r: Reading, prefix: Option<string>, stripHandles: bool)
    requires SpaceTable(ws) && Reads(ws, r, prefix, stripHandles)
    requires !(stripHandles && prefix == Some("@"))
    ensures Readable(ws, prefix, stripHandles, r.name, r.rest)
  {
    var written, body := Body(r, prefix), PrintBody(prefix, r.name, r.rest);
    if prefix.Some? && prefix.value != "" {
      assert body[0] == prefix.value[0] == written[0];
      SharedPrefix(ws, prefix.value, written, body, stripHandles);
    } else {
      assert body == r.name + Tail(r.rest) && written == r.afterPrefix + NamePart(r);
      assert r.afterPrefix <= written;
      assert r.name <= written;
      NameStart(ws, written, r.name, r.rest, stripHandles);
    }
  }

  /** A body that shares a beginning with a text that does not start with a mention does not
      start with one either, unless that beginning is a lone `@`. */
  lemma SharedPrefix(ws: char -> bool, lead: string, s: string, body: string, stripHandles: bool)
    requires lead != "" && lead <= s && lead <= body && !(stripHandles && lead == "@")
    requires stripHandles ==> !StartsMention(ws, s)
    ensures stripHandles ==> !StartsMention(ws, body)
  {
  }

  lemma NameStart(ws: char -> bool, s: string, name: string, rest: string, stripHandles: bool)
    requires SpaceTable(ws) && name != "" && name <= s && (stripHandles ==> !StartsMention(ws, s))
    ensures stripHandles ==> !StartsMention(ws, name + Tail(rest))
  {
  }

  /** This holds of every text, unless mentions are stripped and the prefix is a lone `@`:
      then a command is printed as what is read as a mention. */
  lemma RoundTripsIffPrefixIsNotAMention(ws: char -> bool, prefix: Option<string>, stripHandles: bool)
    requires SpaceTable(ws) && !ws('x')
    ensures (forall text :: RoundTrips(ws, text, prefix, stripHandles)) <==> !(stripHandles && prefix == Some("@"))
  {
    if stripHandles && prefix == Some("@") {
      LoneAtDoesNotRoundTrip(ws);
    } else {
      forall text
        ensures RoundTrips(ws, text, prefix, stripHandles)
      {
        var command := Parse(ws, text, prefix, stripHandles);
        if command.Some? {
          var r := ParsedIsWritten(ws, text, prefix, stripHandles);
          ParseReads(ws, r, prefix, stripHandles);
          ReadingIsReadable(ws, r, prefix, stripHandles);
          ParseInvertsPrint(ws, [], prefix, stripHandles, command.value.name, command.value.rest);
          assert PrintHandles([]) + PrintBody(prefix, command.value.name, command.value.rest) ==
                 PrintBody(prefix, command.value.name, command.value.rest);
        }
      }
    }
  }

  lemma LoneAtDoesNotRoundTrip(ws: char -> bool)
    requires SpaceTable(ws) && !ws('x')
    ensures !RoundTrips(ws, "@ x", Some("@"), true)
  {
    var text, body := "@ x", "@x";
    TrimmedStays(ws, text);
    BlanksAreTrimmed(ws, " ", "x");
    assert StripMentions(ws, text) == text && text[|"@"|..] == " " + "x";
    assert CommandText(ws, text, Some("@"), true) == Some("x");
    assert "x"[1..] == "" && FindSpace(ws, "x") == 1 && Trim(ws, "") == "";
    var c := Parse(ws, text, Some("@"), true).value;
    assert c.name == "x" && c.rest == "" && PrintBody(Some("@"), "x", "") == body;
    TrimmedStays(ws, body);
    assert body[1..] == "x" && AfterWord(ws, "x") == AfterWord(ws, "");
    StripOnce(ws, body, "");
    assert CommandText(ws, body, Some("@"), true) == None;
  }
}
