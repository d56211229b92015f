/** `decode_entities` of `src/embed.rs`. */
module Entities {
  import opened Numerals
  import opened Wrappers

  // ---- characters and numbers ----

  /** The length of a character in UTF-8. */
  function Utf8Len(c: char): nat {
    if c as int < 0x80 then 1 else if c as int < 0x800 then 2 else if c as int < 0x1_0000 then 3 else 4
  }

  function Bytes(s: string): nat {
    if s == "" then 0 else Utf8Len(s[0]) + Bytes(s[1..])
  }

  /** `char::from_u32`: surrogates and numbers past the last code point are refused. */
  function FromU32(n: nat): Option<char> {
    if n < 0xD800 || 0xE000 <= n < 0x11_0000 then Some(n as char) else None
  }

  /** The two number systems of references. */
  type Radix = r: nat | r == 10 || r == 16 witness 10

  function Times(n: nat, radix: Radix): nat {
    if radix == 16 then 16 * n else 10 * n
  }

  function DigitValue(c: char, radix: Radix): Option<nat> {
    var v := if '0' <= c <= '9' then c as int - '0' as int
             else if 'a' <= c <= 'f' then c as int - 'a' as int + 10
             else if 'A' <= c <= 'F' then c as int - 'A' as int + 10
             else radix;
    if v < radix then Some(v) else None
  }

  /** The number that a row of digits stands for. */
  function Number(s: string, radix: Radix): Option<nat> {
    if s == "" then Some(0)
    else
      var high, low := Number(s[..|s| - 1], radix), DigitValue(s[|s| - 1], radix);
      if high.Some? && low.Some? then Some(Times(high.value, radix) + low.value) else None
  }

  const MAX_U32 := 0xffff_ffff

  /** The library's unsigned parsing: an optional plus sign, at least one digit, 32 bits. */
  function ParseU32(s: string, radix: Radix): Option<nat> {
    var digits := if s != "" && s[0] == '+' then s[1..] else s;
    if digits == "" then None
    else
      var n := Number(digits, radix);
      if n.Some? && n.value <= MAX_U32 then n else None
  }

  function FromNumber(n: Option<nat>): Option<char> {
    if n.Some? then FromU32(n.value) else None
  }

  // ---- one entity ----

  function DecodeName(e: string): Option<char> {
    if e == "amp" then Some('&')
    else if e == "lt" then Some('<')
    else if e == "gt" then Some('>')
    else if e == "quot" then Some('"')
    else if e == "apos" then Some('\'')
    else if e == "nbsp" then Some('\U{a0}')
    else None
  }

  /** A reference by number; the apostrophe's usual ones are arms of their own. */
  function DecodeReference(e: string): Option<char>
    requires e != ""
  {
    if e == "#39" || e == "#x27" || e == "#X27" then Some('\'')
    else if |e| >= 2 && (e[1] == 'x' || e[1] == 'X') then FromNumber(ParseU32(e[2..], 16))
    else FromNumber(ParseU32(e[1..], 10))
  }

  /** What stands between `&` and `;`, decoded. */
  function DecodeEntity(e: string): Option<char> {
    if e != "" && e[0] == '#' then DecodeReference(e) else DecodeName(e)
  }

  /** The position of the first `c`, or the length. */
  function IndexOf(s: string, c: char): (i: nat)
    ensures i <= |s|
    ensures i < |s| ==> s[i] == c
  {
    if s == "" || s[0] == c then 0 else 1 + IndexOf(s[1..], c)
  }

  const MAX_ENTITY := 10

  /** The end of the entity that `tail` begins with: its first `;`, at most ten bytes in. */
  function EntityEnd(tail: string): Option<nat> {
    var p := IndexOf(tail, ';');
    if p < |tail| && Bytes(tail[..p]) <= MAX_ENTITY then Some(p) else None
  }

  /** What the text at an `&` decodes to, and how many characters that takes. */
  function DecodeAmp(tail: string): (char, nat)
    requires tail != "" && tail[0] == '&'
    ensures 1 <= DecodeAmp(tail).1 <= |tail|
  {
    var p := EntityEnd(tail);
    if p.Some? && p.value >= 1 && DecodeEntity(tail[1..p.value]).Some? then
      (DecodeEntity(tail[1..p.value]).value, p.value + 1)
    else
      ('&', 1)
  }

  function Decode(s: string): string
    decreases |s|
  {
    if s == "" then ""
    else if s[0] != '&' then [s[0]] + Decode(s[1..])
    else [DecodeAmp(s).0] + Decode(s[DecodeAmp(s).1..])
  }

  // ---- the code ----

  lemma {:induction false} DecodePlain(s: string, k: nat)
    requires k <= IndexOf(s, '&')
    ensures Decode(s) == s[..k] + Decode(s[k..])
    decreases k
  {
    if k == 0 {
      assert s[0..] == s;
    } else {
      var rest := s[1..];
      DecodePlain(rest, k - 1);
      assert rest[k - 1..] == s[k..] && [s[0]] + rest[..k - 1] == s[..k];
      Regroup("", [s[0]], rest[..k - 1], Decode(s[k..]));
      assert Decode(s) == [s[0]] + Decode(rest);
    }
  }

  lemma DecodeStep(tail: string)
    requires tail != "" && tail[0] == '&'
    ensures Decode(tail) == [DecodeAmp(tail).0] + Decode(tail[DecodeAmp(tail).1..])
  {
  }

  /** The decision at an `&`: the character to emit, and where to go on. */
  method DecodeAt(tail: string) returns (c: char, rest: string)
    requires tail != "" && tail[0] == '&'
    ensures Decode(tail) == [c] + Decode(rest) && |rest| < |tail|
  {
    DecodeStep(tail);
    var semi := EntityEnd(tail);
    match semi {
      case Some(p) =>
        var decoded := DecodeEntity(tail[1..p]);
        match decoded {
          case Some(d) => return d, tail[p + 1..];
          case None => return '&', tail[1..];
        }
      case None =>
        return '&', tail[1..];
    }
  }

  /** `decode_entities`. */
  method DecodeEntities(s: string) returns (out: string)
    ensures out == Decode(s)
  {
    ghost var all := Decode(s);
    var amp := IndexOf(s, '&');
    DecodePlain(s, amp);
    if amp == |s| {
      return s;
    }
    out := "";
    var rest := s;
    while amp < |rest|
      invariant amp == IndexOf(rest, '&') && out + Decode(rest) == all
      decreases |rest|
    {
      DecodePlain(rest, amp);
      ghost var done := out;
      out := out + rest[..amp];
      ghost var plain := rest[..amp];
      var c;
      c, rest := DecodeAt(rest[amp..]);
      Regroup(done, plain, [c], Decode(rest));
      out := out + [c];
      amp := IndexOf(rest, '&');
    }
    DecodePlain(rest, |rest|);
    out := out + rest;
  }

  lemma Regroup(a: string, b: string, c: string, d: string)
    ensures (a + b + c) + d == a + (b + (c + d))
    ensures (b + c) + d == b + (c + d)
  {
  }

  // ---- decoding never lengthens ----

  lemma {:induction false} BytesConcat(a: string, b: string)
    ensures Bytes(a + b) == Bytes(a) + Bytes(b)
  {
    if a == "" {
      assert a + b == b;
    } else {
      BytesConcat(a[1..], b);
      assert (a + b)[1..] == a[1..] + b;
    }
  }

  lemma {:induction false} BytesAtLeastLength(s: string)
    ensures Bytes(s) >= |s|
  {
    if s != "" {
      BytesAtLeastLength(s[1..]);
    }
  }

  lemma AmpNeverLengthens(tail: string)
    requires tail != "" && tail[0] == '&'
    ensures Utf8Len(DecodeAmp(tail).0) <= Bytes(tail[..DecodeAmp(tail).1])
  {
    var taken := tail[..DecodeAmp(tail).1];
    BytesAtLeastLength(taken);
    if DecodeAmp(tail).1 > 1 {
      var e := tail[1..DecodeAmp(tail).1 - 1];
      assert DecodeEntity(e).Some?;
      assert |e| >= 2;
    }
  }

  /** The output fits in the buffer of the input's size that is set aside for it. */
  lemma {:induction false} DecodingNeverLengthens(s: string)
    ensures Bytes(Decode(s)) <= Bytes(s)
    decreases |s|
  {
    if s != "" {
      var k := if s[0] == '&' then DecodeAmp(s).1 else 1;
      var c := if s[0] == '&' then DecodeAmp(s).0 else s[0];
      DecodingNeverLengthens(s[k..]);
      BytesConcat(s[..k], s[k..]);
      BytesConcat([c], Decode(s[k..]));
      assert s[..k] + s[k..] == s;
      if s[0] == '&' {
        AmpNeverLengthens(s);
      }
    }
  }

  /** A text without an entity to end is left alone, ampersands included. */
  lemma {:induction false} TextWithoutSemicolonIsUnchanged(s: string)
    requires IndexOf(s, ';') == |s|
    ensures Decode(s) == s
  {
    if s != "" {
      TextWithoutSemicolonIsUnchanged(s[1..]);
    }
  }

  // ---- decoding inverts every escaping ----

  /** A digit of a number, and whether its letter is a capital. */
  datatype Glyph = Glyph(value: nat, upper: bool)

  function GlyphChar(g: Glyph): char
    requires g.value < 16
  {
    if g.value < 10 then ('0' as nat + g.value) as char
    else if g.upper then ('A' as nat + g.value - 10) as char
    else ('a' as nat + g.value - 10) as char
  }

  predicate AreDigits(gs: seq<Glyph>, radix: Radix) {
    forall k :: 0 <= k < |gs| ==> gs[k].value < radix
  }

  function Render(gs: seq<Glyph>): string
    requires AreDigits(gs, 16)
  {
    if gs == [] then "" else Render(gs[..|gs| - 1]) + [GlyphChar(gs[|gs| - 1])]
  }

  /** A number as it is written in a reference. */
  function NumberText(plus: bool, gs: seq<Glyph>): string
    requires AreDigits(gs, 16)
  {
    (if plus then "+" else "") + Render(gs)
  }

  function ValueOf(gs: seq<Glyph>, radix: Radix): nat {
    if gs == [] then 0 else Times(ValueOf(gs[..|gs| - 1], radix), radix) + gs[|gs| - 1].value
  }

  /** One way to write one character: as it is, by its name, or by its code point in digits, any
      zeros in front, a plus sign allowed. */
  datatype Piece =
    | Raw(c: char)
    | Named(c: char)
    | DecimalRef(plus: bool, gs: seq<Glyph>)
    | HexRef(x: char, plus: bool, gs: seq<Glyph>)

  function NameFor(c: char): Option<string> {
    match c
    case '&' => Some("amp")
    case '<' => Some("lt")
    case '>' => Some("gt")
    case '"' => Some("quot")
    case '\'' => Some("apos")
    case '\U{a0}' => Some("nbsp")
    case _ => None
  }

  /** The numbers of Unicode characters. */
  predicate IsScalar(n: nat) {
    n <= 0xD7FF || 0xE000 <= n <= 0x10_FFFF
  }

  predicate WellFormed(p: Piece) {
    match p
    case Raw(c) => c != '&'
    case Named(c) => NameFor(c).Some?
    case DecimalRef(_, gs) => gs != [] && AreDigits(gs, 10) && IsScalar(ValueOf(gs, 10)) && |Entity(p)| <= 9
    case HexRef(x, _, gs) =>
      gs != [] && (x == 'x' || x == 'X') && AreDigits(gs, 16) && IsScalar(ValueOf(gs, 16)) && |Entity(p)| <= 9
  }

  /** What stands between `&` and `;`. */
  function Entity(p: Piece): string {
    match p
    case Raw(c) => [c]
    case Named(c) => if NameFor(c).Some? then NameFor(c).value else ""
    case DecimalRef(plus, gs) => if AreDigits(gs, 16) then "#" + NumberText(plus, gs) else ""
    case HexRef(x, plus, gs) => if AreDigits(gs, 16) then "#" + [x] + NumberText(plus, gs) else ""
  }

  function Written(p: Piece): string {
    if p.Raw? then [p.c] else "&" + Entity(p) + ";"
  }

  /** The character that a piece stands for. */
  function Meaning(p: Piece): char
    requires WellFormed(p)
  {
    match p
    case Raw(c) => c
    case Named(c) => c
    case DecimalRef(_, gs) => ValueOf(gs, 10) as char
    case HexRef(_, _, gs) => ValueOf(gs, 16) as char
  }

  ghost predicate AllWellFormed(ps: seq<Piece>) {
    forall k :: 0 <= k < |ps| ==> WellFormed(ps[k])
  }

  function WrittenAll(ps: seq<Piece>): string {
    if ps == [] then "" else Written(ps[0]) + WrittenAll(ps[1..])
  }

  function MeaningOfAll(ps: seq<Piece>): string
    requires AllWellFormed(ps)
  {
    if ps == [] then "" else [Meaning(ps[0])] + MeaningOfAll(ps[1..])
  }

  // ---- digits ----

  lemma GlyphReads(g: Glyph, radix: Radix)
    requires g.value < radix
    ensures DigitValue(GlyphChar(g), radix) == Some(g.value)
    ensures GlyphChar(g) as int < 0x80 && GlyphChar(g) != ';' && GlyphChar(g) != '+'
    ensures GlyphChar(g) != 'x' && GlyphChar(g) != 'X'
  {
  }

  /** Characters that can stand in an entity: ASCII, and not `;`. */
  predicate Plain(s: string) {
    forall k :: 0 <= k < |s| ==> s[k] as int < 0x80 && s[k] != ';'
  }

  lemma NumberAppends(s: string, c: char, radix: Radix)
    ensures var high, low := Number(s, radix), DigitValue(c, radix);
            Number(s + [c], radix) ==
              if high.Some? && low.Some? then Some(Times(high.value, radix) + low.value) else None
  {
    assert (s + [c])[..|s|] == s;
  }

  lemma GlyphAppends(s: string, v: nat, g: Glyph, radix: Radix)
    requires Number(s, radix) == Some(v) && g.value < radix
    ensures Number(s + [GlyphChar(g)], radix) == Some(Times(v, radix) + g.value)
  {
    GlyphReads(g, radix);
    NumberAppends(s, GlyphChar(g), radix);
  }

  lemma {:induction false} RenderIsPlain(gs: seq<Glyph>)
    requires AreDigits(gs, 16)
    ensures Plain(Render(gs)) && |Render(gs)| == |gs|
    ensures gs != [] ==> Render(gs)[0] != '+' && Render(gs)[0] != 'x' && Render(gs)[0] != 'X'
  {
    if gs != [] {
      RenderIsPlain(gs[..|gs| - 1]);
      GlyphReads(gs[|gs| - 1], 16);
    }
  }

  lemma {:induction false} RenderReads(gs: seq<Glyph>, radix: Radix)
    requires AreDigits(gs, radix)
    ensures Number(Render(gs), radix) == Some(ValueOf(gs, radix))
  {
    if gs != [] {
      var before, last := gs[..|gs| - 1], gs[|gs| - 1];
      RenderReads(before, radix);
      var s := Render(before);
      GlyphAppends(s, ValueOf(before, radix), last, radix);
      assert Render(gs) == s + [GlyphChar(last)];
      assert ValueOf(gs, radix) == Times(ValueOf(before, radix), radix) + last.value;
    }
  }

  lemma DigitsParse(s: string, digits: string, radix: Radix, v: nat)
    requires digits != "" && digits[0] != '+' && (s == digits || s == "+" + digits)
    requires Number(digits, radix) == Some(v) && IsScalar(v)
    ensures FromNumber(ParseU32(s, radix)) == Some(v as char)
  {
    assert s == "+" + digits ==> s[1..] == digits;
  }

  lemma NumberParses(plus: bool, gs: seq<Glyph>, radix: Radix)
    requires gs != [] && AreDigits(gs, radix) && IsScalar(ValueOf(gs, radix))
    ensures FromNumber(ParseU32(NumberText(plus, gs), radix)) == Some(ValueOf(gs, radix) as char)
  {
    RenderReads(gs, radix);
    RenderIsPlain(gs);
    assert "" + Render(gs) == Render(gs);
    DigitsParse(NumberText(plus, gs), Render(gs), radix, ValueOf(gs, radix));
  }

  // ---- every spelling decodes ----

  lemma NamesDecode(c: char)
    requires NameFor(c).Some?
    ensures DecodeEntity(NameFor(c).value) == Some(c) && Plain(NameFor(c).value)
  {
  }

  lemma ApostropheNumbers()
    ensures ParseU32("39", 10) == Some(39) && ParseU32("27", 16) == Some(39)
  {
    assert "39"[..1] == "3" && "3"[..0] == "" && "27"[..1] == "2" && "2"[..0] == "";
    assert Number("3", 10) == Some(3) && Number("2", 16) == Some(2);
  }

  /** The apostrophe's references are no exception: they read as the number they hold. */
  lemma ReferenceIsItsNumber(e: string)
    requires e != "" && e[0] == '#'
    ensures DecodeEntity(e) ==
            if |e| >= 2 && (e[1] == 'x' || e[1] == 'X') then FromNumber(ParseU32(e[2..], 16))
            else FromNumber(ParseU32(e[1..], 10))
  {
    if e == "#39" || e == "#x27" || e == "#X27" {
      ApostropheNumbers();
      assert e == "#39" ==> e[1..] == "39";
      assert e == "#x27" || e == "#X27" ==> e[2..] == "27";
    }
  }

  lemma DecimalReference(digits: string)
    requires digits != "" && digits[0] != 'x' && digits[0] != 'X'
    ensures DecodeEntity("#" + digits) == FromNumber(ParseU32(digits, 10))
  {
    assert ("#" + digits)[1..] == digits;
    ReferenceIsItsNumber("#" + digits);
  }

  lemma HexReference(x: char, digits: string)
    requires x == 'x' || x == 'X'
    ensures DecodeEntity("#" + [x] + digits) == FromNumber(ParseU32(digits, 16))
  {
    assert ("#" + [x] + digits)[2..] == digits;
    ReferenceIsItsNumber("#" + [x] + digits);
  }

  lemma NumberTextIsPlain(plus: bool, gs: seq<Glyph>, radix: Radix)
    requires gs != [] && AreDigits(gs, radix)
    ensures var s := NumberText(plus, gs);
            Plain(s) && s != "" && s[0] != 'x' && s[0] != 'X'
  {
    RenderIsPlain(gs);
  }

  lemma DecimalDecodes(plus: bool, gs: seq<Glyph>)
    requires gs != [] && AreDigits(gs, 10) && IsScalar(ValueOf(gs, 10))
    ensures var e := "#" + NumberText(plus, gs);
            DecodeEntity(e) == Some(ValueOf(gs, 10) as char) && Plain(e)
  {
    NumberTextIsPlain(plus, gs, 10);
    NumberParses(plus, gs, 10);
    DecimalReference(NumberText(plus, gs));
  }

  lemma HexDecodes(x: char, plus: bool, gs: seq<Glyph>)
    requires gs != [] && (x == 'x' || x == 'X') && AreDigits(gs, 16) && IsScalar(ValueOf(gs, 16))
    ensures var e := "#" + [x] + NumberText(plus, gs);
            DecodeEntity(e) == Some(ValueOf(gs, 16) as char) && Plain(e)
  {
    NumberTextIsPlain(plus, gs, 16);
    NumberParses(plus, gs, 16);
    HexReference(x, NumberText(plus, gs));
  }

  /** Every spelling of a character is short, plain ASCII, and decodes to it. */
  lemma EntityDecodes(p: Piece)
    requires !p.Raw? && WellFormed(p)
    ensures DecodeEntity(Entity(p)) == Some(Meaning(p))
    ensures Plain(Entity(p)) && |Entity(p)| <= MAX_ENTITY - 1
  {
    match p
    case Named(c) => NamesDecode(c);
    case DecimalRef(plus, gs) => DecimalDecodes(plus, gs);
    case HexRef(x, plus, gs) => HexDecodes(x, plus, gs);
  }

  lemma {:induction false} PlainBytes(s: string)
    requires Plain(s)
    ensures Bytes(s) == |s|
  {
    if s != "" {
      PlainBytes(s[1..]);
    }
  }

  lemma {:induction false} IndexAfterPlain(s: string, rest: string)
    requires Plain(s)
    ensures IndexOf(s + ";" + rest, ';') == |s|
  {
    var t := s + ";" + rest;
    if s != "" {
      IndexAfterPlain(s[1..], rest);
      assert t[1..] == s[1..] + ";" + rest;
    }
  }

  lemma EntityIsTaken(e: string, rest: string)
    requires Plain(e) && |e| < MAX_ENTITY && DecodeEntity(e).Some?
    ensures DecodeAmp("&" + e + ";" + rest) == (DecodeEntity(e).value, |e| + 2)
  {
    var s, p := "&" + e + ";" + rest, |e| + 1;
    IndexAfterPlain("&" + e, rest);
    PlainBytes("&" + e);
    assert s[..p] == "&" + e && s[1..p] == e;
    assert EntityEnd(s) == Some(p);
  }

  /** A piece is taken whole and becomes the character it stands for. */
  lemma PieceDecodes(p: Piece, rest: string)
    requires WellFormed(p)
    ensures Decode(Written(p) + rest) == [Meaning(p)] + Decode(rest)
  {
    var s := Written(p) + rest;
    if p.Raw? {
      assert s[1..] == rest;
    } else {
      var e := Entity(p);
      EntityDecodes(p);
      assert s == "&" + e + ";" + rest;
      EntityIsTaken(e, rest);
      assert s[|e| + 2..] == rest;
    }
  }

  /** Whatever mix of ways a text was escaped in, decoding gives the text back. */
  lemma {:induction false} DecodingInvertsEscaping(ps: seq<Piece>)
    requires AllWellFormed(ps)
    ensures Decode(WrittenAll(ps)) == MeaningOfAll(ps)
  {
    if ps != [] {
      PieceDecodes(ps[0], WrittenAll(ps[1..]));
      DecodingInvertsEscaping(ps[1..]);
    }
  }

  // ---- and nothing else decodes ----

  function GlyphOf(c: char): Glyph {
    if '0' <= c <= '9' then Glyph(c as nat - '0' as nat, false)
    else if 'a' <= c <= 'f' then Glyph(c as nat - 'a' as nat + 10, false)
    else if 'A' <= c <= 'F' then Glyph(c as nat - 'A' as nat + 10, true)
    else Glyph(16, false)
  }

  lemma GlyphOfReads(c: char, radix: Radix)
    requires DigitValue(c, radix).Some?
    ensures GlyphOf(c).value == DigitValue(c, radix).value < radix && GlyphChar(GlyphOf(c)) == c
  {
  }

  function GlyphsOf(s: string): (gs: seq<Glyph>)
    ensures |gs| == |s|
  {
    if s == "" then [] else GlyphsOf(s[..|s| - 1]) + [GlyphOf(s[|s| - 1])]
  }

  lemma {:induction false} GlyphsRender(s: string, radix: Radix)
    requires Number(s, radix).Some?
    ensures AreDigits(GlyphsOf(s), radix) && Render(GlyphsOf(s)) == s
    ensures ValueOf(GlyphsOf(s), radix) == Number(s, radix).value
  {
    if s != "" {
      var gs := GlyphsOf(s);
      GlyphsRender(s[..|s| - 1], radix);
      GlyphOfReads(s[|s| - 1], radix);
      assert gs[..|gs| - 1] == GlyphsOf(s[..|s| - 1]) && gs[|gs| - 1] == GlyphOf(s[|s| - 1]);
    }
  }

  lemma ParsedDigits(s: string, radix: Radix, digits: string)
    requires FromNumber(ParseU32(s, radix)).Some? && digits == if s != "" && s[0] == '+' then s[1..] else s
    ensures digits != "" && Number(digits, radix).Some? && IsScalar(Number(digits, radix).value)
    ensures FromNumber(ParseU32(s, radix)) == Some(Number(digits, radix).value as char)
  {
  }

  lemma ParsedIsRendered(s: string, radix: Radix) returns (plus: bool, gs: seq<Glyph>)
    requires FromNumber(ParseU32(s, radix)).Some?
    ensures gs != [] && AreDigits(gs, radix) && IsScalar(ValueOf(gs, radix))
    ensures s == NumberText(plus, gs)
    ensures FromNumber(ParseU32(s, radix)) == Some(ValueOf(gs, radix) as char)
  {
    plus := s[0] == '+';
    var digits := if plus then s[1..] else s;
    gs := GlyphsOf(digits);
    ParsedDigits(s, radix, digits);
    GlyphsRender(digits, radix);
    assert s == (if plus then "+" else "") + digits;
  }

  /** What decodes, within the length that is looked at, is one of the spellings. */
  lemma DecodedIsSpelled(e: string) returns (p: Piece)
    requires DecodeEntity(e).Some? && |e| <= MAX_ENTITY - 1
    ensures !p.Raw? && WellFormed(p) && Entity(p) == e && Meaning(p) == DecodeEntity(e).value
  {
    if e == "" || e[0] != '#' {
      p := Named(DecodeEntity(e).value);
    } else {
      ReferenceIsItsNumber(e);
      if |e| >= 2 && (e[1] == 'x' || e[1] == 'X') {
        var plus, gs := ParsedIsRendered(e[2..], 16);
        p := HexRef(e[1], plus, gs);
        assert e == "#" + [e[1]] + e[2..];
      } else {
        var plus, gs := ParsedIsRendered(e[1..], 10);
        p := DecimalRef(plus, gs);
        assert e == "#" + e[1..];
      }
    }
  }

  lemma TakenEntity(tail: string) returns (e: string)
    requires tail != "" && tail[0] == '&' && DecodeAmp(tail).1 > 1
    ensures DecodeEntity(e).Some? && |e| <= MAX_ENTITY - 1 && "&" + e + ";" <= tail
  {
    var k := EntityEnd(tail).value;
    e := tail[1..k];
    BytesAtLeastLength(tail[..k]);
    assert "&" + e + ";" == tail[..k + 1];
  }

  lemma TakenIsSpelled(tail: string) returns (p: Piece)
    requires tail != "" && tail[0] == '&' && DecodeAmp(tail).1 > 1
    ensures WellFormed(p) && !p.Raw? && Written(p) <= tail
  {
    var e := TakenEntity(tail);
    p := DecodedIsSpelled(e);
  }

  /** An ampersand is decoded if and only if a spelling of some character begins there, and then
      to that character; otherwise it stays, and what follows is decoded by itself. */
  lemma AmpersandDecodesIff(tail: string)
    requires tail != "" && tail[0] == '&'
    ensures forall p :: WellFormed(p) && !p.Raw? && Written(p) <= tail ==>
              Decode(tail) == [Meaning(p)] + Decode(tail[|Written(p)|..])
    ensures (forall p :: WellFormed(p) && !p.Raw? ==> !(Written(p) <= tail)) ==>
              Decode(tail) == "&" + Decode(tail[1..])
  {
    forall p | WellFormed(p) && !p.Raw? && Written(p) <= tail
      ensures Decode(tail) == [Meaning(p)] + Decode(tail[|Written(p)|..])
    {
      SpellingDecodes(tail, p);
    }
    if DecodeAmp(tail).1 > 1 {
      var p := TakenIsSpelled(tail);
    }
  }

  lemma SpellingDecodes(tail: string, p: Piece)
    requires WellFormed(p) && Written(p) <= tail
    ensures Decode(tail) == [Meaning(p)] + Decode(tail[|Written(p)|..])
  {
    PrefixAndRest(Written(p), tail);
    PieceDecodes(p, tail[|Written(p)|..]);
  }

  lemma PrefixAndRest(w: string, tail: string)
    requires w <= tail
    ensures tail == w + tail[|w|..]
  {
  }

  lemma {:induction false} NoneBefore(s: string, c: char, k: nat)
    requires k <= |s| && c !in s[..k]
    ensures IndexOf(s, c) >= k
  {
    if k > 0 {
      assert s[0] in s[..k] && s[1..][..k - 1] == s[..k][1..];
      NoneBefore(s[1..], c, k - 1);
    }
  }

  lemma SameEntity(d: string, e: string, rest: string)
    requires Plain(d) && Plain(e) && "&" + d + ";" <= "&" + e + ";" + rest
    ensures d == e
  {
    var tail, more := "&" + e + ";" + rest, ("&" + e + ";" + rest)[|d| + 2..];
    assert tail == "&" + d + ";" + more;
    IndexAfterPlain("&" + d, more);
    IndexAfterPlain("&" + e, rest);
    assert d == tail[1..|d| + 1] && e == tail[1..|e| + 1];
  }

  lemma NoSpellingBegins(e: string, rest: string)
    requires Plain(e) && forall p :: WellFormed(p) && !p.Raw? ==> Entity(p) != e
    ensures forall p :: WellFormed(p) && !p.Raw? ==> !(Written(p) <= "&" + e + ";" + rest)
  {
    forall p | WellFormed(p) && !p.Raw?
      ensures !(Written(p) <= "&" + e + ";" + rest)
    {
      EntityDecodes(p);
      if Written(p) <= "&" + e + ";" + rest {
        SameEntity(Entity(p), e, rest);
      }
    }
  }

  /** So an entity that is not among them is left as it stands. */
  lemma UnknownEntityStays(e: string, rest: string)
    requires Plain(e) && '&' !in e && forall p :: WellFormed(p) && !p.Raw? ==> Entity(p) != e
    ensures Decode("&" + e + ";" + rest) == "&" + e + ";" + Decode(rest)
  {
    var tail, after := "&" + e + ";" + rest, e + ";" + rest;
    NoSpellingBegins(e, rest);
    AmpersandDecodesIff(tail);
    assert tail[1..] == after;
    CopiedEntity(e, rest);
    assert "&" + ((e + ";") + Decode(rest)) == "&" + e + ";" + Decode(rest);
  }

  lemma CopiedEntity(e: string, rest: string)
    requires '&' !in e
    ensures Decode(e + ";" + rest) == (e + ";") + Decode(rest)
  {
    var after := e + ";" + rest;
    assert after[..|e| + 1] == e + ";" && after[|e| + 1..] == rest;
    NoneBefore(after, '&', |e| + 1);
    DecodePlain(after, |e| + 1);
  }

  // ---- every character can be written ----

  /** All but the last digit, and the last. */
  function Higher(n: nat, radix: Radix): (h: nat)
    ensures n >= radix ==> h < n
  {
    if radix == 16 then n / 16 else n / 10
  }

  function Lowest(n: nat, radix: Radix): (d: nat)
    ensures d < radix && n == Times(Higher(n, radix), radix) + d
  {
    if radix == 16 then n % 16 else n % 10
  }

  /** The shortest digits of `n`, letters in either case. */
  function DigitsOf(n: nat, radix: Radix, upper: bool): seq<Glyph> {
    if n < radix then [Glyph(n, upper)]
    else DigitsOf(Higher(n, radix), radix, upper) + [Glyph(Lowest(n, radix), upper)]
  }

  lemma {:induction false} DigitsOfReads(n: nat, radix: Radix, upper: bool)
    ensures var gs := DigitsOf(n, radix, upper);
            gs != [] && AreDigits(gs, radix) && ValueOf(gs, radix) == n
  {
    if n < radix {
      assert [Glyph(n, upper)][..0] == [];
    } else {
      var gs := DigitsOf(n, radix, upper);
      DigitsOfReads(Higher(n, radix), radix, upper);
      assert gs[..|gs| - 1] == DigitsOf(Higher(n, radix), radix, upper);
    }
  }

  lemma {:induction false} DigitsOfLength(n: nat, radix: Radix, upper: bool, width: nat)
    requires 1 <= width && n < if radix == 16 then Power(16, width) else Power(10, width)
    ensures |DigitsOf(n, radix, upper)| <= width
    decreases width
  {
    if n >= radix {
      DigitsOfLength(Higher(n, radix), radix, upper, width - 1);
    }
  }

  /** Each character has a decimal and a hexadecimal reference, in small letters and capitals. */
  lemma EveryCharacterHasReferences(c: char, upper: bool)
    ensures var d := DecimalRef(false, DigitsOf(c as nat, 10, upper)); WellFormed(d) && Meaning(d) == c
    ensures var h := HexRef('x', false, DigitsOf(c as nat, 16, upper)); WellFormed(h) && Meaning(h) == c
  {
    var n := c as nat;
    DigitsOfReads(n, 10, upper);
    DigitsOfReads(n, 16, upper);
    assert Power(10, 4) == 10_000 && Power(10, 7) == 10_000_000;
    assert Power(16, 4) == 0x1_0000 && Power(16, 6) == 0x100_0000;
    DigitsOfLength(n, 10, upper, 7);
    DigitsOfLength(n, 16, upper, 6);
    RenderIsPlain(DigitsOf(n, 10, upper));
    RenderIsPlain(DigitsOf(n, 16, upper));
  }
}
