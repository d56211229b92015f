/** `content_name` of `src/embed.rs`: the FNV-1a hash of a byte string, in sixteen hex digits. */
module ContentName {
  import opened Numerals

  type Byte = b: nat | b < 256

  const TWO64 := 0x1_0000_0000_0000_0000
  const OFFSET := 0xcbf2_9ce4_8422_2325
  const PRIME := 0x0000_0100_0000_01b3

  type U64 = h: nat | h < TWO64

  // ---- one step ----

  /** The exclusive or, bit by bit. */
  function Xor(x: nat, y: nat): nat
    decreases x + y
  {
    if x == 0 && y == 0 then 0 else 2 * Xor(x / 2, y / 2) + (x + y) % 2
  }

  lemma {:induction false} XorFits(x: nat, y: nat, width: nat)
    requires x < Power(2, width) && y < Power(2, width)
    ensures Xor(x, y) < Power(2, width)
    decreases width
  {
    if width > 0 {
      XorFits(x / 2, y / 2, width - 1);
    }
  }

  lemma {:induction false} PowersOfTwoMultiply(m: nat, n: nat)
    ensures Power(2, m + n) == Power(2, m) * Power(2, n)
  {
    if m > 0 {
      PowersOfTwoMultiply(m - 1, n);
      assert Power(2, m + n) == 2 * Power(2, m - 1 + n);
      assert 2 * (Power(2, m - 1) * Power(2, n)) == (2 * Power(2, m - 1)) * Power(2, n);
    }
  }

  lemma SixtyFourBits()
    ensures Power(2, 64) == TWO64
  {
    assert Power(2, 2) == 4;
    PowersOfTwoMultiply(2, 2);
    PowersOfTwoMultiply(4, 4);
    PowersOfTwoMultiply(8, 8);
    PowersOfTwoMultiply(16, 16);
    PowersOfTwoMultiply(32, 32);
  }

  /** `hash ^= u64::from(byte)`. */
  function XorByte(h: U64, b: Byte): U64 {
    SixtyFourBits();
    XorFits(h, b, 64);
    Xor(h, b)
  }

  /** `wrapping_mul` by the FNV prime. */
  function Scramble(h: U64): U64 {
    (h * PRIME) % TWO64
  }

  function Step(h: U64, b: Byte): U64 {
    Scramble(XorByte(h, b))
  }

  function Hash(h: U64, bytes: seq<Byte>): U64
    decreases |bytes|
  {
    if bytes == [] then h else Hash(Step(h, bytes[0]), bytes[1..])
  }

  // ---- rendering ----

  function HexDigit(d: nat): char
    requires d < 16
  {
    "0123456789abcdef"[d]
  }

  /** The `width` low hex digits of `h`, padded with zeros. */
  function Hex(h: nat, width: nat): (s: string)
    ensures |s| == width
    decreases width, h
  {
    if width == 0 then "" else Hex(h / 16, width - 1) + [HexDigit(h % 16)]
  }

  function Name(bytes: seq<Byte>): string {
    Hex(Hash(OFFSET, bytes), 16) + ".mp4"
  }

  /** `content_name`. */
  method NameOf(bytes: seq<Byte>) returns (name: string)
    ensures name == Name(bytes)
  {
    var hash: U64 := OFFSET;
    for k := 0 to |bytes|
      invariant Hash(hash, bytes[k..]) == Hash(OFFSET, bytes)
    {
      assert bytes[k..][1..] == bytes[k + 1..];
      hash := XorByte(hash, bytes[k]);
      hash := Scramble(hash);
    }
    return Hex(hash, 16) + ".mp4";
  }

  // ---- every step is injective ----

  lemma ParityCancels(x: nat, y: nat, a: nat, b: nat)
    requires (x + a) % 2 == (y + b) % 2
    requires x / 2 == y / 2 <==> a / 2 == b / 2
    ensures x == y <==> a == b
  {
  }

  lemma XorStep(x: nat, y: nat, a: nat, b: nat)
    requires Xor(x, a) == Xor(y, b)
    ensures Xor(x / 2, a / 2) == Xor(y / 2, b / 2) && (x + a) % 2 == (y + b) % 2
  {
  }

  lemma {:induction false} XorCancels(x: nat, y: nat, a: nat, b: nat)
    requires Xor(x, a) == Xor(y, b)
    ensures x == y <==> a == b
    decreases x + y + a + b
  {
    if x + y + a + b > 0 {
      XorStep(x, y, a, b);
      XorCancels(x / 2, y / 2, a / 2, b / 2);
      ParityCancels(x, y, a, b);
    }
  }

  /** The inverse of the prime modulo 2^64. */
  const INVERSE := 0xce96_5057_aff6_957b

  lemma PrimeTimesInverse(x: nat)
    ensures (x * PRIME * INVERSE) % TWO64 == x % TWO64
  {
  }

  lemma ModulusIgnoresMultiples(x: int, k: int, m: int)
    requires m > 0
    ensures (x + m * k) % m == x % m
  {
    var q, r := x / m, x % m;
    assert x + m * k == m * (q + k) + r;
    QuotientUnique(x + m * k, q + k, r, m);
  }

  lemma MultipleIsLarge(m: int, d: int)
    requires m > 0
    ensures d >= 1 ==> m * d >= m
    ensures d <= -1 ==> m * d <= -m
  {
  }

  lemma QuotientUnique(n: int, q: int, r: int, m: int)
    requires m > 0 && 0 <= r < m && n == m * q + r
    ensures n % m == r
  {
    var d := n / m - q;
    assert m * d == r - n % m;
    MultipleIsLarge(m, d);
  }

  lemma ModulusOfProduct(x: int, k: int, m: int)
    requires m > 0
    ensures ((x % m) * k) % m == (x * k) % m
  {
    var q := x / m;
    assert x == m * q + x % m;
    assert x * k == (x % m) * k + m * (q * k);
    ModulusIgnoresMultiples((x % m) * k, q * k, m);
  }

  /** Multiplying by an odd number modulo 2^64 can be undone. */
  lemma ScrambleInjective(g: U64, h: U64)
    requires Scramble(g) == Scramble(h)
    ensures g == h
  {
    ModulusOfProduct(g * PRIME, INVERSE, TWO64);
    ModulusOfProduct(h * PRIME, INVERSE, TWO64);
    PrimeTimesInverse(g);
    PrimeTimesInverse(h);
  }

  lemma StepInjective(g: U64, h: U64, a: Byte, b: Byte)
    requires Step(g, a) == Step(h, b)
    ensures g == h <==> a == b
  {
    ScrambleInjective(XorByte(g, a), XorByte(h, b));
    XorCancels(g, h, a, b);
  }

  /** Different states stay different over the same bytes. */
  lemma {:induction false} HashInjective(g: U64, h: U64, bytes: seq<Byte>)
    requires Hash(g, bytes) == Hash(h, bytes)
    ensures g == h
    decreases |bytes|
  {
    if bytes != [] {
      HashInjective(Step(g, bytes[0]), Step(h, bytes[0]), bytes[1..]);
      StepInjective(g, h, bytes[0], bytes[0]);
    }
  }

  lemma {:induction false} HashConcat(h: U64, a: seq<Byte>, b: seq<Byte>)
    ensures Hash(h, a + b) == Hash(Hash(h, a), b)
    decreases |a|
  {
    if a == [] {
      assert a + b == b;
    } else {
      var next := Step(h, a[0]);
      HashConcat(next, a[1..], b);
      assert (a + b)[0] == a[0] && (a + b)[1..] == a[1..] + b;
      assert Hash(h, a + b) == Hash(next, (a + b)[1..]);
    }
  }

  // ---- names ----

  lemma HexDigitInjective(c: nat, d: nat)
    requires c < 16 && d < 16 && HexDigit(c) == HexDigit(d)
    ensures c == d
  {
  }

  /** Sixteen digits tell all 64-bit numbers apart. */
  lemma {:induction false} HexInjective(g: nat, h: nat, width: nat)
    requires Hex(g, width) == Hex(h, width)
    requires g < Power(16, width) && h < Power(16, width)
    ensures g == h
    decreases width
  {
    if width > 0 {
      assert Hex(g, width)[..width - 1] == Hex(g / 16, width - 1);
      assert Hex(h, width)[..width - 1] == Hex(h / 16, width - 1);
      HexInjective(g / 16, h / 16, width - 1);
      assert Hex(g, width)[width - 1] == HexDigit(g % 16);
      assert Hex(h, width)[width - 1] == HexDigit(h % 16);
      HexDigitInjective(g % 16, h % 16);
    }
  }

  lemma SixteenDigits()
    ensures Power(16, 16) == TWO64
  {
    assert Power(16, 4) == 0x1_0000;
    assert Power(16, 8) == 0x1_0000_0000;
    assert Power(16, 12) == 0x1_0000_0000_0000;
  }

  lemma NameTellsHash(a: seq<Byte>, b: seq<Byte>)
    requires Name(a) == Name(b)
    ensures Hash(OFFSET, a) == Hash(OFFSET, b)
  {
    var g, h := Hash(OFFSET, a), Hash(OFFSET, b);
    assert Name(a)[..16] == Hex(g, 16) && Name(b)[..16] == Hex(h, 16);
    SixteenDigits();
    HexInjective(g, h, 16);
  }

  lemma HashThrough(h: U64, before: seq<Byte>, a: Byte, after: seq<Byte>)
    ensures Hash(h, before + [a] + after) == Hash(Step(Hash(h, before), a), after)
  {
    assert before + [a] + after == before + ([a] + after);
    HashConcat(h, before, [a] + after);
    assert ([a] + after)[1..] == after;
  }

  /** Byte strings that differ in exactly one byte have different hashes, from any state. */
  lemma OneByteChangesTheHash(h: U64, before: seq<Byte>, a: Byte, b: Byte, after: seq<Byte>)
    requires a != b
    ensures Hash(h, before + [a] + after) != Hash(h, before + [b] + after)
  {
    HashThrough(h, before, a, after);
    HashThrough(h, before, b, after);
    var g := Hash(h, before);
    if Hash(Step(g, a), after) == Hash(Step(g, b), after) {
      HashInjective(Step(g, a), Step(g, b), after);
      StepInjective(g, g, a, b);
    }
  }

  /** So two such byte strings never get the same name. */
  lemma OneByteChangesTheName(before: seq<Byte>, a: Byte, b: Byte, after: seq<Byte>)
    requires a != b
    ensures Name(before + [a] + after) != Name(before + [b] + after)
  {
    OneByteChangesTheHash(OFFSET, before, a, b, after);
    if Name(before + [a] + after) == Name(before + [b] + after) {
      NameTellsHash(before + [a] + after, before + [b] + after);
    }
  }

  /** A shared beginning or ending never makes two names equal: with the same bytes around
      them, two middles share a name exactly when they lead to the same state. */
  lemma SameNameIffSameState(before: seq<Byte>, a: seq<Byte>, b: seq<Byte>, after: seq<Byte>)
    ensures Name(before + a + after) == Name(before + b + after) <==>
            Hash(Hash(OFFSET, before), a) == Hash(Hash(OFFSET, before), b)
  {
    HashConcat(OFFSET, before, a);
    HashConcat(OFFSET, before, b);
    HashConcat(OFFSET, before + a, after);
    HashConcat(OFFSET, before + b, after);
    if Name(before + a + after) == Name(before + b + after) {
      NameTellsHash(before + a + after, before + b + after);
      HashInjective(Hash(OFFSET, before + a), Hash(OFFSET, before + b), after);
    }
  }

  // ---- the standard's values ----

  /** Bit `k` of a number. */
  function Bit(x: nat, k: nat): nat {
    if k == 0 then x % 2 else Bit(x / 2, k - 1)
  }

  lemma XorHalves(x: nat, y: nat, h: nat)
    requires x / 2 == h
    ensures Xor(x, y) / 2 == Xor(h, y / 2) && Xor(x, y) % 2 == (x + y) % 2
  {
  }

  lemma BitFromHalves(v: nat, w: nat, x: nat, y: nat, k: nat)
    requires v % 2 == (x + y) % 2 && v / 2 == w
    requires k > 0 ==> Bit(w, k - 1) == (Bit(x / 2, k - 1) + Bit(y / 2, k - 1)) % 2
    ensures Bit(v, k) == (Bit(x, k) + Bit(y, k)) % 2
  {
  }

  /** A bit of the exclusive or is set exactly when it is set in one of the two. */
  lemma {:induction false} XorBits(x: nat, y: nat, k: nat)
    ensures Bit(Xor(x, y), k) == (Bit(x, k) + Bit(y, k)) % 2
  {
    XorHalves(x, y, x / 2);
    if k > 0 {
      XorBits(x / 2, y / 2, k - 1);
    }
    BitFromHalves(Xor(x, y), Xor(x / 2, y / 2), x, y, k);
  }

  function ReadHex(s: string): int {
    if s == "" then 0
    else
      var c := s[|s| - 1];
      16 * ReadHex(s[..|s| - 1]) + if c <= '9' then c as int - '0' as int else c as int - 'a' as int + 10
  }

  /** The digits read back as the number they were made from. */
  lemma {:induction false} HexReadsBack(h: nat, width: nat)
    requires h < Power(16, width)
    ensures ReadHex(Hex(h, width)) == h
    decreases width
  {
    if width > 0 {
      HexReadsBack(h / 16, width - 1);
      assert Hex(h, width)[..width - 1] == Hex(h / 16, width - 1);
    }
  }

  lemma {:induction false} XorZero(x: nat)
    ensures Xor(x, 0) == x
  {
    if x > 0 {
      XorZero(x / 2);
    }
  }

  predicate IsHex(s: string) {
    forall k :: 0 <= k < |s| ==> '0' <= s[k] <= '9' || 'a' <= s[k] <= 'f'
  }

  lemma {:induction false} HexIsHex(h: nat, width: nat)
    ensures IsHex(Hex(h, width))
    decreases width
  {
    if width > 0 {
      HexIsHex(h / 16, width - 1);
    }
  }

  /** A name is sixteen hexadecimal digits that read as the hash, and the extension. */
  lemma NameReadsAsHash(bytes: seq<Byte>)
    ensures var name := Name(bytes);
            && |name| == 20 && name[16..] == ".mp4" && IsHex(name[..16])
            && ReadHex(name[..16]) == Hash(OFFSET, bytes)
  {
    var h := Hash(OFFSET, bytes);
    HexIsHex(h, 16);
    SixteenDigits();
    HexReadsBack(h, 16);
    assert Name(bytes)[..16] == Hex(h, 16);
  }

  lemma FromHalves(v: nat, t: nat, y: nat)
    requires v / 2 == t + y / 2 && v % 2 == (2 * t + y) % 2
    ensures v == 2 * t + y
  {
  }

  lemma DoubledXor(t: nat, y: nat)
    requires Xor(t, y / 2) == t + y / 2
    ensures Xor(2 * t, y) == 2 * t + y
  {
    XorHalves(2 * t, y, t);
    FromHalves(Xor(2 * t, y), t, y);
  }

  /** Where the low bits are clear, the exclusive or with a small number adds it. */
  lemma {:induction false} XorAdds(q: nat, y: nat, k: nat)
    requires y < Power(2, k)
    ensures Xor(Power(2, k) * q, y) == Power(2, k) * q + y
    decreases k
  {
    if k == 0 {
      XorZero(q);
    } else {
      var t := Power(2, k - 1) * q;
      assert Power(2, k) * q == 2 * t;
      XorAdds(q, y / 2, k - 1);
      DoubledXor(t, y);
    }
  }

  lemma XorOnClearByte(q: nat, b: Byte)
    ensures Xor(256 * q, b) == 256 * q + b
  {
    assert Power(2, 8) == 256;
    XorAdds(q, b, 8);
  }

  /** The byte is taken in first, and the sum is then multiplied by the prime: a state whose last
      byte is clear shows it. */
  lemma StepOnClearByte(h: U64, b: Byte)
    requires h % 256 == 0
    ensures Step(h, b) == ((h + b) * 0x100_0000_01b3) % TWO64
  {
    var q := h / 256;
    assert 256 * q == h;
    XorOnClearByte(q, b);
    assert XorByte(h, b) == h + b;
  }

  /** The hash begins at the offset basis of the standard. */
  lemma NoBytesHashToTheBasis()
    ensures Hash(OFFSET, []) == 0xcbf2_9ce4_8422_2325 && Name([])[16..] == ".mp4"
  {
  }
}
