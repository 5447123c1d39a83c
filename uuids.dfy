/**
 * `java.util.UUID` as far as the plugin uses it: the two 64-bit halves,
 * `toString` (five groups of lower-case hex digits, 8-4-4-4-12),
 * `fromString` (which throws IllegalArgumentException on a malformed string)
 * and `hashCode`.
 */
module Uuids {
  import opened JavaBase

  /** A UUID: its most and least significant 64 bits, as unsigned patterns. */
  datatype Uuid = Uuid(msb: bits64, lsb: bits64)

  const TWO_16: nat := 0x1_0000
  const TWO_48: nat := 0x1_0000_0000_0000
  const TWO_63: nat := 0x8000_0000_0000_0000

  function Pow16(k: nat): (r: nat)
    ensures r >= 1
  {
    if k == 0 then 1 else 16 * Pow16(k - 1)
  }

  /** The lower-case hex digit of `Character.forDigit(d, 16)`. */
  function HexChar(d: int): u16
    requires 0 <= d < 16
  {
    if d < 10 then 48 + d else 87 + d
  }

  /** `Character.digit(c, 16)` on ASCII: 0-9, a-f and A-F. */
  function HexValue(c: u16): Option<nat> {
    if 48 <= c <= 57 then Some(c - 48)
    else if 97 <= c <= 102 then Some(c - 87)
    else if 65 <= c <= 70 then Some(c - 55)
    else None
  }

  predicate AllHex(s: JString) {
    forall i | 0 <= i < |s| :: HexValue(s[i]).Some?
  }

  /** The `k` low hex digits of `n`, most significant first. */
  function HexDigits(n: nat, k: nat): (r: JString)
    ensures |r| == k && AllHex(r)
    ensures MINUS !in r
  {
    if k == 0 then [] else HexDigits(n / 16, k - 1) + [HexChar(n % 16)]
  }

  /** The value of a run of hex digits. */
  function HexRunValue(s: JString): nat
    requires AllHex(s)
  {
    if s == [] then 0 else HexRunValue(s[..|s| - 1]) * 16 + HexValue(s[|s| - 1]).value
  }

  lemma {:induction false} HexRoundTrip(n: nat, k: nat)
    requires n < Pow16(k)
    ensures HexRunValue(HexDigits(n, k)) == n
  {
    if k > 0 {
      HexRoundTrip(n / 16, k - 1);
      var h := HexDigits(n, k);
      assert h[..|h| - 1] == HexDigits(n / 16, k - 1);
    }
  }

  /**
   * `Long.parseLong(group, 16)` on a group that holds no '-': an optional
   * '+', at least one hex digit, and a value that fits a `long`; anything
   * else is a NumberFormatException (an IllegalArgumentException).
   */
  function ParseHexLong(g: JString): Option<nat> {
    var digits := if |g| > 0 && g[0] == 43 then g[1..] else g;
    if |digits| == 0 || !AllHex(digits) then None
    else if HexRunValue(digits) < TWO_63 then Some(HexRunValue(digits))
    else None
  }

  /** `UUID.toString()`. */
  function ToString(u: Uuid): (r: JString)
    ensures |r| == 36
  {
    HexDigits(u.msb / TWO_32, 8) + [MINUS]
    + HexDigits((u.msb / TWO_16) % TWO_16, 4) + [MINUS]
    + HexDigits(u.msb % TWO_16, 4) + [MINUS]
    + HexDigits(u.lsb / TWO_48, 4) + [MINUS]
    + HexDigits(u.lsb % TWO_48, 12)
  }

  /**
   * `UUID.fromString`: at most 36 code units, exactly five '-'-separated
   * groups, each a hex `long`; the groups are masked to 32, 16, 16, 16 and
   * 48 bits and packed into the two halves. `None` is the
   * IllegalArgumentException the method throws.
   */
  function FromString(s: JString): Option<Uuid> {
    if |s| > 36 then None
    else
      var g := Split(MINUS, s);
      if |g| != 5 then None
      else match (ParseHexLong(g[0]), ParseHexLong(g[1]), ParseHexLong(g[2]), ParseHexLong(g[3]), ParseHexLong(g[4]))
        case (Some(a), Some(b), Some(c), Some(d), Some(e)) => Some(Pack(a, b, c, d, e))
        case _ => None
  }

  /** The two halves built from the five parsed groups, each masked to its width. */
  function Pack(a: nat, b: nat, c: nat, d: nat, e: nat): Uuid {
    Uuid((a % TWO_32) * TWO_32 + (b % TWO_16) * TWO_16 + c % TWO_16,
         (d % TWO_16) * TWO_48 + e % TWO_48)
  }

  /** `UUID.hashCode()`: the two 32-bit halves of `msb ^ lsb`, xor-ed. */
  function HashCode(u: Uuid): int32 {
    var hilo := (u.msb as bv64) ^ (u.lsb as bv64);
    Wrap32((((hilo >> 32) ^ hilo) & 0xFFFF_FFFF) as int)
  }

  lemma ParseHexDigits(n: nat, k: nat)
    requires 1 <= k <= 12 && n < Pow16(k)
    ensures ParseHexLong(HexDigits(n, k)) == Some(n)
  {
    HexRoundTrip(n, k);
    Pow16AtMost48(k);
    var h := HexDigits(n, k);
    assert h[0] != 43 by { assert HexValue(h[0]).Some?; }
  }

  lemma Pow16AtMost48(k: nat)
    requires k <= 12
    ensures Pow16(k) <= TWO_48
  {
    Pow16Mul(k, 12 - k);
    Pow16Values();
    assert Pow16(12) == Pow16(k) * Pow16(12 - k);
  }

  lemma Pow16Values()
    ensures Pow16(4) == TWO_16 && Pow16(8) == TWO_32 && Pow16(12) == TWO_48
  {
    assert Pow16(4) == 0x1_0000;
    assert Pow16(8) == 0x1_0000 * Pow16(4) by { Pow16Mul(4, 4); }
    assert Pow16(12) == 0x1_0000 * Pow16(8) by { Pow16Mul(4, 8); }
  }

  lemma {:induction false} Pow16Mul(a: nat, b: nat)
    ensures Pow16(a + b) == Pow16(a) * Pow16(b)
  {
    if a > 0 {
      Pow16Mul(a - 1, b);
    }
  }

  /** How a 64-bit half splits into the 32/16/16 and 16/48 groups of the text form. */
  lemma SplitHalf(x: bits64)
    ensures x == (x / TWO_32) * TWO_32 + ((x / TWO_16) % TWO_16) * TWO_16 + x % TWO_16
    ensures x == (x / TWO_48) * TWO_48 + x % TWO_48
    ensures x / TWO_32 < TWO_32 && x / TWO_48 < TWO_16
  {
    var hi := x / TWO_16;
    assert x == hi * TWO_16 + x % TWO_16;
    assert hi == (hi / TWO_16) * TWO_16 + hi % TWO_16;
    assert hi / TWO_16 == x / TWO_32;
  }

  /** The five hex groups of `ToString(u)`. */
  function Groups(u: Uuid): seq<JString> {
    [HexDigits(u.msb / TWO_32, 8), HexDigits((u.msb / TWO_16) % TWO_16, 4), HexDigits(u.msb % TWO_16, 4),
     HexDigits(u.lsb / TWO_48, 4), HexDigits(u.lsb % TWO_48, 12)]
  }

  lemma SplitToString(u: Uuid)
    ensures Split(MINUS, ToString(u)) == Groups(u)
  {
    var g := Groups(u);
    assert ToString(u) == g[0] + [MINUS] + (g[1] + [MINUS] + (g[2] + [MINUS] + (g[3] + [MINUS] + g[4])));
    SplitNoSeparator(g[4], MINUS);
    SplitAppend(MINUS, g[3], g[4]);
    SplitAppend(MINUS, g[2], g[3] + [MINUS] + g[4]);
    SplitAppend(MINUS, g[1], g[2] + [MINUS] + (g[3] + [MINUS] + g[4]));
    SplitAppend(MINUS, g[0], g[1] + [MINUS] + (g[2] + [MINUS] + (g[3] + [MINUS] + g[4])));
  }

  lemma PackGroups(u: Uuid)
    ensures Pack(u.msb / TWO_32, (u.msb / TWO_16) % TWO_16, u.msb % TWO_16, u.lsb / TWO_48, u.lsb % TWO_48) == u
  {
    var a, b, c := u.msb / TWO_32, (u.msb / TWO_16) % TWO_16, u.msb % TWO_16;
    var d, e := u.lsb / TWO_48, u.lsb % TWO_48;
    assert a % TWO_32 == a && d % TWO_16 == d by {
      SplitHalf(u.msb);
      SplitHalf(u.lsb);
    }
    assert b % TWO_16 == b && c % TWO_16 == c && e % TWO_48 == e;
    assert a * TWO_32 + b * TWO_16 + c == u.msb by {
      SplitHalf(u.msb);
    }
    assert d * TWO_48 + e == u.lsb by {
      SplitHalf(u.lsb);
    }
  }

  lemma ParseGroups(u: Uuid)
    ensures ParseHexLong(Groups(u)[0]) == Some(u.msb / TWO_32)
    ensures ParseHexLong(Groups(u)[1]) == Some((u.msb / TWO_16) % TWO_16)
    ensures ParseHexLong(Groups(u)[2]) == Some(u.msb % TWO_16)
    ensures ParseHexLong(Groups(u)[3]) == Some(u.lsb / TWO_48)
    ensures ParseHexLong(Groups(u)[4]) == Some(u.lsb % TWO_48)
  {
    assert u.msb / TWO_32 < TWO_32 && u.lsb / TWO_48 < TWO_16 by {
      SplitHalf(u.msb);
      SplitHalf(u.lsb);
    }
    ParseFive(u.msb / TWO_32, (u.msb / TWO_16) % TWO_16, u.msb % TWO_16, u.lsb / TWO_48, u.lsb % TWO_48);
  }

  /** Each group of the text form parses back to the number it was printed from. */
  lemma ParseFive(a: nat, b: nat, c: nat, d: nat, e: nat)
    requires a < TWO_32 && b < TWO_16 && c < TWO_16 && d < TWO_16 && e < TWO_48
    ensures ParseHexLong(HexDigits(a, 8)) == Some(a)
    ensures ParseHexLong(HexDigits(b, 4)) == Some(b)
    ensures ParseHexLong(HexDigits(c, 4)) == Some(c)
    ensures ParseHexLong(HexDigits(d, 4)) == Some(d)
    ensures ParseHexLong(HexDigits(e, 12)) == Some(e)
  {
    Pow16Values();
    ParseHexDigits(a, 8);
    ParseHexDigits(b, 4);
    ParseHexDigits(c, 4);
    ParseHexDigits(d, 4);
    ParseHexDigits(e, 12);
  }

  /** Printing a UUID and parsing the text back gives the same UUID. */
  lemma FromStringToString(u: Uuid)
    ensures FromString(ToString(u)) == Some(u)
  {
    SplitToString(u);
    ParseGroups(u);
    PackGroups(u);
  }

  /** Distinct UUIDs print differently, so the text form identifies a player. */
  lemma ToStringInjective(u: Uuid, v: Uuid)
    requires ToString(u) == ToString(v)
    ensures u == v
  {
    FromStringToString(u);
    FromStringToString(v);
  }
}
