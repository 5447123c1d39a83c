/**
 * The Java value types the plugin works with, written out over Dafny's
 * unbounded integers: bytes, 16-bit chars, 32- and 64-bit two's-complement
 * integers with their wrap-around, Java's truncating division, `String` as a
 * sequence of UTF-16 code units, `Long.toString` and
 * `String.equalsIgnoreCase` over given case tables.
 */
module JavaBase {

  datatype Option<+T> = None | Some(value: T)

  datatype Result<+T, +E> = Ok(value: T) | Err(error: E) {
    predicate IsFailure() {
      Err?
    }

    function PropagateFailure<U>(): Result<U, E>
      requires Err?
    {
      Err(error)
    }

    function Extract(): T
      requires Ok?
    {
      value
    }
  }

  /** A byte as an unsigned octet (what a stream reads with `& 0xff`). */
  type u8 = x: int | 0 <= x < 0x100
  /** A Java `char`: one UTF-16 code unit. */
  type u16 = x: int | 0 <= x < 0x1_0000
  /** A Java `int`. */
  type int32 = x: int | -0x8000_0000 <= x < 0x8000_0000
  /** A Java `long`. */
  type int64 = x: int | -0x8000_0000_0000_0000 <= x < 0x8000_0000_0000_0000
  /** The raw 64 bits of a `long` or `double`, read as an unsigned number. */
  type bits64 = x: int | 0 <= x < 0x1_0000_0000_0000_0000

  /** A Java `String`: a sequence of UTF-16 code units. */
  type JString = seq<u16>

  const TWO_32: int := 0x1_0000_0000
  const TWO_64: int := 0x1_0000_0000_0000_0000

  /** The result of 32-bit `int` arithmetic on the exact value `x`. */
  function Wrap32(x: int): (r: int32)
    ensures (r - x) % TWO_32 == 0
    ensures -0x8000_0000 <= x < 0x8000_0000 ==> r == x
  {
    (x + 0x8000_0000) % TWO_32 - 0x8000_0000
  }

  /** The result of 64-bit `long` arithmetic on the exact value `x`. */
  function Wrap64(x: int): (r: int64)
    ensures (r - x) % TWO_64 == 0
    ensures -0x8000_0000_0000_0000 <= x < 0x8000_0000_0000_0000 ==> r == x
  {
    (x + 0x8000_0000_0000_0000) % TWO_64 - 0x8000_0000_0000_0000
  }

  /** Wrapping after every step of a running `int` sum gives the wrapped exact sum. */
  lemma Wrap32Add(acc: int, x: int)
    ensures Wrap32(Wrap32(acc) + x) == Wrap32(acc + x)
  {
    var a, b := Wrap32(Wrap32(acc) + x), Wrap32(acc + x);
    var q1 := (a - (Wrap32(acc) + x)) / TWO_32;
    var q2 := (Wrap32(acc) - acc) / TWO_32;
    var q3 := (b - (acc + x)) / TWO_32;
    assert a - b == (q1 + q2 - q3) * TWO_32;
  }

  /** Java's `/` on a positive divisor: the quotient is truncated toward zero. */
  function JDiv(a: int, b: int): int
    requires b > 0
  {
    if a >= 0 then a / b else -((-a) / b)
  }

  /** Java's `%` on a positive divisor: the remainder takes the sign of `a`. */
  function JRem(a: int, b: int): (r: int)
    requires b > 0
    ensures JDiv(a, b) * b + r == a
    ensures a >= 0 ==> 0 <= r < b
    ensures a < 0 ==> -b < r <= 0
  {
    if a >= 0 then a % b else -((-a) % b)
  }

  predicate Bmp(s: string) {
    forall i | 0 <= i < |s| :: s[i] as int < 0x1_0000
  }

  /**
   * A Java string literal made of Basic Multilingual Plane characters: each
   * character is one code unit.
   */
  function J(s: string): (r: JString)
    requires Bmp(s)
  {
    seq(|s|, i requires 0 <= i < |s| => s[i] as int)
  }

  const MINUS: u16 := 45  // '-'

  predicate IsDigit(c: u16) {
    48 <= c <= 57
  }

  predicate AllDigits(s: JString) {
    forall i | 0 <= i < |s| :: IsDigit(s[i])
  }

  /** The decimal digits of a non-negative number, most significant first. */
  function Digits(n: nat): (r: JString)
    ensures 1 <= |r| && AllDigits(r)
    ensures n < 10 <==> |r| == 1
  {
    if n < 10 then [48 + n] else Digits(n / 10) + [48 + n % 10]
  }

  /** `Long.toString(n)` (also `Integer.toString`, `%d` and string concatenation). */
  function Dec(n: int): JString {
    if n < 0 then [MINUS] + Digits(-n) else Digits(n)
  }

  /** The value of a non-empty run of decimal digits. */
  function DigitsValue(s: JString): nat
    requires 1 <= |s| && AllDigits(s)
  {
    if |s| == 1 then s[0] - 48 else DigitsValue(s[..|s| - 1]) * 10 + (s[|s| - 1] - 48)
  }

  /** A numeral holds only digits and, for a negative number, a leading minus sign. */
  lemma DecCharacters(n: int)
    ensures forall i | 0 <= i < |Dec(n)| :: IsDigit(Dec(n)[i]) || Dec(n)[i] == MINUS
  {
    if n < 0 {
      var d := Digits(-n);
      assert forall i | 1 <= i < |Dec(n)| :: Dec(n)[i] == d[i - 1];
    }
  }

  /** Reads back an optionally signed decimal numeral. */
  function ParseDec(s: JString): Option<int> {
    if 2 <= |s| && s[0] == MINUS && AllDigits(s[1..]) then Some(0 - DigitsValue(s[1..]))
    else if 1 <= |s| && AllDigits(s) then Some(DigitsValue(s))
    else None
  }

  lemma {:induction false} DigitsRoundTrip(n: nat)
    ensures DigitsValue(Digits(n)) == n
  {
    if n >= 10 {
      DigitsRoundTrip(n / 10);
      var d := Digits(n / 10) + [48 + n % 10];
      assert d[..|d| - 1] == Digits(n / 10);
    }
  }

  /** Every number prints to a numeral that reads back as that number. */
  lemma DecRoundTrip(n: int)
    ensures ParseDec(Dec(n)) == Some(n)
  {
    var s := Dec(n);
    if n < 0 {
      DigitsRoundTrip(-n);
      assert s[1..] == Digits(-n);
      assert s[0] == MINUS;
    } else {
      DigitsRoundTrip(n);
      assert IsDigit(s[0]);
    }
  }

  /** The pieces of `s` between its `sep` characters, as repeated `indexOf(sep)` finds them. */
  function Split(sep: u16, s: JString): (r: seq<JString>)
    ensures |r| >= 1
  {
    if s == [] then [[]]
    else if s[0] == sep then [[]] + Split(sep, s[1..])
    else var t := Split(sep, s[1..]); [[s[0]] + t[0]] + t[1..]
  }

  lemma {:induction false} SplitNoSeparator(a: JString, sep: u16)
    requires sep !in a
    ensures Split(sep, a) == [a]
  {
    if a != [] {
      SplitNoSeparator(a[1..], sep);
      assert [a[0]] + a[1..] == a;
    }
  }

  /** Splitting `a + [sep] + b` cuts at that separator first. */
  lemma {:induction false} SplitAppend(sep: u16, a: JString, b: JString)
    requires sep !in a
    ensures Split(sep, a + [sep] + b) == [a] + Split(sep, b)
  {
    if a == [] {
      assert a + [sep] + b == [sep] + b;
      assert ([sep] + b)[1..] == b;
    } else {
      var s := a + [sep] + b;
      assert s[0] == a[0];
      assert s[1..] == a[1..] + [sep] + b;
      SplitAppend(sep, a[1..], b);
      assert [a[0]] + a[1..] == a;
    }
  }

  /** `Boolean.toString`, as `StringBuilder.append(boolean)` prints it. */
  function BoolString(b: bool): JString {
    if b then J("true") else J("false")
  }

  /**
   * `Character.toUpperCase` and `Character.toLowerCase` on one UTF-16 code
   * unit. They are the JDK's Unicode case tables, which this model takes as
   * given rather than spelling out.
   */
  datatype CaseMapping = CaseMapping(upper: u16 -> u16, lower: u16 -> u16)

  /** What the last step of `String.regionMatches(true, ...)` compares: lower of upper. */
  function Fold(cm: CaseMapping, c: u16): u16 {
    cm.lower(cm.upper(c))
  }

  /** One step of `String.regionMatches(true, ...)`: equal, equal upper-cased, or equal folded. */
  predicate CharEqualsIgnoreCase(cm: CaseMapping, a: u16, b: u16) {
    a == b || cm.upper(a) == cm.upper(b) || Fold(cm, a) == Fold(cm, b)
  }

  /** `String.equalsIgnoreCase`: same length, and every unit matches its partner. */
  predicate EqualsIgnoreCase(cm: CaseMapping, a: JString, b: JString) {
    |a| == |b| && forall i | 0 <= i < |a| :: CharEqualsIgnoreCase(cm, a[i], b[i])
  }

  /** A string with every unit folded. */
  function FoldAll(cm: CaseMapping, s: JString): JString {
    seq(|s|, i requires 0 <= i < |s| => Fold(cm, s[i]))
  }

  /**
   * Whatever the case tables, the three-step comparison of two units is
   * just equality of their folds: the first two steps only ever accept
   * pairs the third accepts too.
   */
  lemma CharEqualsIgnoreCaseMeaning(cm: CaseMapping, a: u16, b: u16)
    ensures CharEqualsIgnoreCase(cm, a, b) <==> Fold(cm, a) == Fold(cm, b)
  {
    if cm.upper(a) == cm.upper(b) {
      assert Fold(cm, a) == Fold(cm, b);
    }
  }

  /** Two strings are equal ignoring case exactly when their folded forms are equal. */
  lemma EqualsIgnoreCaseMeaning(cm: CaseMapping, a: JString, b: JString)
    ensures EqualsIgnoreCase(cm, a, b) <==> FoldAll(cm, a) == FoldAll(cm, b)
  {
    forall i | 0 <= i < |a| && i < |b| {
      CharEqualsIgnoreCaseMeaning(cm, a[i], b[i]);
    }
    if FoldAll(cm, a) == FoldAll(cm, b) {
      forall i | 0 <= i < |a|
        ensures Fold(cm, a[i]) == Fold(cm, b[i])
      {
        assert FoldAll(cm, a)[i] == FoldAll(cm, b)[i];
      }
    }
  }

  /**
   * For every case table, ignoring case is an equivalence relation, so a
   * lookup by name ignoring case is well defined.
   */
  lemma EqualsIgnoreCaseIsEquivalence(cm: CaseMapping, a: JString, b: JString, c: JString)
    ensures EqualsIgnoreCase(cm, a, a)
    ensures EqualsIgnoreCase(cm, a, b) ==> EqualsIgnoreCase(cm, b, a)
    ensures EqualsIgnoreCase(cm, a, b) && EqualsIgnoreCase(cm, b, c) ==> EqualsIgnoreCase(cm, a, c)
  {
    EqualsIgnoreCaseMeaning(cm, a, a);
    EqualsIgnoreCaseMeaning(cm, a, b);
    EqualsIgnoreCaseMeaning(cm, b, a);
    EqualsIgnoreCaseMeaning(cm, b, c);
    EqualsIgnoreCaseMeaning(cm, a, c);
  }
}
