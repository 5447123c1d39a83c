/**
 * The "modified UTF-8" body of `DataOutputStream.writeUTF` and
 * `DataInputStream.readUTF`, as the `java.io.DataInput` interface defines it:
 * each UTF-16 code unit on its own (a surrogate pair is two units, so two
 * three-byte groups), U+0001..U+007F in one byte, U+0000 and U+0080..U+07FF
 * in two, everything else in three. The decoder also accepts the overlong
 * forms the JDK accepts and refuses everything else.
 */
module ModifiedUtf8 {
  import opened JavaBase

  /** The bytes of one code unit. */
  function EncodeUnit(c: u16): (r: seq<u8>)
    ensures 1 <= |r| <= 3
    ensures |r| == 1 <==> 1 <= c <= 0x7F
    ensures |r| == 2 <==> c == 0 || 0x80 <= c <= 0x7FF
  {
    if 1 <= c <= 0x7F then [c]
    else if c <= 0x7FF then [0xC0 + c / 64, 0x80 + c % 64]
    else [0xE0 + c / 4096, 0x80 + (c / 64) % 64, 0x80 + c % 64]
  }

  /** The body `writeUTF` writes after the two length bytes. */
  function Encode(s: JString): (r: seq<u8>)
    ensures |s| <= |r| <= 3 * |s|
  {
    if s == [] then [] else EncodeUnit(s[0]) + Encode(s[1..])
  }

  predicate IsContinuation(b: u8) {
    0x80 <= b <= 0xBF
  }

  function Prepend(c: u16, rest: Option<JString>): Option<JString> {
    match rest
    case Some(t) => Some([c] + t)
    case None => None
  }

  /**
   * The body `readUTF` decodes; `None` is the UTFDataFormatException it
   * throws for a byte that starts no group, a partial group at the end, or
   * a continuation byte outside 0x80..0xBF.
   */
  function Decode(b: seq<u8>): Option<JString>
  {
    if b == [] then Some([])
    else if b[0] < 0x80 then Prepend(b[0], Decode(b[1..]))
    else if 0xC0 <= b[0] <= 0xDF then
      if |b| < 2 || !IsContinuation(b[1]) then None
      else
        var c: int := (b[0] - 0xC0) as int * 64 + (b[1] - 0x80) as int;
        Prepend(c, Decode(b[2..]))
    else if 0xE0 <= b[0] <= 0xEF then
      if |b| < 3 || !IsContinuation(b[1]) || !IsContinuation(b[2]) then None
      else
        var c: int := (b[0] - 0xE0) as int * 4096 + (b[1] - 0x80) as int * 64 + (b[2] - 0x80) as int;
        Prepend(c, Decode(b[3..]))
    else None
  }

  lemma DecodeUnit(c: u16, rest: seq<u8>)
    ensures Decode(EncodeUnit(c) + rest) == Prepend(c, Decode(rest))
  {
    var b := EncodeUnit(c) + rest;
    if 1 <= c <= 0x7F {
      assert b[1..] == rest;
    } else if c <= 0x7FF {
      assert b[2..] == rest;
      assert (c / 64) * 64 + c % 64 == c;
    } else {
      assert b[3..] == rest;
      assert c / 4096 < 16;
      assert (c / 4096) * 4096 + ((c / 64) % 64) * 64 + c % 64 == c by {
        assert c == (c / 64) * 64 + c % 64;
        assert c / 64 == (c / 4096) * 64 + (c / 64) % 64;
      }
    }
  }

  /** Every string decodes back from its modified UTF-8 body. */
  lemma {:induction false} DecodeEncode(s: JString)
    ensures Decode(Encode(s)) == Some(s)
  {
    if s != [] {
      DecodeEncode(s[1..]);
      DecodeUnit(s[0], Encode(s[1..]));
      assert [s[0]] + s[1..] == s;
    }
  }

  /** No encoded byte is zero: U+0000 takes the two-byte form 0xC0 0x80. */
  lemma {:induction false} EncodeHasNoZeroByte(s: JString)
    ensures forall i | 0 <= i < |Encode(s)| :: Encode(s)[i] != 0
  {
    if s != [] {
      EncodeHasNoZeroByte(s[1..]);
      var e := Encode(s);
      var head := EncodeUnit(s[0]);
      forall i | 0 <= i < |e|
        ensures e[i] != 0
      {
        if i >= |head| {
          assert e[i] == Encode(s[1..])[i - |head|];
        }
      }
    }
  }
}
