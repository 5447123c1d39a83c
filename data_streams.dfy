/**
 * `java.io.DataOutputStream` over a `ByteArrayOutputStream`, and
 * `java.io.DataInputStream` over a `ByteArrayInputStream`, for the five field
 * types the plugin messages carry: `writeUTF`/`readUTF` (a big-endian
 * unsigned 16-bit byte count, then modified UTF-8), `writeInt`/`readInt` and
 * `writeLong`/`readLong` (big-endian two's complement), `writeDouble`/
 * `readDouble` (the bits of `Double.doubleToLongBits`, big-endian) and
 * `writeBoolean`/`readBoolean` (one byte, read back as "not zero").
 *
 * The codec is given as functions on byte sequences, and the two stream
 * classes are proved to follow them.
 */
module DataStreams {
  import opened JavaBase
  import opened Float64
  import ModifiedUtf8

  /** The IOExceptions a stream raises here. */
  datatype IoError =
    | EOF             // EOFException: fewer bytes left than the field needs
    | UTFDataFormat   // UTFDataFormatException: a string over 65535 bytes, or a malformed body

  /** One typed field of a message. */
  datatype Field =
    | Str(s: JString)
    | Int(i: int32)
    | Long(l: int64)
    | Dbl(d: Double)
    | Bool(b: bool)

  /** Which read a field is taken back with. */
  datatype Kind = KStr | KInt | KLong | KDouble | KBool

  function KindOf(f: Field): Kind {
    match f
    case Str(_) => KStr
    case Int(_) => KInt
    case Long(_) => KLong
    case Dbl(_) => KDouble
    case Bool(_) => KBool
  }

  function Pow256(n: nat): (r: nat)
    ensures r >= 1
  {
    if n == 0 then 1 else 256 * Pow256(n - 1)
  }

  /** The low `n` bytes of `x`, most significant first. */
  function BigEndian(x: nat, n: nat): (r: seq<u8>)
    ensures |r| == n
  {
    if n == 0 then [] else BigEndian(x / 256, n - 1) + [x % 256]
  }

  /** The unsigned number a run of bytes spells, most significant first. */
  function FromBigEndian(b: seq<u8>): (r: nat)
    ensures r < Pow256(|b|)
  {
    if b == [] then 0 else FromBigEndian(b[..|b| - 1]) * 256 + b[|b| - 1]
  }

  lemma {:induction false} FromBigEndianRoundTrip(x: nat, n: nat)
    requires x < Pow256(n)
    ensures FromBigEndian(BigEndian(x, n)) == x
  {
    if n > 0 {
      FromBigEndianRoundTrip(x / 256, n - 1);
      var b := BigEndian(x, n);
      assert b[..n - 1] == BigEndian(x / 256, n - 1);
    }
  }

  /** The two's-complement pattern of an `int` / `long`, as an unsigned number. */
  function Unsigned32(x: int32): nat {
    if x < 0 then x + TWO_32 else x
  }

  function Unsigned64(x: int64): nat {
    if x < 0 then x + TWO_64 else x
  }

  const TWO_31: int := 0x8000_0000
  const TWO_63: int := 0x8000_0000_0000_0000

  lemma Pow256Values()
    ensures Pow256(2) == 0x1_0000 && Pow256(4) == TWO_32 && Pow256(8) == TWO_64
  {
    assert Pow256(4) == 0x1_0000 * Pow256(2);
    assert Pow256(8) == Pow256(4) * Pow256(4) by {
      assert Pow256(8) == 0x1_0000 * Pow256(6);
      assert Pow256(6) == 0x1_0000 * Pow256(4);
    }
  }

  /** `writeUTF(s)`: the length bytes and the body, or the exception for a body over 65535 bytes. */
  function Utf(s: JString): (r: Result<seq<u8>, IoError>)
    ensures r.Err? <==> |ModifiedUtf8.Encode(s)| > 0xFFFF
    ensures r.Err? ==> r.error == UTFDataFormat
  {
    var body := ModifiedUtf8.Encode(s);
    if |body| > 0xFFFF then Err(UTFDataFormat) else Ok(BigEndian(|body|, 2) + body)
  }

  /** The bytes one write puts on the stream. */
  function EncodeField(f: Field): Result<seq<u8>, IoError> {
    match f
    case Str(s) => Utf(s)
    case Int(i) => Ok(BigEndian(Unsigned32(i), 4))
    case Long(l) => Ok(BigEndian(Unsigned64(l), 8))
    case Dbl(d) => Ok(BigEndian(ToLongBits(d), 8))
    case Bool(b) => Ok([if b then 1 else 0])
  }

  /** A run of writes; the first failing `writeUTF` stops it (nothing after it is written). */
  function EncodeFields(fs: seq<Field>): Result<seq<u8>, IoError> {
    if fs == [] then Ok([])
    else match EncodeField(fs[0])
      case Err(e) => Err(e)
      case Ok(head) =>
        match EncodeFields(fs[1..])
        case Err(e) => Err(e)
        case Ok(tail) => Ok(head + tail)
  }

  /** `readUTF` at the front of `b`: the string and how many bytes it took. */
  function ReadUtf(b: seq<u8>): (r: Result<(JString, nat), IoError>)
    ensures r.Ok? ==> 2 <= r.value.1 <= |b|
  {
    if |b| < 2 then Err(EOF)
    else
      var n := b[0] as int * 256 + b[1] as int;
      if |b| < 2 + n then Err(EOF)
      else
        var s := ModifiedUtf8.Decode(b[2..2 + n]);
        if s.None? then Err(UTFDataFormat) else Ok((s.value, 2 + n))
  }

  /** The field a fixed-width read takes from its `width` bytes. */
  function FixedField(k: Kind, b: seq<u8>): Field
    requires k != KStr
    requires |b| == Width(k)
  {
    var u := FromBigEndian(b);
    match k
    case KInt => Int(Wrap32(u))
    case KLong => Long(Wrap64(u))
    case KDouble => Dbl(u % TWO_64)
    case KBool => Bool(b[0] != 0)
  }

  function Width(k: Kind): nat
    requires k != KStr
  {
    match k
    case KInt => 4
    case KLong => 8
    case KDouble => 8
    case KBool => 1
  }

  /**
   * One read at the front of `b`: the field and how many bytes it took, or
   * the IOException the read throws.
   */
  function ReadField(k: Kind, b: seq<u8>): (r: Result<(Field, nat), IoError>)
    ensures r.Ok? ==> 0 < r.value.1 <= |b|
  {
    if k == KStr then
      var s := ReadUtf(b);
      if s.Err? then Err(s.error) else Ok((Str(s.value.0), s.value.1))
    else if |b| < Width(k) then Err(EOF)
    else Ok((FixedField(k, b[..Width(k)]), Width(k)))
  }

  /** A run of reads in the given order; the first exception stops it. */
  function ReadFields(ks: seq<Kind>, b: seq<u8>): (r: Result<(seq<Field>, nat), IoError>)
    ensures r.Ok? ==> |r.value.0| == |ks| && r.value.1 <= |b|
    decreases |ks|
  {
    if ks == [] then Ok(([], 0))
    else match ReadField(ks[0], b)
      case Err(e) => Err(e)
      case Ok((f, n)) =>
        match ReadFields(ks[1..], b[n..])
        case Err(e) => Err(e)
        case Ok((fs, m)) => Ok(([f] + fs, n + m))
  }

  /** Each field read has the kind that was asked for. */
  lemma {:induction false} ReadFieldsKinds(ks: seq<Kind>, b: seq<u8>)
    requires ReadFields(ks, b).Ok?
    ensures Kinds(ReadFields(ks, b).value.0) == ks
    decreases |ks|
  {
    if ks != [] {
      var n := ReadField(ks[0], b).value.1;
      ReadFieldsKinds(ks[1..], b[n..]);
      var fs := ReadFields(ks, b).value.0;
      assert fs[1..] == ReadFields(ks[1..], b[n..]).value.0;
    }
  }

  /** What reading a field back gives: a NaN comes back as the canonical NaN. */
  function Canonical(f: Field): Field {
    if f.Dbl? then Dbl(ToLongBits(f.d)) else f
  }

  function Canonicals(fs: seq<Field>): (r: seq<Field>)
    ensures |r| == |fs|
  {
    if fs == [] then [] else [Canonical(fs[0])] + Canonicals(fs[1..])
  }

  function Kinds(fs: seq<Field>): (r: seq<Kind>)
    ensures |r| == |fs|
  {
    if fs == [] then [] else [KindOf(fs[0])] + Kinds(fs[1..])
  }

  /** The kind of each field, position by position. */
  lemma {:induction false} KindsAt(fs: seq<Field>)
    ensures forall i | 0 <= i < |fs| :: Kinds(fs)[i] == KindOf(fs[i])
  {
    if fs != [] {
      KindsAt(fs[1..]);
      assert forall i | 1 <= i < |fs| :: fs[1..][i - 1] == fs[i];
    }
  }

  /** Reading back changes each field on its own, position by position. */
  lemma {:induction false} CanonicalsAt(fs: seq<Field>)
    ensures forall i | 0 <= i < |fs| :: Canonicals(fs)[i] == Canonical(fs[i])
  {
    if fs != [] {
      CanonicalsAt(fs[1..]);
      assert forall i | 1 <= i < |fs| :: fs[1..][i - 1] == fs[i];
    }
  }

  /** `f` is written out as exactly `bytes`. */
  predicate EncodesField(f: Field, bytes: seq<u8>) {
    EncodeField(f).Ok? && EncodeField(f).value == bytes
  }

  /** The run of fields `fs` is written out as exactly `bytes`. */
  predicate Encodes(fs: seq<Field>, bytes: seq<u8>) {
    EncodeFields(fs).Ok? && EncodeFields(fs).value == bytes
  }

  /** Reading a `k` at the front of `b` gives `f` and takes `n` bytes. */
  predicate ReadsField(k: Kind, b: seq<u8>, f: Field, n: nat) {
    ReadField(k, b).Ok? && ReadField(k, b).value.0 == f && ReadField(k, b).value.1 == n
  }

  /** Reading the kinds `ks` at the front of `b` gives `fs` and takes `n` bytes. */
  predicate ReadsFields(ks: seq<Kind>, b: seq<u8>, fs: seq<Field>, n: nat) {
    ReadFields(ks, b).Ok? && ReadFields(ks, b).value.0 == fs && ReadFields(ks, b).value.1 == n
  }

  lemma ReadEncodedField(f: Field, bytes: seq<u8>, rest: seq<u8>)
    requires EncodesField(f, bytes)
    ensures ReadsField(KindOf(f), bytes + rest, Canonical(f), |bytes|)
  {
    if f.Str? {
      ReadEncodedUtf(f.s, bytes, rest);
    } else {
      ReadEncodedFixed(f, bytes, rest);
    }
  }

  /** `readUTF` takes back what `writeUTF` wrote, and only that. */
  lemma ReadEncodedUtf(s: JString, bytes: seq<u8>, rest: seq<u8>)
    requires Utf(s).Ok? && Utf(s).value == bytes
    ensures ReadUtf(bytes + rest).Ok?
    ensures ReadUtf(bytes + rest).value.0 == s && ReadUtf(bytes + rest).value.1 == |bytes|
  {
    var body := ModifiedUtf8.Encode(s);
    var lenBytes := BigEndian(|body|, 2);
    var b := bytes + rest;
    assert bytes == lenBytes + body;
    assert b[0] as int * 256 + b[1] as int == |body| by {
      Pow256Values();
      FromBigEndianRoundTrip(|body|, 2);
      assert lenBytes[..1] == [lenBytes[0]];
      assert b[0] == lenBytes[0] && b[1] == lenBytes[1];
    }
    assert b[2..2 + |body|] == body;
    ModifiedUtf8.DecodeEncode(s);
  }

  /** A fixed-width read takes back what the matching write wrote (a NaN as the canonical NaN). */
  lemma ReadEncodedFixed(f: Field, bytes: seq<u8>, rest: seq<u8>)
    requires !f.Str? && EncodesField(f, bytes)
    ensures |bytes| == Width(KindOf(f))
    ensures FixedField(KindOf(f), (bytes + rest)[..|bytes|]) == Canonical(f)
  {
    match f
    case Int(i) => ReadBackInt(i, rest);
    case Long(l) => ReadBackLong(l, rest);
    case Dbl(d) => ReadBackBits(ToLongBits(d), rest);
    case Bool(_) => assert (bytes + rest)[..|bytes|] == bytes;
  }

  lemma ReadBackInt(i: int32, rest: seq<u8>)
    ensures FixedField(KInt, (BigEndian(Unsigned32(i), 4) + rest)[..4]) == Int(i)
  {
    var bytes := BigEndian(Unsigned32(i), 4);
    assert (bytes + rest)[..4] == bytes;
    assert FromBigEndian(bytes) == Unsigned32(i) by {
      Pow256Values();
      FromBigEndianRoundTrip(Unsigned32(i), 4);
    }
    Wrap32Unsigned(i);
  }

  lemma ReadBackLong(l: int64, rest: seq<u8>)
    ensures FixedField(KLong, (BigEndian(Unsigned64(l), 8) + rest)[..8]) == Long(l)
  {
    var bytes := BigEndian(Unsigned64(l), 8);
    assert (bytes + rest)[..8] == bytes;
    assert FromBigEndian(bytes) == Unsigned64(l) by {
      Pow256Values();
      FromBigEndianRoundTrip(Unsigned64(l), 8);
    }
    Wrap64Unsigned(l);
  }

  lemma ReadBackBits(u: bits64, rest: seq<u8>)
    ensures FixedField(KDouble, (BigEndian(u, 8) + rest)[..8]) == Dbl(u)
  {
    var bytes := BigEndian(u, 8);
    assert (bytes + rest)[..8] == bytes;
    assert FromBigEndian(bytes) == u by {
      Pow256Values();
      FromBigEndianRoundTrip(u, 8);
    }
    BitsBelowTwo64(u);
  }

  lemma BitsBelowTwo64(u: bits64)
    ensures u % TWO_64 == u
  {
  }

  lemma Wrap32Unsigned(i: int32)
    ensures Wrap32(Unsigned32(i)) == i
  {
  }

  lemma Wrap64Unsigned(l: int64)
    ensures Wrap64(Unsigned64(l)) == l
  {
  }

  /** Reading the fields back, in the order they were written, gives them all back. */
  lemma {:induction false} ReadEncodedFields(fs: seq<Field>, bytes: seq<u8>, rest: seq<u8>)
    requires Encodes(fs, bytes)
    ensures ReadsFields(Kinds(fs), bytes + rest, Canonicals(fs), |bytes|)
  {
    if fs != [] {
      var head, tail := EncodeFieldsStep(fs, bytes);
      var ks := Kinds(fs);
      var b := bytes + rest;
      KindsStep(fs);
      assert Canonicals(fs) == [Canonical(fs[0])] + Canonicals(fs[1..]);
      assert b == head + (tail + rest);
      assert b[|head|..] == tail + rest;
      ReadEncodedField(fs[0], head, tail + rest);
      ReadEncodedFields(fs[1..], tail, rest);
      ReadFieldsCons(ks, b, Canonical(fs[0]), |head|, Canonicals(fs[1..]), |tail|);
    }
  }

  /** A run of reads is its first read followed by the others. */
  lemma ReadFieldsCons(ks: seq<Kind>, b: seq<u8>, f: Field, n: nat, fs: seq<Field>, m: nat)
    requires ks != [] && ReadsField(ks[0], b, f, n)
    requires ReadsFields(ks[1..], b[n..], fs, m)
    ensures ReadsFields(ks, b, [f] + fs, n + m)
  {
  }

  lemma KindsStep(fs: seq<Field>)
    requires fs != []
    ensures Kinds(fs)[0] == KindOf(fs[0]) && Kinds(fs)[1..] == Kinds(fs[1..])
  {
  }

  /** How a successful run of writes splits after its first field. */
  lemma EncodeFieldsStep(fs: seq<Field>, bytes: seq<u8>) returns (head: seq<u8>, tail: seq<u8>)
    requires fs != [] && Encodes(fs, bytes)
    ensures EncodesField(fs[0], head) && Encodes(fs[1..], tail)
    ensures bytes == head + tail
  {
    head := EncodeField(fs[0]).value;
    tail := EncodeFields(fs[1..]).value;
  }

  lemma ReadFieldTruncated(f: Field, bytes: seq<u8>, p: nat)
    requires EncodesField(f, bytes) && p < |bytes|
    ensures ReadField(KindOf(f), bytes[..p]).Err? && ReadField(KindOf(f), bytes[..p]).error == EOF
  {
    if f.Str? && p >= 2 {
      var body := ModifiedUtf8.Encode(f.s);
      FromBigEndianRoundTrip(|body|, 2);
      Pow256Values();
      var lenBytes := BigEndian(|body|, 2);
      assert FromBigEndian(lenBytes) == lenBytes[0] as int * 256 + lenBytes[1] as int by {
        assert lenBytes[..1] == [lenBytes[0]];
      }
      assert bytes[..p][0] == lenBytes[0] && bytes[..p][1] == lenBytes[1];
    }
  }

  /** A message cut short anywhere makes some read throw EOFException. */
  lemma {:induction false} ReadFieldsTruncated(fs: seq<Field>, bytes: seq<u8>, p: nat)
    requires Encodes(fs, bytes) && p < |bytes|
    ensures ReadFields(Kinds(fs), bytes[..p]).Err? && ReadFields(Kinds(fs), bytes[..p]).error == EOF
    decreases |fs|, 1
  {
    var head, tail := EncodeFieldsStep(fs, bytes);
    if p < |head| {
      TruncatedInFirst(fs, head, tail, p);
    } else {
      TruncatedAfterFirst(fs, head, tail, p);
    }
  }

  /** The cut falls inside the first field: that read throws. */
  lemma TruncatedInFirst(fs: seq<Field>, head: seq<u8>, tail: seq<u8>, p: nat)
    requires fs != [] && EncodesField(fs[0], head) && p < |head|
    ensures ReadFields(Kinds(fs), (head + tail)[..p]).Err? && ReadFields(Kinds(fs), (head + tail)[..p]).error == EOF
  {
    KindsStep(fs);
    PrefixOfConcat(head, tail, p);
    ReadFieldTruncated(fs[0], head, p);
    ReadFieldsHeadErr(Kinds(fs), (head + tail)[..p]);
  }

  /** The cut falls after the first field: that read succeeds and a later one throws. */
  lemma {:induction false} TruncatedAfterFirst(fs: seq<Field>, head: seq<u8>, tail: seq<u8>, p: nat)
    requires fs != [] && EncodesField(fs[0], head) && Encodes(fs[1..], tail) && |head| <= p < |head| + |tail|
    ensures ReadFields(Kinds(fs), (head + tail)[..p]).Err? && ReadFields(Kinds(fs), (head + tail)[..p]).error == EOF
    decreases |fs|, 0
  {
    var b := (head + tail)[..p];
    var cut := tail[..p - |head|];
    KindsStep(fs);
    PrefixOfConcat(head, tail, p);
    assert b[|head|..] == cut;
    ReadEncodedField(fs[0], head, cut);
    ReadFieldsTruncated(fs[1..], tail, p - |head|);
    ReadFieldsTailErr(Kinds(fs), b, Canonical(fs[0]), |head|);
  }

  /** Where a prefix of two sequences put together ends. */
  lemma PrefixOfConcat(x: seq<u8>, y: seq<u8>, p: nat)
    requires p <= |x| + |y|
    ensures p < |x| ==> (x + y)[..p] == x[..p]
    ensures p >= |x| ==> (x + y)[..p] == x + y[..p - |x|]
  {
  }

  /** A run of reads whose first read throws throws the same. */
  lemma ReadFieldsHeadErr(ks: seq<Kind>, b: seq<u8>)
    requires ks != [] && ReadField(ks[0], b).Err?
    ensures ReadFields(ks, b).Err? && ReadFields(ks, b).error == ReadField(ks[0], b).error
  {
  }

  /** A run of reads whose first read succeeds throws what the rest of the run throws. */
  lemma ReadFieldsTailErr(ks: seq<Kind>, b: seq<u8>, f: Field, n: nat)
    requires ks != [] && ReadsField(ks[0], b, f, n)
    requires ReadFields(ks[1..], b[n..]).Err?
    ensures ReadFields(ks, b).Err? && ReadFields(ks, b).error == ReadFields(ks[1..], b[n..]).error
  {
  }

  /** Two runs of writes back to back succeed exactly when both do, and their bytes follow each other. */
  lemma {:induction false} EncodeFieldsConcat(a: seq<Field>, b: seq<Field>)
    ensures EncodeFields(a + b).Ok? <==> EncodeFields(a).Ok? && EncodeFields(b).Ok?
    ensures EncodeFields(a + b).Ok? ==> EncodeFields(a + b).value == EncodeFields(a).value + EncodeFields(b).value
  {
    if a == [] {
      assert a + b == b;
    } else {
      EncodeFieldsConcat(a[1..], b);
      assert (a + b)[1..] == a[1..] + b;
      assert (a + b)[0] == a[0];
    }
  }

  /** A `DataOutputStream` writing into a `ByteArrayOutputStream`. */
  class DataOutput {
    /** What the `ByteArrayOutputStream` holds so far. */
    var bytes: seq<u8>
    /** The fields written so far, in order. */
    ghost var written: seq<Field>

    /** The buffer holds exactly the encoding of the fields written. */
    ghost predicate Valid()
      reads this
    {
      Encodes(written, bytes)
    }

    constructor ()
      ensures Valid() && bytes == [] && written == []
    {
      bytes := [];
      written := [];
    }

    /** Appends one field, or throws (and appends nothing) when `writeUTF` refuses the string. */
    method Write(f: Field) returns (r: Result<(), IoError>)
      requires Valid()
      modifies this
      ensures Valid()
      ensures r.Ok? <==> EncodeField(f).Ok?
      ensures r.Err? ==> r.error == EncodeField(f).error && bytes == old(bytes) && written == old(written)
      ensures r.Err? ==> EncodeFields(written + [f]).Err?
      ensures r.Ok? ==> bytes == old(bytes) + EncodeField(f).value && written == old(written) + [f]
    {
      EncodeFieldsConcat(written, [f]);
      assert [f][1..] == [];
      match EncodeField(f)
      case Err(e) =>
        r := Err(e);
      case Ok(b) =>
        assert b + [] == b;
        bytes := bytes + b;
        written := written + [f];
        r := Ok(());
    }
  }

  /** A `DataInputStream` reading from a `ByteArrayInputStream`. */
  class DataInput {
    const buf: seq<u8>
    var pos: nat

    ghost predicate Valid()
      reads this
    {
      pos <= |buf|
    }

    /** What is still to be read. */
    ghost function Remaining(): seq<u8>
      reads this
      requires Valid()
    {
      buf[pos..]
    }

    constructor (data: seq<u8>)
      ensures Valid() && buf == data && pos == 0
    {
      buf := data;
      pos := 0;
    }

    /** One read; on success the cursor moves past the field. */
    method Read(k: Kind) returns (r: Result<Field, IoError>)
      requires Valid()
      modifies this
      ensures Valid()
      ensures match ReadField(k, old(Remaining()))
        case Err(e) => r == Err(e)
        case Ok((f, n)) => r == Ok(f) && pos == old(pos) + n
    {
      match ReadField(k, buf[pos..])
      case Err(e) =>
        r := Err(e);
      case Ok((f, n)) =>
        pos := pos + n;
        r := Ok(f);
    }
  }
}
