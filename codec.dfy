/**
 * The per-level settings file (LoadMtdSettings / SaveMtdSettings).
 *
 * A file holds a .NET BinaryWriter string (its UTF-8 byte count as a 7-bit
 * encoded integer, then the bytes) followed by seven little-endian single
 * precision floats: offset x, y, z, angles x, y, z, render distance.
 * Floats are kept as their 32-bit patterns, so nothing is lost in a round trip.
 */
module Codec {

  /** One byte of a file. */
  newtype Byte = b: int | 0 <= b < 0x100

  /**
   * An IEEE 754 binary32 value, as the four bytes of its bit pattern in
   * little-endian order (b3 holds the sign bit). Its numeric value is never
   * needed: the model only stores, copies and negates floats.
   */
  datatype F32 = F32(b0: Byte, b1: Byte, b2: Byte, b3: Byte)

  datatype Vec3 = Vec3(x: F32, y: F32, z: F32)

  /** BackdropOffset, BackdropAngles and BackdropRenderDistance. */
  datatype Settings = Settings(offset: Vec3, angles: Vec3, renderDistance: F32)

  /** What BinaryReader throws on a bad file. */
  datatype ReadError =
    | EndOfStream   // fewer bytes left than the next field needs
    | BadLength     // a 7-bit length longer than five bytes, or a negative length

  datatype Result<T> = Ok(value: T) | Err(error: ReadError)

  /** 0f (0x00000000) and 50000f (0x47435000). */
  const ZeroF32: F32 := F32(0, 0, 0, 0)
  const DefaultRenderDistance: F32 := F32(0x00, 0x50, 0x43, 0x47)

  const ZeroVec: Vec3 := Vec3(ZeroF32, ZeroF32, ZeroF32)

  /** The values used when no file exists for the map. */
  const Defaults: Settings := Settings(ZeroVec, ZeroVec, DefaultRenderDistance)

  predicate SignSet(f: F32)
  {
    f.b3 >= 0x80
  }

  /** Unary minus on a float flips the sign bit and keeps the other 31 bits. */
  function Neg(f: F32): (r: F32)
    ensures SignSet(r) != SignSet(f)
    ensures r.b0 == f.b0 && r.b1 == f.b1 && r.b2 == f.b2 && r.b3 % 0x80 == f.b3 % 0x80
  {
    F32(f.b0, f.b1, f.b2, if SignSet(f) then f.b3 - 0x80 else f.b3 + 0x80)
  }

  function NegVec(v: Vec3): Vec3
  {
    Vec3(Neg(v.x), Neg(v.y), Neg(v.z))
  }

  /** Negating twice gives the original bit pattern back. */
  lemma NegInvolution(f: F32)
    ensures Neg(Neg(f)) == f
  {
  }

  // ---------------------------------------------------------------- writing

  /** BinaryWriter.Write(float): the four bytes, least significant first. */
  function SingleBytes(f: F32): (r: seq<Byte>)
    ensures |r| == 4
  {
    [f.b0, f.b1, f.b2, f.b3]
  }

  function Vec3Bytes(v: Vec3): (r: seq<Byte>)
    ensures |r| == 12
  {
    SingleBytes(v.x) + SingleBytes(v.y) + SingleBytes(v.z)
  }

  /**
   * Write7BitEncodedInt: seven bits per byte, low group first, the high bit
   * set on every byte but the last.
   */
  function SevenBit(n: nat): (r: seq<Byte>)
    ensures |r| >= 1
    ensures forall i :: 0 <= i < |r| - 1 ==> r[i] >= 0x80
    ensures r[|r| - 1] < 0x80
    decreases n
  {
    if n < 0x80 then [n as Byte]
    else
      var low := n % 0x80 + 0x80;
      assert 0x80 <= low < 0x100;
      var rest := SevenBit(n / 0x80);
      var r := [low as Byte] + rest;
      assert forall i :: 0 < i < |r| ==> r[i] == rest[i - 1];
      r
  }

  /** The 28 bytes after the header string. */
  function BodyBytes(s: Settings): (r: seq<Byte>)
    ensures |r| == 28
  {
    Vec3Bytes(s.offset) + Vec3Bytes(s.angles) + SingleBytes(s.renderDistance)
  }

  /** SaveMtdSettings' file contents, for a header whose UTF-8 bytes are `header`. */
  function Encode(header: seq<Byte>, s: Settings): (r: seq<Byte>)
    requires |header| < 0x8000_0000
    ensures |r| == |SevenBit(|header|)| + |header| + 28
    ensures r[|SevenBit(|header|)|..|SevenBit(|header|)| + |header|] == header
  {
    var r := SevenBit(|header|) + header + BodyBytes(s);
    assert r[|SevenBit(|header|)|..|SevenBit(|header|)| + |header|] == header;
    r
  }

  /** The header "NACHSAVEMTDSET" as the bytes BinaryWriter writes for it. */
  const MtdHeader: string := "NACHSAVEMTDSET"

  function AsciiBytes(s: string): (r: seq<Byte>)
    requires forall i :: 0 <= i < |s| ==> s[i] as int < 0x80
    ensures |r| == |s|
    ensures forall i :: 0 <= i < |s| ==> r[i] as int == s[i] as int
  {
    seq(|s|, i requires 0 <= i < |s| => (s[i] as int) as Byte)
  }

  function MtdHeaderBytes(): (r: seq<Byte>)
    ensures |r| == 14
  {
    AsciiBytes(MtdHeader)
  }

  // ---------------------------------------------------------------- reading

  /** BinaryReader.ReadSingle at `pos`: the value and the position after it. */
  function ReadSingle(data: seq<Byte>, pos: nat): (r: Result<(F32, nat)>)
    ensures r.Ok? <==> pos + 4 <= |data|
    ensures r.Ok? ==> r.value.1 == pos + 4
    ensures r.Err? ==> r.error == EndOfStream
  {
    if pos + 4 <= |data| then
      Ok((F32(data[pos], data[pos + 1], data[pos + 2], data[pos + 3]), pos + 4))
    else Err(EndOfStream)
  }

  function ReadVec3(data: seq<Byte>, pos: nat): (r: Result<(Vec3, nat)>)
    ensures r.Ok? <==> pos + 12 <= |data|
    ensures r.Ok? ==> r.value.1 == pos + 12
  {
    match ReadSingle(data, pos)
    case Err(e) => Err(e)
    case Ok((x, p1)) =>
      match ReadSingle(data, p1)
      case Err(e) => Err(e)
      case Ok((y, p2)) =>
        match ReadSingle(data, p2)
        case Err(e) => Err(e)
        case Ok((z, p3)) => Ok((Vec3(x, y, z), p3))
  }

  /**
   * Read7BitEncodedInt from `pos`, where `k` groups are already read: the
   * unsigned value of the remaining groups and the position after them. A
   * sixth byte is never read.
   */
  function ReadSevenBit(data: seq<Byte>, pos: nat, k: nat): (r: Result<(nat, nat)>)
    requires k <= 5
    ensures r.Ok? ==> pos < r.value.1 <= |data|
    decreases 5 - k
  {
    if k == 5 then Err(BadLength)
    else if pos >= |data| then Err(EndOfStream)
    else if data[pos] < 0x80 then Ok((data[pos] as int, pos + 1))
    else
      match ReadSevenBit(data, pos + 1, k + 1)
      case Err(e) => Err(e)
      case Ok((v, p)) => Ok((data[pos] as int - 0x80 + 0x80 * v, p))
  }

  /**
   * BinaryReader.ReadString with the characters thrown away: the position
   * after the string. The length is an Int32, so only its low 32 bits count
   * and a set sign bit is an error.
   */
  function SkipString(data: seq<Byte>, pos: nat): (r: Result<nat>)
    ensures r.Ok? ==> pos < r.value <= |data|
  {
    match ReadSevenBit(data, pos, 0)
    case Err(e) => Err(e)
    case Ok((v, p)) =>
      var len := v % 0x1_0000_0000;
      if len >= 0x8000_0000 then Err(BadLength)
      else if p + len > |data| then Err(EndOfStream)
      else Ok(p + len)
  }

  /** The header, then BackdropOffset: the first assignment LoadMtdSettings makes. */
  function ReadOffset(data: seq<Byte>): (r: Result<(Vec3, nat)>)
    ensures r.Ok? ==> SkipString(data, 0).Ok? && r.value.1 == SkipString(data, 0).value + 12 <= |data|
  {
    match SkipString(data, 0)
    case Err(e) => Err(e)
    case Ok(p) => ReadVec3(data, p)
  }

  /** ... then BackdropAngles. */
  function ReadAngles(data: seq<Byte>): (r: Result<(Vec3, nat)>)
    ensures r.Ok? ==> ReadOffset(data).Ok? && r.value.1 == ReadOffset(data).value.1 + 12
  {
    match ReadOffset(data)
    case Err(e) => Err(e)
    case Ok((_, p)) => ReadVec3(data, p)
  }

  /**
   * ... then BackdropRenderDistance: the whole record. Bytes after it are
   * never read. A file loads exactly when its header string is intact and
   * the 28 bytes of the seven floats follow it; a bad header fails as its
   * skip does, and a file that ends early fails with EndOfStream.
   */
  function Decode(data: seq<Byte>): (r: Result<Settings>)
    ensures r.Ok? <==> SkipString(data, 0).Ok? && SkipString(data, 0).value + 28 <= |data|
    ensures SkipString(data, 0).Err? ==> r == Err(SkipString(data, 0).error)
    ensures r.Err? && SkipString(data, 0).Ok? ==> r.error == EndOfStream
  {
    match ReadAngles(data)
    case Err(e) => Err(e)
    case Ok((angles, p)) =>
      match ReadSingle(data, p)
      case Err(e) => Err(e)
      case Ok((d, _)) => Ok(Settings(ReadOffset(data).value.0, angles, d))
  }

  // ---------------------------------------------------------------- lemmas

  function Pow128(m: nat): nat
  {
    if m == 0 then 1 else 0x80 * Pow128(m - 1)
  }

  /** A value below 128^m takes at most m bytes. */
  lemma {:induction false} SevenBitBound(n: nat, m: nat)
    requires 1 <= m && n < Pow128(m)
    ensures |SevenBit(n)| <= m
    decreases m
  {
    if n >= 0x80 {
      SevenBitBound(n / 0x80, m - 1);
    }
  }

  /** Every Int32 byte count fits in the five bytes a reader accepts. */
  lemma SevenBitFitsInt32(n: nat)
    requires n < 0x8000_0000
    ensures |SevenBit(n)| <= 5
  {
    assert Pow128(5) == 0x8_0000_0000;
    SevenBitBound(n, 5);
  }

  /** One continuation byte of a 7-bit length: its low seven bits, then the rest of the groups. */
  lemma ReadSevenBitStep(data: seq<Byte>, pos: nat, k: nat)
    requires k < 5 && pos < |data| && data[pos] >= 0x80
    requires ReadSevenBit(data, pos + 1, k + 1).Ok?
    ensures var (v, p) := ReadSevenBit(data, pos + 1, k + 1).value;
      ReadSevenBit(data, pos, k) == Ok((data[pos] as int - 0x80 + 0x80 * v, p))
  {
  }

  /** Reading back an encoded length from inside any byte sequence. */
  lemma {:induction false} SevenBitRoundTrip(data: seq<Byte>, pos: nat, n: nat, k: nat)
    requires k + |SevenBit(n)| <= 5
    requires pos + |SevenBit(n)| <= |data| && data[pos..pos + |SevenBit(n)|] == SevenBit(n)
    ensures ReadSevenBit(data, pos, k) == Ok((n, pos + |SevenBit(n)|))
    decreases n
  {
    var e := SevenBit(n);
    assert data[pos] == e[0];
    if n >= 0x80 {
      var tail := SevenBit(n / 0x80);
      assert e == [(n % 0x80 + 0x80) as Byte] + tail;
      assert data[pos + 1..pos + 1 + |tail|] == e[1..];
      SevenBitRoundTrip(data, pos + 1, n / 0x80, k + 1);
      ReadSevenBitStep(data, pos, k);
      assert data[pos] as int - 0x80 + 0x80 * (n / 0x80) == n;
    }
  }

  /** A length whose bytes are cut short ends in EndOfStream. */
  lemma {:induction false} SevenBitTruncated(data: seq<Byte>, pos: nat, n: nat, k: nat)
    requires k + |SevenBit(n)| <= 5
    requires pos <= |data| < pos + |SevenBit(n)|
    requires data[pos..] == SevenBit(n)[..|data| - pos]
    ensures ReadSevenBit(data, pos, k) == Err(EndOfStream)
    decreases n
  {
    var e := SevenBit(n);
    if pos < |data| {
      assert data[pos] == e[0];
      var tail := SevenBit(n / 0x80);
      assert e == [(n % 0x80 + 0x80) as Byte] + tail;
      assert data[pos + 1..] == tail[..|data| - pos - 1];
      SevenBitTruncated(data, pos + 1, n / 0x80, k + 1);
    }
  }

  /** The 28 bytes after any prefix read back as the record they encode. */
  lemma BodyRoundTrip(prefix: seq<Byte>, s: Settings, rest: seq<Byte>)
    ensures var data, p := prefix + BodyBytes(s) + rest, |prefix|;
      && ReadVec3(data, p) == Ok((s.offset, p + 12))
      && ReadVec3(data, p + 12) == Ok((s.angles, p + 24))
      && ReadSingle(data, p + 24) == Ok((s.renderDistance, p + 28))
  {
  }

  /** The header string of an encoding is skipped exactly. */
  lemma SkipHeader(header: seq<Byte>, s: Settings, rest: seq<Byte>)
    requires |header| < 0x8000_0000
    ensures SkipString(Encode(header, s) + rest, 0) == Ok(|SevenBit(|header|)| + |header|)
  {
    var data := Encode(header, s) + rest;
    var len := SevenBit(|header|);
    SevenBitFitsInt32(|header|);
    assert data[0..|len|] == len;
    SevenBitRoundTrip(data, 0, |header|, 0);
    assert |header| % 0x1_0000_0000 == |header|;
    assert |len| + |header| <= |data|;
  }

  /**
   * Decoding an encoded record gives the record back, whatever the header
   * and whatever follows it in the file.
   */
  lemma RoundTrip(header: seq<Byte>, s: Settings, rest: seq<Byte>)
    requires |header| < 0x8000_0000
    ensures Decode(Encode(header, s) + rest) == Ok(s)
  {
    var prefix := SevenBit(|header|) + header;
    assert Encode(header, s) + rest == prefix + BodyBytes(s) + rest;
    SkipHeader(header, s, rest);
    BodyRoundTrip(prefix, s, rest);
  }

  /** The header does not influence what is read back. */
  lemma HeaderIgnored(h1: seq<Byte>, h2: seq<Byte>, s: Settings)
    requires |h1| < 0x8000_0000 && |h2| < 0x8000_0000
    ensures Decode(Encode(h1, s)) == Decode(Encode(h2, s)) == Ok(s)
  {
    RoundTrip(h1, s, []);
    RoundTrip(h2, s, []);
    assert Encode(h1, s) + [] == Encode(h1, s);
    assert Encode(h2, s) + [] == Encode(h2, s);
  }

  /** Every strict prefix of an encoded record fails to decode. */
  lemma Truncated(header: seq<Byte>, s: Settings, k: nat)
    requires |header| < 0x8000_0000
    requires k < |Encode(header, s)|
    ensures Decode(Encode(header, s)[..k]).Err?
  {
    var full := Encode(header, s);
    var data := full[..k];
    var len := SevenBit(|header|);
    SevenBitFitsInt32(|header|);
    assert full[..|len|] == len;
    if k < |len| {
      assert data[0..] == len[..k];
      SevenBitTruncated(data, 0, |header|, 0);
      assert SkipString(data, 0).Err?;
    } else {
      assert data[0..|len|] == len;
      SevenBitRoundTrip(data, 0, |header|, 0);
      assert SkipString(data, 0).Ok? ==> SkipString(data, 0).value == |len| + |header|;
    }
  }

  /** The file SaveMtdSettings writes is 43 bytes long. */
  lemma MtdFileSize(s: Settings)
    ensures |Encode(MtdHeaderBytes(), s)| == 43
  {
  }
}
