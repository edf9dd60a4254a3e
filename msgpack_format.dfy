/** The bytes each MessagePack emitter of the msgpack plugin appends, and a
    reference reader for the MessagePack format families they use. The
    reader is the partner of every emitter: reading back what an emitter
    wrote gives back the value it was asked to write. */
module MsgPackFormat {
  import opened Bytes
  import opened Opt

  /** One decoded MessagePack item. Maps and arrays are read as a header
      carrying their element count; the elements follow as further items. */
  datatype Token =
    | Nil
    | Bool(flag: bool)
    | Int(value: int)
    | Str(text: seq<byte>)
    | Bin(blob: seq<byte>)
    | ArrayHead(count: nat)
    | MapHead(count: nat)

  const INT64_MIN: int := -0x8000_0000_0000_0000
  const INT64_MAX: int := 0x7fff_ffff_ffff_ffff

  /** "map format family": fixmap, map16, map32. */
  function MapHeader(len: u32): (r: seq<byte>)
  {
    if len <= 15 then [0x80 + len]
    else if len <= 0xffff then [0xDE] + U16Be(len)
    else [0xDF] + U32Be(len)
  }

  /** "array format family": fixarray, array16, array32. It differs from the
      map header only in its first (tag) byte. */
  function ArrayHeader(len: u32): (r: seq<byte>)
    ensures |r| == |MapHeader(len)| && r[1..] == MapHeader(len)[1..]
    ensures r[0] == if len <= 15 then MapHeader(len)[0] + 0x10 else MapHeader(len)[0] - 2
  {
    if len <= 15 then [0x90 + len]
    else if len <= 0xffff then [0xDC] + U16Be(len)
    else [0xDD] + U32Be(len)
  }

  /** "str format family" header: fixstr, str16, str32. The str8 form (0xD9)
      is skipped, for readers of the older specification. */
  function StrHeader(len: u32): (r: seq<byte>)
    ensures |r| >= 1 && r[0] != 0xD9
  {
    if len <= 31 then [0xA0 + len]
    else if len <= 0xffff then [0xDA] + U16Be(len)
    else [0xDB] + U32Be(len)
  }

  /** "bin format family" header: bin8, bin16, bin32. */
  function BinHeader(len: u32): (r: seq<byte>)
  {
    if len <= 0xff then [0xC4, len]
    else if len <= 0xffff then [0xC5] + U16Be(len)
    else [0xC6] + U32Be(len)
  }

  /** A string: its header, then exactly its payload bytes. */
  function StrBytes(s: seq<byte>): (r: seq<byte>)
    requires |s| < 0x1_0000_0000
    ensures |r| > |s| && r[|r| - |s|..] == s
  {
    StrHeader(|s|) + s
  }

  /** A binary blob: its header, then exactly its payload bytes. */
  function BinBytes(s: seq<byte>): (r: seq<byte>)
    requires |s| < 0x1_0000_0000
    ensures |r| > |s| && r[|r| - |s|..] == s
  {
    BinHeader(|s|) + s
  }

  const NilBytes: seq<byte> := [0xC0]
  const TrueBytes: seq<byte> := [0xC3]
  const FalseBytes: seq<byte> := [0xC2]

  /** The integer emitter as the plugin writes it: 1..127 as a positive
      fixint, anything else as the int64 tag 0xD3 followed by only the low
      32 bits of the value. */
  function IntBytesAsWritten(num: int): (r: seq<byte>)
    requires INT64_MIN <= num <= INT64_MAX
  {
    if 0 < num <= 127 then [num] else [0xD3] + U32Be(ToU32(num))
  }

  /** The integer emitter as the int64 format defines it: the tag 0xD3 and
      the 64-bit two's complement value, big-endian. */
  function Int64Bytes(num: int): (r: seq<byte>)
    requires INT64_MIN <= num <= INT64_MAX
  {
    if 0 < num <= 127 then [num] else [0xD3] + U64Be(num % 0x1_0000_0000_0000_0000)
  }

  /** Two's complement reading of 64 bits. */
  function Signed64(u: u64): int
  {
    if u <= INT64_MAX then u else u - 0x1_0000_0000_0000_0000
  }

  function TextAt(b: seq<byte>, at: nat, n: nat): Option<(Token, nat)>
  {
    if at + n <= |b| then Some((Str(b[at..at + n]), at + n)) else None
  }

  function BlobAt(b: seq<byte>, at: nat, n: nat): Option<(Token, nat)>
  {
    if at + n <= |b| then Some((Bin(b[at..at + n]), at + n)) else None
  }

  /** Reads the first item of `b` as a MessagePack reader does, giving the
      item and the number of bytes it occupies; None when the bytes are cut
      short or use a format outside the families this plugin writes. */
  function ReadToken(b: seq<byte>): (r: Option<(Token, nat)>)
    ensures r.Some? ==> 0 < r.value.1 <= |b|
  {
    if |b| == 0 then None
    else
      var t := b[0];
      if t < 0x80 then Some((Int(t), 1))
      else if t < 0x90 then Some((MapHead(t - 0x80), 1))
      else if t < 0xA0 then Some((ArrayHead(t - 0x90), 1))
      else if t < 0xC0 then TextAt(b, 1, t - 0xA0)
      else if t == 0xC0 then Some((Nil, 1))
      else if t == 0xC2 then Some((Bool(false), 1))
      else if t == 0xC3 then Some((Bool(true), 1))
      else if t == 0xC4 then (if |b| < 2 then None else BlobAt(b, 2, b[1]))
      else if t == 0xC5 then (if |b| < 3 then None else BlobAt(b, 3, ReadU16Be(b[1..])))
      else if t == 0xC6 then (if |b| < 5 then None else BlobAt(b, 5, ReadU32Be(b[1..])))
      else if t == 0xD3 then (if |b| < 9 then None else Some((Int(Signed64(ReadU64Be(b[1..]))), 9)))
      else if t == 0xD9 then (if |b| < 2 then None else TextAt(b, 2, b[1]))
      else if t == 0xDA then (if |b| < 3 then None else TextAt(b, 3, ReadU16Be(b[1..])))
      else if t == 0xDB then (if |b| < 5 then None else TextAt(b, 5, ReadU32Be(b[1..])))
      else if t == 0xDC then (if |b| < 3 then None else Some((ArrayHead(ReadU16Be(b[1..])), 3)))
      else if t == 0xDD then (if |b| < 5 then None else Some((ArrayHead(ReadU32Be(b[1..])), 5)))
      else if t == 0xDE then (if |b| < 3 then None else Some((MapHead(ReadU16Be(b[1..])), 3)))
      else if t == 0xDF then (if |b| < 5 then None else Some((MapHead(ReadU32Be(b[1..])), 5)))
      else if t >= 0xE0 then Some((Int(t as int - 0x100), 1))
      else None
  }

  /** A token the writer can produce: lengths and counts fit in 32 bits and
      integers in 64. */
  predicate Writable(t: Token)
  {
    match t
    case Int(v) => INT64_MIN <= v <= INT64_MAX
    case Str(s) => |s| < 0x1_0000_0000
    case Bin(s) => |s| < 0x1_0000_0000
    case ArrayHead(n) => n < 0x1_0000_0000
    case MapHead(n) => n < 0x1_0000_0000
    case _ => true
  }

  /** The bytes that encode one token, using the emitters above (and the
      int64 form that the format defines for integers). */
  function Encode(t: Token): seq<byte>
    requires Writable(t)
  {
    match t
    case Nil => NilBytes
    case Bool(f) => if f then TrueBytes else FalseBytes
    case Int(v) => Int64Bytes(v)
    case Str(s) => StrBytes(s)
    case Bin(s) => BinBytes(s)
    case ArrayHead(n) => ArrayHeader(n)
    case MapHead(n) => MapHeader(n)
  }

  lemma MapHeaderReads(len: u32, rest: seq<byte>)
    ensures ReadToken(MapHeader(len) + rest) == Some((MapHead(len), |MapHeader(len)|))
  {
    var b := MapHeader(len) + rest;
    if 15 < len <= 0xffff {
      assert b[1..] == U16Be(len) + rest;
      U16RoundTrip(len, rest);
    } else if 0xffff < len {
      assert b[1..] == U32Be(len) + rest;
      U32RoundTrip(len, rest);
    }
  }

  lemma ArrayHeaderReads(len: u32, rest: seq<byte>)
    ensures ReadToken(ArrayHeader(len) + rest) == Some((ArrayHead(len), |ArrayHeader(len)|))
  {
    var b := ArrayHeader(len) + rest;
    if 15 < len <= 0xffff {
      assert b[1..] == U16Be(len) + rest;
      U16RoundTrip(len, rest);
    } else if 0xffff < len {
      assert b[1..] == U32Be(len) + rest;
      U32RoundTrip(len, rest);
    }
  }

  lemma StrReads(s: seq<byte>, rest: seq<byte>)
    requires |s| < 0x1_0000_0000
    ensures ReadToken(StrBytes(s) + rest) == Some((Str(s), |StrBytes(s)|))
  {
    var len := |s|;
    var h := StrHeader(len);
    var b := StrBytes(s) + rest;
    assert b == h + (s + rest);
    assert b[|h|..|h| + len] == s;
    if 31 < len <= 0xffff {
      assert b[1..] == U16Be(len) + (s + rest);
      U16RoundTrip(len, s + rest);
    } else if 0xffff < len {
      assert b[1..] == U32Be(len) + (s + rest);
      U32RoundTrip(len, s + rest);
    }
  }

  lemma BinReads(s: seq<byte>, rest: seq<byte>)
    requires |s| < 0x1_0000_0000
    ensures ReadToken(BinBytes(s) + rest) == Some((Bin(s), |BinBytes(s)|))
  {
    var len := |s|;
    var h := BinHeader(len);
    var b := BinBytes(s) + rest;
    assert b == h + (s + rest);
    assert b[|h|..|h| + len] == s;
    if 0xff < len <= 0xffff {
      assert b[1..] == U16Be(len) + (s + rest);
      U16RoundTrip(len, s + rest);
    } else if 0xffff < len {
      assert b[1..] == U32Be(len) + (s + rest);
      U32RoundTrip(len, s + rest);
    }
  }

  lemma Int64Reads(num: int, rest: seq<byte>)
    requires INT64_MIN <= num <= INT64_MAX
    ensures ReadToken(Int64Bytes(num) + rest) == Some((Int(num), |Int64Bytes(num)|))
  {
    if !(0 < num <= 127) {
      var u: u64 := num % 0x1_0000_0000_0000_0000;
      assert Int64Bytes(num) == [0xD3] + U64Be(u);
      var b := Int64Bytes(num) + rest;
      TagThen(0xD3, U64Be(u), rest);
      U64RoundTrip(u, rest);
      Signed64Inverse(num);
      ReadInt64At(b);
    }
  }

  lemma TagThen(tag: byte, body: seq<byte>, rest: seq<byte>)
    ensures var b := [tag] + body + rest; b[0] == tag && b[1..] == body + rest
  {
    var b := [tag] + body + rest;
    assert b[1..] == body + rest;
  }

  /** The reader's int64 case: tag 0xD3 and eight big-endian bytes. */
  lemma ReadInt64At(b: seq<byte>)
    requires |b| >= 9 && b[0] == 0xD3
    ensures ReadToken(b) == Some((Int(Signed64(ReadU64Be(b[1..]))), 9))
  {
  }

  lemma Signed64Inverse(num: int)
    requires INT64_MIN <= num <= INT64_MAX
    ensures Signed64(num % 0x1_0000_0000_0000_0000) == num
  {
    if num < 0 {
      assert num % 0x1_0000_0000_0000_0000 == num + 0x1_0000_0000_0000_0000;
    }
  }

  /** Every writable token is read back whole from its encoding, whatever
      bytes follow it. */
  lemma EncodeReads(t: Token, rest: seq<byte>)
    requires Writable(t)
    ensures ReadToken(Encode(t) + rest) == Some((t, |Encode(t)|))
  {
    match t
    case Nil =>
    case Bool(f) =>
    case Int(v) => Int64Reads(v, rest);
    case Str(s) => StrReads(s, rest);
    case Bin(s) => BinReads(s, rest);
    case ArrayHead(n) => ArrayHeaderReads(n, rest);
    case MapHead(n) => MapHeaderReads(n, rest);
  }

  /** Reads a whole byte string as a sequence of items; None when some item
      cannot be read. */
  function ReadTokens(b: seq<byte>): Option<seq<Token>>
    decreases |b|
  {
    if b == [] then Some([])
    else match ReadToken(b)
      case None => None
      case Some((t, n)) =>
        match ReadTokens(b[n..])
        case None => None
        case Some(ts) => Some([t] + ts)
  }

  /** The item an encoding starts with is read first, and reading goes on
      right after its last byte. */
  lemma ReadTokensCons(t: Token, rest: seq<byte>)
    requires Writable(t)
    ensures ReadTokens(Encode(t) + rest) ==
            match ReadTokens(rest) case None => None case Some(ts) => Some([t] + ts)
  {
    EncodeReads(t, rest);
    var b := Encode(t) + rest;
    assert b[|Encode(t)|..] == rest;
  }

  /** For any value outside 1..127 the plugin's integer emitter writes
      bytes a MessagePack reader cannot read: on their own they are no
      stream at all, since the reader wants 8 bytes after the 0xD3 tag where
      the writer put 4; and whatever follows, they never read as one 5-byte
      item. */
  lemma IntAsWrittenMisreads(num: int, rest: seq<byte>)
    requires INT64_MIN <= num <= INT64_MAX
    requires !(0 < num <= 127)
    ensures |IntBytesAsWritten(num)| == 5
    ensures ReadTokens(IntBytesAsWritten(num)) == None
    ensures ReadToken(IntBytesAsWritten(num) + rest) != Some((Int(num), 5))
  {
    var w := IntBytesAsWritten(num);
    assert |w| == 5 && w[0] == 0xD3;
    var b := w + rest;
    assert b[0] == 0xD3;
  }

  /** A concrete instance: zero, written alone, cannot be read at all. */
  lemma IntAsWrittenZero()
    ensures IntBytesAsWritten(0) == [0xD3, 0, 0, 0, 0]
    ensures ReadToken(IntBytesAsWritten(0)) == None
  {
    assert U32Be(0) == [0, 0, 0, 0];
  }

  /** Within 1..127 the two integer emitters agree. */
  lemma IntFixintAgrees(num: int)
    requires 0 < num <= 127
    ensures IntBytesAsWritten(num) == Int64Bytes(num) == [num]
  {
  }
}
