/** Octets and the fixed-width big-endian integers that the buffer layer
    appends (the `u16be` and `u32be` helpers of the buffer), with the
    reading functions a MessagePack decoder applies to them. */
module Bytes {

  type byte = b: int | 0 <= b < 0x100
  type u16 = n: int | 0 <= n < 0x1_0000
  type u32 = n: int | 0 <= n < 0x1_0000_0000
  type u64 = n: int | 0 <= n < 0x1_0000_0000_0000_0000
  type i32 = n: int | -0x8000_0000 <= n < 0x8000_0000

  /** The conversion of any integer to `uint8_t` (Go's and C's alike): keep
      the low 8 bits. */
  function ToU8(n: int): (r: byte)
    ensures (n - r) % 0x100 == 0
    ensures 0 <= n < 0x100 ==> r == n
  {
    n % 0x100
  }

  /** The conversion to `uint16_t`: keep the low 16 bits. */
  function ToU16(n: int): (r: u16)
    ensures (n - r) % 0x1_0000 == 0
    ensures 0 <= n < 0x1_0000 ==> r == n
  {
    n % 0x1_0000
  }

  /** The conversion to a 32-bit two's complement `int`: keep the low 32
      bits and read them as signed. */
  function ToI32(n: int): (r: i32)
    ensures (n - r) % 0x1_0000_0000 == 0
    ensures -0x8000_0000 <= n < 0x8000_0000 ==> r == n
  {
    (n + 0x8000_0000) % 0x1_0000_0000 - 0x8000_0000
  }

  /** The C conversion of any integer to `uint32_t`: keep the low 32 bits. */
  function ToU32(n: int): (r: u32)
    ensures n - r == (n - r) / 0x1_0000_0000 * 0x1_0000_0000
    ensures 0 <= n < 0x1_0000_0000 ==> r == n
  {
    n % 0x1_0000_0000
  }

  /** Characters of an 8-bit C string seen as octets. */
  function Octets(s: string): (r: seq<byte>)
    ensures |r| == |s|
    ensures forall i :: 0 <= i < |s| && s[i] as int < 0x100 ==> r[i] == s[i] as int
  {
    seq(|s|, i requires 0 <= i < |s| => (s[i] as int) % 0x100)
  }

  function U16Be(n: u16): (r: seq<byte>)
    ensures |r| == 2
  {
    [n / 0x100, n % 0x100]
  }

  function ReadU16Be(b: seq<byte>): u16
    requires |b| >= 2
  {
    (b[0] as int) * 0x100 + b[1]
  }

  function U32Be(n: u32): (r: seq<byte>)
    ensures |r| == 4
  {
    U16Be(n / 0x1_0000) + U16Be(n % 0x1_0000)
  }

  function ReadU32Be(b: seq<byte>): u32
    requires |b| >= 4
  {
    (ReadU16Be(b) as int) * 0x1_0000 + ReadU16Be(b[2..])
  }

  function U64Be(n: u64): (r: seq<byte>)
    ensures |r| == 8
  {
    U32Be(n / 0x1_0000_0000) + U32Be(n % 0x1_0000_0000)
  }

  function ReadU64Be(b: seq<byte>): u64
    requires |b| >= 8
  {
    (ReadU32Be(b) as int) * 0x1_0000_0000 + ReadU32Be(b[4..])
  }

  /** Reading back what was written gives the number, whatever follows it. */
  lemma U16RoundTrip(n: u16, rest: seq<byte>)
    ensures ReadU16Be(U16Be(n) + rest) == n
  {
  }

  /** Writing what was read gives the two octets back. */
  lemma U16Canonical(b: seq<byte>)
    requires |b| >= 2
    ensures U16Be(ReadU16Be(b)) == b[..2]
  {
  }

  lemma U32RoundTrip(n: u32, rest: seq<byte>)
    ensures ReadU32Be(U32Be(n) + rest) == n
  {
    var hi, lo := n / 0x1_0000, n % 0x1_0000;
    var b := U32Be(n) + rest;
    assert b == U16Be(hi) + (U16Be(lo) + rest);
    U16RoundTrip(hi, U16Be(lo) + rest);
    assert b[2..] == U16Be(lo) + rest;
    U16RoundTrip(lo, rest);
  }

  lemma U32Canonical(b: seq<byte>)
    requires |b| >= 4
    ensures U32Be(ReadU32Be(b)) == b[..4]
  {
    var hi: int, lo: int := ReadU16Be(b), ReadU16Be(b[2..]);
    var n: int := hi * 0x1_0000 + lo;
    assert n / 0x1_0000 == hi && n % 0x1_0000 == lo;
    U16Canonical(b);
    U16Canonical(b[2..]);
  }

  lemma U64RoundTrip(n: u64, rest: seq<byte>)
    ensures ReadU64Be(U64Be(n) + rest) == n
  {
    var hi, lo := n / 0x1_0000_0000, n % 0x1_0000_0000;
    var b := U64Be(n) + rest;
    assert b == U32Be(hi) + (U32Be(lo) + rest);
    U32RoundTrip(hi, U32Be(lo) + rest);
    assert b[4..] == U32Be(lo) + rest;
    U32RoundTrip(lo, rest);
  }
}
