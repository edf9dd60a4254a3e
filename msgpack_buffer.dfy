/** The growable output buffer of the msgpack plugin and its MessagePack
    emitters (`uwsgi_buffer_msgpack_*`). Every emitter only appends; when the
    buffer refuses to grow, the emitter reports failure and what it appended
    so far stays in the buffer. */
module MsgPackBuffer {
  import opened Bytes
  import opened MsgPackFormat

  /** What an emitter that means to append `s` leaves behind: success exactly
      when the whole of `s` fits under the limit; then `s` is appended,
      otherwise a proper prefix of it (possibly nothing). */
  ghost predicate AppendOutcome(before: seq<byte>, after: seq<byte>, s: seq<byte>, limit: nat, ok: bool)
  {
    && ok == (|before| + |s| <= limit)
    && (ok ==> after == before + s)
    && (!ok ==> |before| <= |after| < |before| + |s| && after == (before + s)[..|after|])
  }

  /** A `struct uwsgi_buffer`: the bytes written so far (`buf[0..pos)`).
      Growing it past `limit` bytes fails, which stands for the allocator or
      the buffer's own size limit refusing more memory. */
  class Buffer {
    var data: seq<byte>
    const limit: nat

    constructor (limit: nat)
      ensures data == [] && this.limit == limit
    {
      data := [];
      this.limit := limit;
    }

    /** `uwsgi_buffer_append`: all of `s`, or nothing. */
    method Append(s: seq<byte>) returns (ok: bool)
      modifies this
      ensures ok == (|old(data)| + |s| <= limit)
      ensures data == if ok then old(data) + s else old(data)
    {
      ok := |data| + |s| <= limit;
      if ok {
        data := data + s;
      }
    }

    /** `uwsgi_buffer_byte`. */
    method AppendByte(b: byte) returns (ok: bool)
      modifies this
      ensures AppendOutcome(old(data), data, [b], limit, ok)
    {
      ok := Append([b]);
    }

    /** `uwsgi_buffer_u16be`. */
    method AppendU16Be(n: u16) returns (ok: bool)
      modifies this
      ensures AppendOutcome(old(data), data, U16Be(n), limit, ok)
    {
      ok := Append(U16Be(n));
    }

    /** `uwsgi_buffer_u32be`. */
    method AppendU32Be(n: u32) returns (ok: bool)
      modifies this
      ensures AppendOutcome(old(data), data, U32Be(n), limit, ok)
    {
      ok := Append(U32Be(n));
    }

    /** A tag byte followed by a fixed-width length: the shape shared by the
        16- and 32-bit forms of every family. */
    method TagThen(tag: byte, width: seq<byte>) returns (ok: bool)
      modifies this
      ensures AppendOutcome(old(data), data, [tag] + width, limit, ok)
    {
      ok := AppendByte(tag);
      if ok {
        ok := Append(width);
      }
    }

    /** `uwsgi_buffer_msgpack_map`. */
    method MsgpackMap(len: u32) returns (ok: bool)
      modifies this
      ensures AppendOutcome(old(data), data, MapHeader(len), limit, ok)
    {
      if len <= 15 {
        ok := AppendByte(0x80 + len);
      } else if len <= 0xffff {
        ok := TagThen(0xDE, U16Be(len));
      } else {
        ok := TagThen(0xDF, U32Be(len));
      }
    }

    /** `uwsgi_buffer_msgpack_array`. */
    method MsgpackArray(len: u32) returns (ok: bool)
      modifies this
      ensures AppendOutcome(old(data), data, ArrayHeader(len), limit, ok)
    {
      if len <= 15 {
        ok := AppendByte(0x90 + len);
      } else if len <= 0xffff {
        ok := TagThen(0xDC, U16Be(len));
      } else {
        ok := TagThen(0xDD, U32Be(len));
      }
    }

    /** `uwsgi_buffer_msgpack_str`: `len` is the payload's length. */
    method MsgpackStr(s: seq<byte>) returns (ok: bool)
      requires |s| < 0x1_0000_0000
      modifies this
      ensures AppendOutcome(old(data), data, StrBytes(s), limit, ok)
    {
      var len: u32 := |s|;
      if len <= 31 {
        ok := AppendByte(0xA0 + len);
      } else if len <= 0xffff {
        ok := TagThen(0xDA, U16Be(len));
      } else {
        ok := TagThen(0xDB, U32Be(len));
      }
      ghost var mid := data;
      if ok {
        ok := Append(s);
      }
      PrefixThenPayload(old(data), mid, data, StrHeader(len), s, limit);
    }

    /** `uwsgi_buffer_msgpack_bin`. */
    method MsgpackBin(s: seq<byte>) returns (ok: bool)
      requires |s| < 0x1_0000_0000
      modifies this
      ensures AppendOutcome(old(data), data, BinBytes(s), limit, ok)
    {
      var len: u32 := |s|;
      if len <= 0xff {
        ok := TagThen(0xC4, [len]);
      } else if len <= 0xffff {
        ok := TagThen(0xC5, U16Be(len));
      } else {
        ok := TagThen(0xC6, U32Be(len));
      }
      ghost var mid := data;
      if ok {
        ok := Append(s);
      }
      PrefixThenPayload(old(data), mid, data, BinHeader(len), s, limit);
    }

    /** `uwsgi_buffer_msgpack_int`, as written: see IntBytesAsWritten. */
    method MsgpackInt(num: int) returns (ok: bool)
      requires INT64_MIN <= num <= INT64_MAX
      modifies this
      ensures AppendOutcome(old(data), data, IntBytesAsWritten(num), limit, ok)
    {
      if 0 < num <= 127 {
        ok := AppendByte(num);
        return;
      }
      ok := TagThen(0xD3, U32Be(ToU32(num)));
    }

    /** The integer emitter corrected to the int64 format: the 0xD3 tag and
        all 64 bits of the value. */
    method MsgpackInt64(num: int) returns (ok: bool)
      requires INT64_MIN <= num <= INT64_MAX
      modifies this
      ensures AppendOutcome(old(data), data, Int64Bytes(num), limit, ok)
    {
      if 0 < num <= 127 {
        ok := AppendByte(num);
        return;
      }
      ok := TagThen(0xD3, U64Be(num % 0x1_0000_0000_0000_0000));
    }

    /** `uwsgi_buffer_msgpack_nil`. */
    method MsgpackNil() returns (ok: bool)
      modifies this
      ensures AppendOutcome(old(data), data, NilBytes, limit, ok)
    {
      ok := AppendByte(0xC0);
    }

    /** `uwsgi_buffer_msgpack_true`. */
    method MsgpackTrue() returns (ok: bool)
      modifies this
      ensures AppendOutcome(old(data), data, TrueBytes, limit, ok)
    {
      ok := AppendByte(0xC3);
    }

    /** `uwsgi_buffer_msgpack_false`. */
    method MsgpackFalse() returns (ok: bool)
      modifies this
      ensures AppendOutcome(old(data), data, FalseBytes, limit, ok)
    {
      ok := AppendByte(0xC2);
    }
  }

  /** A header step followed, on success only, by an all-or-nothing payload
      append composes into one outcome for header + payload. */
  lemma PrefixThenPayload(before: seq<byte>, mid: seq<byte>, after: seq<byte>,
                          header: seq<byte>, payload: seq<byte>, limit: nat)
    requires AppendOutcome(before, mid, header, limit, mid == before + header)
    requires mid == before + header ==> (after == (if |mid| + |payload| <= limit then mid + payload else mid))
    requires mid != before + header ==> after == mid
    ensures AppendOutcome(before, after, header + payload, limit,
                          mid == before + header && |mid| + |payload| <= limit)
  {
    assert before + header + payload == before + (header + payload);
    if mid == before + header && |mid| + |payload| > limit {
      assert after == (before + (header + payload))[..|after|];
    }
  }
}
