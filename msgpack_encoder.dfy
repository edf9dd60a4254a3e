/** The msgpack log encoder (`uwsgi_msgpack_log_encoder`): on its first call
    it parses its template into the item list, then for every log message
    it serialises the items in list order into a fresh buffer. */
module MsgPackEncoder {
  import opened Bytes
  import opened Opt
  import opened MsgPackFormat
  import opened MsgPackBuffer
  import opened MsgPackItems
  import opened MsgPackTemplate
  import opened Numerals

  const NEWLINE: byte := 10

  /** An item whose literal payload length fits the 32-bit `str_len`. */
  predicate Encodable(it: ItemValue)
  {
    |it.str| < 0x1_0000_0000
  }

  predicate AllEncodable(items: seq<ItemValue>)
  {
    forall i :: 0 <= i < |items| ==> Encodable(items[i])
  }

  /** Magic items 0 and 1 (`msg`, `msgbin`) look at the message's last
      byte, so they need a message of at least one byte. */
  predicate ReadsLastByte(it: ItemValue)
  {
    it.kind == KMagic && (it.num == 0 || it.num == 1)
  }

  /** A message the emission switch can serialise for item `it`: its length
      fits the emitters' 32-bit length, and it is non-empty when the item
      reads its last byte. */
  predicate MessageFits(it: ItemValue, msg: seq<byte>)
  {
    |msg| < 0x1_0000_0000 && (ReadsLastByte(it) ==> |msg| > 0)
  }

  predicate MessageFor(items: seq<ItemValue>, msg: seq<byte>)
  {
    forall i :: 0 <= i < |items| ==> MessageFits(items[i], msg)
  }

  /** Items the emission loop can serialise with message `msg`. */
  predicate AllEmittable(items: seq<ItemValue>, msg: seq<byte>)
  {
    forall i :: 0 <= i < |items| ==> Encodable(items[i]) && MessageFits(items[i], msg)
  }

  /** The part of the message a magic item carries: `msg` and `msgbin`
      drop one trailing newline, `msgnl` and `msgbinnl` keep it. */
  function MagicPayload(num: int, msg: seq<byte>): (r: seq<byte>)
    requires (num == 0 || num == 1) ==> |msg| > 0
    ensures r <= msg
    ensures |r| == |msg| - 1 <==> (num == 0 || num == 1) && msg[|msg| - 1] == NEWLINE
    ensures |r| == |msg| - 1 ==> r == msg[..|msg| - 1]
    ensures !((num == 0 || num == 1) && msg[|msg| - 1] == NEWLINE) ==> r == msg
  {
    if (num == 0 || num == 1) && msg[|msg| - 1] == NEWLINE then msg[..|msg| - 1] else msg
  }

  /** The bytes one item contributes to the output. Integer and float items
      fall into the `default` branch of the emission switch and contribute
      nothing; so do magic items with a number outside 0..3. */
  function ItemBytes(it: ItemValue, msg: seq<byte>): seq<byte>
    requires Encodable(it) && MessageFits(it, msg)
  {
    match it.kind
    case KNil => NilBytes
    case KTrue => TrueBytes
    case KFalse => FalseBytes
    case KStr => StrBytes(it.str)
    case KBin => BinBytes(it.str)
    case KMap => MapHeader(ToU32(it.num))
    case KArray => ArrayHeader(ToU32(it.num))
    case KMagic =>
      if it.num == 0 || it.num == 2 then StrBytes(MagicPayload(it.num, msg))
      else if it.num == 1 || it.num == 3 then BinBytes(MagicPayload(it.num, msg))
      else []
    case _ => []
  }

  /** The bytes of a magic item, case by case. */
  lemma MagicBytes(num: int, msg: seq<byte>)
    requires MessageFits(ItemValue(KMagic, [], num), msg)
    ensures var want := ItemBytes(ItemValue(KMagic, [], num), msg);
            && (num == 0 ==> want == StrBytes(msg[..|MagicPayload(0, msg)|]))
            && (num == 1 ==> want == BinBytes(msg[..|MagicPayload(1, msg)|]))
            && (num == 2 ==> want == StrBytes(msg[..|msg|]))
            && (num == 3 ==> want == BinBytes(msg[..|msg|]))
            && (!(0 <= num <= 3) ==> want == [])
  {
    assert msg[..|msg|] == msg;
  }

  /** The whole output for a message: each item's bytes, in list order. */
  function EncodeAll(items: seq<ItemValue>, msg: seq<byte>): seq<byte>
    requires AllEmittable(items, msg)
  {
    if items == [] then [] else ItemBytes(items[0], msg) + EncodeAll(items[1..], msg)
  }

  /** An empty message is serialised wherever no item reads its last
      byte: `nil|msgnl` gives `C0 A0`. */
  lemma EmptyMessage()
    ensures MessageFor([ItemValue(KNil, [], 0), ItemValue(KMagic, [], 2)], [])
    ensures EncodeAll([ItemValue(KNil, [], 0), ItemValue(KMagic, [], 2)], []) == [0xC0, 0xA0]
  {
    var items := [ItemValue(KNil, [], 0), ItemValue(KMagic, [], 2)];
    assert items[1..][1..] == [];
    assert StrHeader(0) == [0xA0];
  }

  /** The MessagePack item a reader finds for one template item, if it
      contributes any. */
  function ItemToken(it: ItemValue, msg: seq<byte>): Option<Token>
    requires MessageFits(it, msg)
  {
    match it.kind
    case KNil => Some(Nil)
    case KTrue => Some(Bool(true))
    case KFalse => Some(Bool(false))
    case KStr => Some(Str(it.str))
    case KBin => Some(Bin(it.str))
    case KMap => Some(MapHead(ToU32(it.num)))
    case KArray => Some(ArrayHead(ToU32(it.num)))
    case KMagic =>
      if it.num == 0 || it.num == 2 then Some(Str(MagicPayload(it.num, msg)))
      else if it.num == 1 || it.num == 3 then Some(Bin(MagicPayload(it.num, msg)))
      else None
    case _ => None
  }

  function AllTokens(items: seq<ItemValue>, msg: seq<byte>): seq<Token>
    requires AllEmittable(items, msg)
  {
    if items == [] then []
    else
      var t := ItemToken(items[0], msg);
      (if t.Some? then [t.value] else []) + AllTokens(items[1..], msg)
  }

  /** Each item's bytes are the standard encoding of its reader-level item:
      the emission switch writes nothing the format does not define. */
  lemma ItemBytesEncode(it: ItemValue, msg: seq<byte>)
    requires Encodable(it) && MessageFits(it, msg)
    ensures var t := ItemToken(it, msg);
            if t.Some? then Writable(t.value) && ItemBytes(it, msg) == Encode(t.value)
            else ItemBytes(it, msg) == []
  {
  }

  lemma ItemBytesAreTokens(it: ItemValue, msg: seq<byte>, rest: seq<byte>)
    requires Encodable(it) && MessageFits(it, msg)
    ensures ReadTokens(ItemBytes(it, msg) + rest) ==
            match ReadTokens(rest)
            case None => None
            case Some(ts) => Some((if ItemToken(it, msg).Some? then [ItemToken(it, msg).value] else []) + ts)
  {
    ItemBytesEncode(it, msg);
    var t := ItemToken(it, msg);
    if t.Some? {
      ReadTokensCons(t.value, rest);
    } else {
      assert ItemBytes(it, msg) + rest == rest;
      match ReadTokens(rest)
      case None =>
      case Some(rs) => assert [] + rs == rs;
    }
  }

  /** A MessagePack reader reads the encoder's output back as exactly the
      items the template describes, with the message in place of each magic
      item: the output is a well-formed MessagePack stream. */
  lemma {:induction false} EncodeAllReads(items: seq<ItemValue>, msg: seq<byte>)
    requires AllEmittable(items, msg)
    ensures ReadTokens(EncodeAll(items, msg)) == Some(AllTokens(items, msg))
  {
    if items != [] {
      EncodeAllReads(items[1..], msg);
      ItemBytesAreTokens(items[0], msg, EncodeAll(items[1..], msg));
    }
  }

  lemma {:induction false} EncodeAllSnoc(items: seq<ItemValue>, i: nat, msg: seq<byte>)
    requires AllEmittable(items, msg)
    requires i < |items|
    ensures EncodeAll(items[..i + 1], msg) == EncodeAll(items[..i], msg) + ItemBytes(items[i], msg)
  {
    if i > 0 {
      EncodeAllSnoc(items[1..], i - 1, msg);
      assert items[1..][..i] == items[1..i + 1];
      assert items[1..][..i - 1] == items[1..i];
      assert items[..i + 1][1..] == items[1..i + 1];
      assert items[..i][1..] == items[1..i];
    } else {
      assert items[..1] == [items[0]];
      assert EncodeAll(items[..1][1..], msg) == [];
    }
  }

  lemma {:induction false} EncodeAllPrefix(items: seq<ItemValue>, i: nat, msg: seq<byte>)
    requires AllEmittable(items, msg)
    requires i <= |items|
    ensures |EncodeAll(items[..i], msg)| <= |EncodeAll(items, msg)|
    decreases |items| - i
  {
    if i < |items| {
      EncodeAllSnoc(items, i, msg);
      EncodeAllPrefix(items, i + 1, msg);
    } else {
      assert items[..i] == items;
    }
  }

  lemma ParsedEncodable(ts: seq<string>, bound: nat)
    requires forall i :: 0 <= i < |ts| ==> |ts[i]| <= bound
    requires bound < 0x1_0000_0000
    ensures AllEncodable(ParseTokens(ts))
  {
    if ts != [] {
      ParsedEncodable(ts[..|ts| - 1], bound);
    }
  }

  lemma UpdateLast<T>(a: seq<T>, x: T, y: T)
    ensures (a + [x])[|a| := y] == a + [y]
  {
  }

  lemma ParseTokensSnoc(ts: seq<string>, k: nat)
    requires k < |ts|
    ensures ParseTokens(ts[..k + 1]) == ParseTokens(ts[..k]) +
              (if ParseToken(ts[k]).Some? then [ParseToken(ts[k]).value] else [])
  {
    assert ts[..k + 1][..k] == ts[..k];
  }

  lemma Regroup<T>(x: seq<T>, a: seq<T>, b: seq<T>, c: seq<T>, d: seq<T>)
    requires x == (a + b) + c && d == b + c
    ensures x == a + d
  {
  }

  /** One pass of the emission switch on the fields of the current item
      `it`: the item's bytes go to the buffer with the emitter its type
      selects. */
  method EmitItem(ub: Buffer, it: ItemValue, msg: seq<byte>) returns (ok: bool)
    requires Encodable(it) && MessageFits(it, msg)
    requires |ub.data| <= ub.limit
    modifies ub
    ensures AppendOutcome(old(ub.data), ub.data, ItemBytes(it, msg), ub.limit, ok)
  {
    ok := true;
    match it.kind
    case KNil => ok := ub.MsgpackNil();
    case KTrue => ok := ub.MsgpackTrue();
    case KFalse => ok := ub.MsgpackFalse();
    case KStr => ok := ub.MsgpackStr(it.str);
    case KBin => ok := ub.MsgpackBin(it.str);
    case KMap => ok := ub.MsgpackMap(ToU32(it.num));
    case KArray => ok := ub.MsgpackArray(ToU32(it.num));
    case KMagic => ok := EmitMagic(ub, it.num, msg);
    case _ =>
  }

  /** The magic branch of the switch: the message, as a string (numbers 0
      and 2) or as binary (1 and 3), without its trailing newline for 0
      and 1. Any other number writes nothing. */
  method EmitMagic(ub: Buffer, num: int, msg: seq<byte>) returns (ok: bool)
    requires MessageFits(ItemValue(KMagic, [], num), msg)
    requires |ub.data| <= ub.limit
    modifies ub
    ensures AppendOutcome(old(ub.data), ub.data, ItemBytes(ItemValue(KMagic, [], num), msg), ub.limit, ok)
  {
    MagicBytes(num, msg);
    ok := true;
    var tmpLen := |msg|;
    if num == 0 {
      if msg[|msg| - 1] == NEWLINE { tmpLen := tmpLen - 1; }
      ok := ub.MsgpackStr(msg[..tmpLen]);
    } else if num == 1 {
      if msg[|msg| - 1] == NEWLINE { tmpLen := tmpLen - 1; }
      ok := ub.MsgpackBin(msg[..tmpLen]);
    }
    if num == 2 {
      ok := ub.MsgpackStr(msg[..tmpLen]);
    } else if num == 3 {
      ok := ub.MsgpackBin(msg[..tmpLen]);
    }
  }

  /** A `struct uwsgi_log_encoder` configured for this plugin: its template
      (`args`), the `configured` flag and the item list (`data`). */
  class LogEncoder {
    const args: string
    var configured: bool
    const items: ItemList

    ghost predicate Valid()
      reads this, items, items.nodes
    {
      && items.Valid()
      && |args| < 0x1_0000_0000
      && (!configured ==> items.nodes == [])
      && (configured ==> items.Contents() == ParseTemplate(args))
    }

    constructor (args: string)
      requires |args| < 0x1_0000_0000
      ensures Valid() && this.args == args && !configured && fresh(items)
    {
      this.args := args;
      configured := false;
      items := new ItemList();
    }

    /** `map` and `array`: a new item whose number is the argument read by
        `strtol`, or 0 without an argument. */
    method AddCounted(kind: Kind, arg: Option<string>)
      requires items.Valid()
      modifies items, items.nodes
      ensures items.Valid()
      ensures items.Contents() == old(items.Contents()) +
                [ItemValue(kind, [], if arg.Some? then Strtol(arg.value) else 0)]
      ensures fresh(set n | n in items.nodes && n !in old(items.nodes))
    {
      ghost var last := |items.nodes|;
      var node := items.Add(kind);
      if arg.Some? {
        items.SetNum(last, node, Strtol(arg.value));
        UpdateLast(old(items.Contents()), ItemValue(kind, [], 0), items.Contents()[last]);
      }
    }

    /** `str` and `bin`: a new item whose payload is the argument's text,
        or empty without an argument. */
    method AddText(kind: Kind, arg: Option<string>)
      requires items.Valid()
      modifies items, items.nodes
      ensures items.Valid()
      ensures items.Contents() == old(items.Contents()) +
                [ItemValue(kind, if arg.Some? then Octets(arg.value) else [], 0)]
      ensures fresh(set n | n in items.nodes && n !in old(items.nodes))
    {
      ghost var last := |items.nodes|;
      var node := items.Add(kind);
      if arg.Some? {
        items.SetStr(last, node, Octets(arg.value));
        UpdateLast(old(items.Contents()), ItemValue(kind, [], 0), items.Contents()[last]);
      }
    }

    /** `msgbin`, `msgnl` and `msgbinnl`: a magic item with number `num`. */
    method AddMagic(num: int)
      requires items.Valid()
      modifies items, items.nodes
      ensures items.Valid()
      ensures items.Contents() == old(items.Contents()) + [ItemValue(KMagic, [], num)]
      ensures fresh(set n | n in items.nodes && n !in old(items.nodes))
    {
      ghost var last := |items.nodes|;
      var node := items.Add(KMagic);
      items.SetNum(last, node, num);
      UpdateLast(old(items.Contents()), ItemValue(KMagic, [], 0), items.Contents()[last]);
    }

    /** One pass of the `strtok` loop, for a token split at its colon into
        the type `name` and the optional argument `arg`: the item it names,
        if any, is appended to the list. */
    method AddNamed(name: string, arg: Option<string>)
      requires items.Valid()
      modifies items, items.nodes
      ensures items.Valid()
      ensures items.Contents() == old(items.Contents()) +
                (if ParseNamed(name, arg).Some? then [ParseNamed(name, arg).value] else [])
      ensures fresh(set n | n in items.nodes && n !in old(items.nodes))
    {
      var node: Item;
      if name == "map" {
        AddCounted(KMap, arg);
      } else if name == "array" {
        AddCounted(KArray, arg);
      } else if name == "nil" {
        node := items.Add(KNil);
      } else if name == "true" {
        node := items.Add(KTrue);
      } else if name == "false" {
        node := items.Add(KFalse);
      } else {
        AddPayloadNamed(name, arg);
      }
    }

    /** The rest of the `else if` chain: the string, binary and message
        item names. */
    method AddPayloadNamed(name: string, arg: Option<string>)
      requires items.Valid()
      requires name !in {"map", "array", "nil", "true", "false"}
      modifies items, items.nodes
      ensures items.Valid()
      ensures items.Contents() == old(items.Contents()) +
                (if ParseNamed(name, arg).Some? then [ParseNamed(name, arg).value] else [])
      ensures fresh(set n | n in items.nodes && n !in old(items.nodes))
    {
      var node: Item;
      if name == "str" {
        AddText(KStr, arg);
      } else if name == "bin" {
        AddText(KBin, arg);
      } else if name == "msg" {
        node := items.Add(KMagic);
      } else if name == "msgbin" {
        AddMagic(1);
      } else if name == "msgnl" {
        AddMagic(2);
      } else if name == "msgbinnl" {
        AddMagic(3);
      }
    }

    /** `strchr(p, ':')` splits a token into its type name and argument. */
    method AddToken(tok: string)
      requires items.Valid()
      modifies items, items.nodes
      ensures items.Valid()
      ensures items.Contents() == old(items.Contents()) +
                (if ParseToken(tok).Some? then [ParseToken(tok).value] else [])
      ensures fresh(set n | n in items.nodes && n !in old(items.nodes))
    {
      var colon := Until(tok, ':');
      AddNamed(tok[..colon], if colon < |tok| then Some(tok[colon + 1..]) else None);
    }

    /** Parses the whole template into the item list and marks the encoder
        configured. */
    method Configure()
      requires Valid() && !configured
      modifies this, items, items.nodes
      ensures Valid() && configured
    {
      AddTokens(Tokens(args));
      configured := true;
    }

    /** The `strtok` loop: one `AddToken` per token, in template order. */
    method AddTokens(toks: seq<string>)
      requires items.Valid()
      modifies items, items.nodes
      ensures items.Valid()
      ensures items.Contents() == old(items.Contents()) + ParseTokens(toks)
    {
      ghost var start, ns0 := items.Contents(), items.nodes;
      var k := 0;
      while k < |toks|
        invariant 0 <= k <= |toks|
        invariant items.Valid()
        invariant items.Contents() == start + ParseTokens(toks[..k])
        invariant fresh(set n | n in items.nodes && n !in ns0)
      {
        AddToken(toks[k]);
        ParseTokensSnoc(toks, k);
        ghost var added := if ParseToken(toks[k]).Some? then [ParseToken(toks[k]).value] else [];
        Regroup(items.Contents(), start, ParseTokens(toks[..k]), added, ParseTokens(toks[..k + 1]));
        k := k + 1;
      }
      assert toks[..k] == toks;
    }

    /** The emission loop: walks the item list and serialises each item into
        a fresh buffer that may hold at most `limit` bytes. The result is
        None (NULL) as soon as an emitter fails, else the whole
        serialisation. Nothing but the new buffer is written. */
    method EmitAll(msg: seq<byte>, limit: nat) returns (r: Option<seq<byte>>)
      requires items.Valid() && AllEmittable(items.Contents(), msg)
      ensures r == var out := EncodeAll(items.Contents(), msg);
                   if |out| <= limit then Some(out) else None
    {
      ghost var its := items.Contents();
      ghost var ns := items.nodes;
      ValuesAt(ns);
      var ub := new Buffer(limit);
      var umi := items.head;
      ghost var i := 0;
      var ok := true;
      while umi != null && ok
        invariant 0 <= i <= |ns| == |its|
        invariant umi == if i < |ns| then ns[i] else null
        invariant ub.limit == limit
        invariant ok ==> ub.data == EncodeAll(its[..i], msg) && |ub.data| <= limit
        invariant !ok ==> |EncodeAll(its[..i], msg)| > limit
        decreases |ns| - i
      {
        assert its[i] == ItemValue(umi.kind, umi.str, umi.num);
        var step := EmitItem(ub, ItemValue(umi.kind, umi.str, umi.num), msg);
        EncodeAllSnoc(its, i, msg);
        ok := step;
        umi := umi.next;
        i := i + 1;
      }
      if ok {
        assert its[..i] == its;
        r := Some(ub.data);
      } else {
        EncodeAllPrefix(its, i, msg);
        r := None;
      }
    }

    /** One call of the encoder for the message `msg`: configures on the
        first call, then runs the emission loop. */
    method Encode(msg: seq<byte>, limit: nat) returns (r: Option<seq<byte>>)
      requires Valid() && MessageFor(ParseTemplate(args), msg)
      modifies this, items, items.nodes
      ensures Valid() && configured
      ensures AllEncodable(ParseTemplate(args))
      ensures r == var out := EncodeAll(ParseTemplate(args), msg);
                   if |out| <= limit then Some(out) else None
    {
      if !configured {
        Configure();
      }
      ParsedEncodable(Tokens(args), |args|);
      assert AllEmittable(items.Contents(), msg);
      r := EmitAll(msg, limit);
    }
  }
}
