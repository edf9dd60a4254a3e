/** The singly linked list of template items (`struct uwsgi_msgpack_item`)
    that the log encoder builds once from its template and then walks for
    every message. */
module MsgPackItems {
  import opened Bytes

  /** The item types of the plugin's enum, in its order. */
  datatype Kind = KNil | KTrue | KFalse | KInt | KFloat | KStr | KBin | KArray | KMap | KMagic

  /** The value of one item: its type, its literal payload (`str`, whose
      length is `str_len`) and its number (`num`). */
  datatype ItemValue = ItemValue(kind: Kind, str: seq<byte>, num: int)

  class Item {
    var kind: Kind
    var str: seq<byte>
    var num: int
    var next: Item?

    /** A zero-filled item of the given type, as `uwsgi_calloc` leaves it. */
    constructor (kind: Kind)
      ensures this.kind == kind && str == [] && num == 0 && next == null
    {
      this.kind := kind;
      str := [];
      num := 0;
      next := null;
    }
  }

  /** The values held by a sequence of items, in order. */
  ghost function Values(ns: seq<Item>): (r: seq<ItemValue>)
    reads ns
    ensures |r| == |ns|
  {
    if ns == [] then []
    else Values(ns[..|ns| - 1]) + [ItemValue(ns[|ns| - 1].kind, ns[|ns| - 1].str, ns[|ns| - 1].num)]
  }

  /** A list head (`struct uwsgi_msgpack_item *`). `nodes` lists the items
      reachable from `head`, in order. */
  class ItemList {
    var head: Item?
    ghost var nodes: seq<Item>

    ghost predicate Valid()
      reads this, nodes
    {
      && (head == null <==> nodes == [])
      && (head != null ==> head == nodes[0])
      && (forall i :: 0 <= i < |nodes| - 1 ==> nodes[i].next == nodes[i + 1])
      && (nodes != [] ==> nodes[|nodes| - 1].next == null)
      && (forall i, j :: 0 <= i < j < |nodes| ==> nodes[i] != nodes[j])
    }

    ghost function Contents(): seq<ItemValue>
      reads this, nodes
    {
      Values(nodes)
    }

    constructor ()
      ensures Valid() && Contents() == []
    {
      head := null;
      nodes := [];
    }

    /** `uwsgi_msgpack_item_add`: walks to the tail and links a new
        zero-filled item of type `kind` after it; an empty list gets the new
        item as its head. Earlier items and their order are unchanged. */
    method Add(kind: Kind) returns (node: Item)
      requires Valid()
      modifies this, nodes
      ensures Valid() && fresh(node)
      ensures node.kind == kind && node.str == [] && node.num == 0
      ensures nodes == old(nodes) + [node]
      ensures Contents() == old(Contents()) + [ItemValue(kind, [], 0)]
      ensures old(head) != null ==> head == old(head)
    {
      var prev := Last();
      node := new Item(kind);
      Link(prev, node);
    }

    /** The walk to the tail: the last item, or null for an empty list. */
    method Last() returns (prev: Item?)
      requires Valid()
      ensures prev == if nodes == [] then null else nodes[|nodes| - 1]
    {
      prev := null;
      var cur := head;
      ghost var i := 0;
      while cur != null
        invariant 0 <= i <= |nodes|
        invariant cur == if i < |nodes| then nodes[i] else null
        invariant prev == if i == 0 then null else nodes[i - 1]
        decreases |nodes| - i
      {
        prev := cur;
        cur := cur.next;
        i := i + 1;
      }
    }

    /** Links `node` after the tail `prev`, or makes it the head of an empty
        list. */
    method Link(prev: Item?, node: Item)
      requires Valid() && node !in nodes && node.next == null
      requires prev == if nodes == [] then null else nodes[|nodes| - 1]
      modifies this, prev
      ensures Valid() && nodes == old(nodes) + [node]
      ensures Contents() == old(Contents()) + [ItemValue(node.kind, node.str, node.num)]
      ensures old(head) != null ==> head == old(head)
      ensures node.kind == old(node.kind) && node.str == old(node.str) && node.num == old(node.num)
    {
      if prev != null {
        prev.next := node;
      } else {
        head := node;
      }
      ValuesKeep(nodes);
      nodes := nodes + [node];
      assert nodes[..|nodes| - 1] == old(nodes);
    }

    /** `new_umi->num = ...` on the `i`-th item. */
    method SetNum(ghost i: nat, node: Item, num: int)
      requires Valid() && i < |nodes| && node == nodes[i]
      modifies node
      ensures Valid() && nodes == old(nodes) && head == old(head)
      ensures Contents() == old(Contents())[i := ItemValue(old(node.kind), old(node.str), num)]
      ensures node.kind == old(node.kind) && node.str == old(node.str) && node.num == num
    {
      ValuesAt(nodes);
      node.num := num;
      ValuesAt(nodes);
    }

    /** `new_umi->str = ...` (and `str_len`) on the `i`-th item. */
    method SetStr(ghost i: nat, node: Item, str: seq<byte>)
      requires Valid() && i < |nodes| && node == nodes[i]
      modifies node
      ensures Valid() && nodes == old(nodes) && head == old(head)
      ensures Contents() == old(Contents())[i := ItemValue(old(node.kind), str, old(node.num))]
      ensures node.kind == old(node.kind) && node.str == str && node.num == old(node.num)
    {
      ValuesAt(nodes);
      node.str := str;
      ValuesAt(nodes);
    }
  }

  /** Values depends only on the value fields: relinking `next` links
      leaves it as it was. */
  twostate lemma ValuesKeep(ns: seq<Item>)
    requires forall n :: n in ns ==> n.kind == old(n.kind) && n.str == old(n.str) && n.num == old(n.num)
    ensures Values(ns) == old(Values(ns))
    decreases |ns|
  {
    if ns != [] {
      ValuesKeep(ns[..|ns| - 1]);
    }
  }

  lemma {:induction false} ValuesAt(ns: seq<Item>)
    ensures forall j :: 0 <= j < |ns| ==> Values(ns)[j] == ItemValue(ns[j].kind, ns[j].str, ns[j].num)
  {
    if ns != [] {
      ValuesAt(ns[..|ns| - 1]);
    }
  }
}
