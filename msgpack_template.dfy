/** The log encoder's template language: `|`-separated items, each a type
    name optionally followed by `:` and an argument, e.g.
    `map:2|str:message|msg|str:level|str:info`. */
module MsgPackTemplate {
  import opened Bytes
  import opened Opt
  import opened MsgPackItems
  import opened Numerals

  /** Index of the first `c` in `s`, or `|s|` when there is none: the
      length of the token `strtok` cuts at a `|`, and the split point
      `strchr` finds at a `:`. */
  function Until(s: string, c: char): (n: nat)
    ensures n <= |s|
    ensures forall i :: 0 <= i < n ==> s[i] != c
    ensures n == |s| || s[n] == c
  {
    if s == [] || s[0] == c then 0 else 1 + Until(s[1..], c)
  }

  /** The tokens `strtok(s, "|")` returns in turn: the maximal runs between
      separators, empty runs skipped. */
  function Tokens(s: string): (r: seq<string>)
    ensures forall i :: 0 <= i < |r| ==> 0 < |r[i]| <= |s| && '|' !in r[i]
    decreases |s|
  {
    if s == [] then []
    else if s[0] == '|' then Tokens(s[1..])
    else
      var n := Until(s, '|');
      [s[..n]] + Tokens(s[n..])
  }

  function Concat(ts: seq<string>): string
  {
    if ts == [] then [] else ts[0] + Concat(ts[1..])
  }

  /** `s` with every separator removed. */
  function Unseparated(s: string): string
  {
    if s == [] then []
    else (if s[0] == '|' then [] else [s[0]]) + Unseparated(s[1..])
  }

  /** Tokens joined back with single separators. */
  function JoinBars(ts: seq<string>): string
  {
    if ts == [] then []
    else if |ts| == 1 then ts[0]
    else ts[0] + "|" + JoinBars(ts[1..])
  }

  lemma {:induction false} UnseparatedRun(s: string, n: nat)
    requires n <= |s|
    requires forall i :: 0 <= i < n ==> s[i] != '|'
    ensures Unseparated(s) == s[..n] + Unseparated(s[n..])
    decreases n
  {
    if n > 0 {
      UnseparatedRun(s[1..], n - 1);
      assert s[1..][..n - 1] == s[1..n];
      assert s[1..][n - 1..] == s[n..];
      assert s[..n] == [s[0]] + s[1..n];
    }
  }

  /** Splitting loses nothing but the separators. */
  lemma {:induction false} TokensKeepText(s: string)
    ensures Concat(Tokens(s)) == Unseparated(s)
    decreases |s|
  {
    if s == [] {
    } else if s[0] == '|' {
      TokensKeepText(s[1..]);
    } else {
      var n := Until(s, '|');
      TokensKeepText(s[n..]);
      UnseparatedRun(s, n);
      assert Tokens(s) == [s[..n]] + Tokens(s[n..]);
      assert ([s[..n]] + Tokens(s[n..]))[1..] == Tokens(s[n..]);
    }
  }

  /** A run free of `c`, followed by `c` or nothing, ends where `Until`
      stops. */
  lemma {:induction false} UntilRun(t: string, rest: string, c: char)
    requires forall i :: 0 <= i < |t| ==> t[i] != c
    requires rest == [] || rest[0] == c
    ensures Until(t + rest, c) == |t|
    decreases |t|
  {
    if t != [] {
      assert (t + rest)[0] == t[0];
      assert (t + rest)[1..] == t[1..] + rest;
      UntilRun(t[1..], rest, c);
    } else {
      assert t + rest == rest;
    }
  }

  /** Joining non-empty, separator-free tokens and splitting again gives the
      same tokens. */
  lemma {:induction false} TokensOfJoin(ts: seq<string>)
    requires forall i :: 0 <= i < |ts| ==> |ts[i]| > 0 && '|' !in ts[i]
    ensures Tokens(JoinBars(ts)) == ts
  {
    if |ts| == 1 {
      UntilRun(ts[0], [], '|');
      assert ts[0] + [] == ts[0];
      assert ts[0][|ts[0]|..] == [];
    } else if |ts| > 1 {
      var t := ts[0];
      var rest := "|" + JoinBars(ts[1..]);
      var s := JoinBars(ts);
      assert s == t + rest;
      UntilRun(t, rest, '|');
      assert s[..|t|] == t;
      assert s[|t|..] == rest;
      assert rest[1..] == JoinBars(ts[1..]);
      TokensOfJoin(ts[1..]);
      assert Tokens(rest) == Tokens(JoinBars(ts[1..]));
      assert ts == [t] + ts[1..];
    }
  }

  /** The item one template token adds, if any. The text before the first
      `:` names the item; `map` and `array` read their count from the rest
      with strtol, `str` and `bin` take the rest as their literal payload
      (empty without a colon), and the four message forms are the magic item
      with numbers 0 to 3. Any other name adds nothing. */
  function ParseToken(tok: string): Option<ItemValue>
  {
    var c := Until(tok, ':');
    ParseNamed(tok[..c], if c < |tok| then Some(tok[c + 1..]) else None)
  }

  /** The item for a type name and its optional argument. */
  function ParseNamed(name: string, arg: Option<string>): Option<ItemValue>
  {
    if name == "map" then Some(ItemValue(KMap, [], if arg.Some? then Strtol(arg.value) else 0))
    else if name == "array" then Some(ItemValue(KArray, [], if arg.Some? then Strtol(arg.value) else 0))
    else if name == "nil" then Some(ItemValue(KNil, [], 0))
    else if name == "true" then Some(ItemValue(KTrue, [], 0))
    else if name == "false" then Some(ItemValue(KFalse, [], 0))
    else if name == "str" then Some(ItemValue(KStr, if arg.Some? then Octets(arg.value) else [], 0))
    else if name == "bin" then Some(ItemValue(KBin, if arg.Some? then Octets(arg.value) else [], 0))
    else if name == "msg" then Some(ItemValue(KMagic, [], 0))
    else if name == "msgbin" then Some(ItemValue(KMagic, [], 1))
    else if name == "msgnl" then Some(ItemValue(KMagic, [], 2))
    else if name == "msgbinnl" then Some(ItemValue(KMagic, [], 3))
    else None
  }

  /** The items a run of tokens adds, in order. */
  function ParseTokens(ts: seq<string>): seq<ItemValue>
  {
    if ts == [] then []
    else
      var last := ParseToken(ts[|ts| - 1]);
      ParseTokens(ts[..|ts| - 1]) + (if last.Some? then [last.value] else [])
  }

  /** The whole item list a template yields. */
  function ParseTemplate(args: string): seq<ItemValue>
  {
    ParseTokens(Tokens(args))
  }

  /** The characters standing for a payload's octets. */
  function Chars(b: seq<byte>): (r: string)
    ensures |r| == |b| && Octets(r) == b
  {
    var r := seq(|b|, i requires 0 <= i < |b| => b[i] as char);
    assert forall i :: 0 <= i < |b| ==> Octets(r)[i] == b[i];
    r
  }

  /** An item that some template token produces: magic numbers 0..3, no
      stray payload or number, and no separator byte inside a payload. */
  predicate Renderable(it: ItemValue)
  {
    match it.kind
    case KNil => it.str == [] && it.num == 0
    case KTrue => it.str == [] && it.num == 0
    case KFalse => it.str == [] && it.num == 0
    case KMap => it.str == []
    case KArray => it.str == []
    case KStr => it.num == 0 && '|' as int !in it.str
    case KBin => it.num == 0 && '|' as int !in it.str
    case KMagic => it.str == [] && 0 <= it.num <= 3
    case _ => false
  }

  /** The template token that stands for an item. */
  function Render(it: ItemValue): (r: string)
    requires Renderable(it)
    ensures |r| > 0 && '|' !in r
  {
    match it.kind
    case KNil => "nil"
    case KTrue => "true"
    case KFalse => "false"
    case KMap => "map:" + Decimal(it.num)
    case KArray => "array:" + Decimal(it.num)
    case KStr => "str:" + Chars(it.str)
    case KBin => "bin:" + Chars(it.str)
    case KMagic =>
      if it.num == 0 then "msg" else if it.num == 1 then "msgbin"
      else if it.num == 2 then "msgnl" else "msgbinnl"
  }

  /** Parsing the token an item renders to gives the item back. */
  lemma ParseRender(it: ItemValue)
    requires Renderable(it)
    ensures ParseToken(Render(it)) == Some(it)
  {
    match it.kind
    case KMap => ParseRenderCount(it);
    case KArray => ParseRenderCount(it);
    case KStr => ParseRenderText(it);
    case KBin => ParseRenderText(it);
    case KNil => BareSplits(Render(it));
    case KTrue => BareSplits(Render(it));
    case KFalse => BareSplits(Render(it));
    case KMagic => BareSplits(Render(it));
  }

  lemma ParseRenderCount(it: ItemValue)
    requires Renderable(it) && (it.kind == KMap || it.kind == KArray)
    ensures ParseToken(Render(it)) == Some(it)
  {
    var name := if it.kind == KMap then "map" else "array";
    assert Render(it) == name + ":" + Decimal(it.num);
    ArgumentSplits(name, Decimal(it.num));
    StrtolOfDecimal(it.num);
  }

  lemma ParseRenderText(it: ItemValue)
    requires Renderable(it) && (it.kind == KStr || it.kind == KBin)
    ensures ParseToken(Render(it)) == Some(it)
  {
    if it.kind == KStr {
      assert Render(it) == "str" + ":" + Chars(it.str);
      ArgumentSplits("str", Chars(it.str));
    } else {
      assert Render(it) == "bin" + ":" + Chars(it.str);
      ArgumentSplits("bin", Chars(it.str));
    }
    NamedText(it.str);
  }

  /** `str` and `bin` take their argument's octets as the payload. */
  lemma NamedText(b: seq<byte>)
    ensures ParseNamed("str", Some(Chars(b))) == Some(ItemValue(KStr, b, 0))
    ensures ParseNamed("bin", Some(Chars(b))) == Some(ItemValue(KBin, b, 0))
  {
  }

  lemma ArgumentSplits(name: string, arg: string)
    requires ':' !in name
    ensures ParseToken(name + ":" + arg) == ParseNamed(name, Some(arg))
  {
    var tok := name + ":" + arg;
    UntilRun(name, ":" + arg, ':');
    assert tok == name + (":" + arg);
    assert tok[..|name|] == name;
    assert tok[|name| + 1..] == arg;
  }

  lemma BareSplits(name: string)
    requires ':' !in name
    ensures ParseToken(name) == ParseNamed(name, None)
  {
    UntilRun(name, [], ':');
    assert name + [] == name;
  }

  predicate AllRenderable(items: seq<ItemValue>)
  {
    forall i :: 0 <= i < |items| ==> Renderable(items[i])
  }

  function RenderAll(items: seq<ItemValue>): (r: seq<string>)
    requires AllRenderable(items)
    ensures |r| == |items|
    ensures forall i :: 0 <= i < |r| ==> r[i] == Render(items[i])
  {
    seq(|items|, i requires 0 <= i < |items| => Render(items[i]))
  }

  lemma ParseRenderAll(items: seq<ItemValue>)
    requires AllRenderable(items)
    ensures ParseTokens(RenderAll(items)) == items
  {
    var ts := RenderAll(items);
    forall i | 0 <= i < |ts|
      ensures ParseToken(ts[i]) == Some(items[i])
    {
      ParseRender(items[i]);
    }
    ParseEach(ts, items);
  }

  /** Tokens that each parse to one item parse, together, to those items. */
  lemma {:induction false} ParseEach(ts: seq<string>, items: seq<ItemValue>)
    requires |ts| == |items|
    requires forall i :: 0 <= i < |ts| ==> ParseToken(ts[i]) == Some(items[i])
    ensures ParseTokens(ts) == items
  {
    if ts != [] {
      ParseEach(ts[..|ts| - 1], items[..|items| - 1]);
      assert items == items[..|items| - 1] + [items[|items| - 1]];
    }
  }

  /** Every list of items some template can express is exactly what the
      template written for it parses to. */
  lemma TemplateRoundTrip(items: seq<ItemValue>)
    requires AllRenderable(items)
    ensures ParseTemplate(JoinBars(RenderAll(items))) == items
  {
    TokensOfJoin(RenderAll(items));
    ParseRenderAll(items);
  }
}
