/** The `http.ResponseWriter` and request-body reader the Go binding hands
    to application handlers, over the native response primitives of the
    server (`uwsgi_simple_*`), which are modelled by the events they
    receive. */
module GoResponse {
  import opened Bytes
  import opened Opt
  import opened Numerals
  import opened GoText

  /** The protocol version of an `http.Request`. */
  datatype Request = Request(protoMajor: int, protoMinor: int)

  /** `Request.ProtoAtLeast`. */
  predicate ProtoAtLeast(r: Request, major: int, minor: int)
  {
    r.protoMajor > major || (r.protoMajor == major && r.protoMinor >= minor)
  }

  /** What the native side receives: `uwsgi_simple_set_status`,
      `uwsgi_simple_inc_headers`, `uwsgi_simple_response_write_header` and
      `uwsgi_simple_response_write`. */
  datatype Event =
    | SetStatus(status: i32)
    | IncHeaders
    | HeaderBlock(chunk: string)
    | Body(data: seq<byte>)

  /** An `http.Header`: each key with its list of values. */
  type Header = map<string, seq<string>>

  const CONTENT_TYPE: string := "Content-Type"
  const DEFAULT_CONTENT_TYPE: string := "text/html; charset=utf-8"

  /** `Header.Get`: the first value of the key, or "" when there is none. */
  function Get(h: Header, key: string): string
  {
    if key in h && |h[key]| > 0 then h[key][0] else ""
  }

  /** The headers after the default Content-Type step: set only when absent. */
  function WithDefaultContentType(h: Header): (r: Header)
    ensures Get(r, CONTENT_TYPE) != ""
    ensures Get(h, CONTENT_TYPE) != "" ==> r == h
    ensures Get(h, CONTENT_TYPE) == "" ==> r == h[CONTENT_TYPE := [DEFAULT_CONTENT_TYPE]]
  {
    if Get(h, CONTENT_TYPE) == "" then h[CONTENT_TYPE := [DEFAULT_CONTENT_TYPE]] else h
  }

  /** The header lines for the values `vs` of key `k`, in order. */
  function ValueLines(k: string, vs: seq<string>): string
  {
    if vs == [] then [] else ValueLines(k, vs[..|vs| - 1]) + HeaderLine(k, vs[|vs| - 1])
  }

  lemma ValueLinesSnoc(k: string, vs: seq<string>, j: nat)
    requires j < |vs|
    ensures ValueLines(k, vs[..j + 1]) == ValueLines(k, vs[..j]) + HeaderLine(k, vs[j])
  {
    assert vs[..j + 1][..j] == vs[..j];
  }

  /** The header lines for the keys of `h` in the iteration order `order`. */
  function HeaderLines(h: Header, order: seq<string>): string
    requires forall i :: 0 <= i < |order| ==> order[i] in h
  {
    if order == [] then []
    else HeaderLines(h, order[..|order| - 1]) + ValueLines(order[|order| - 1], h[order[|order| - 1]])
  }

  /** The number of values the keys in `order` hold. */
  function ValueCount(h: Header, order: seq<string>): nat
    requires forall i :: 0 <= i < |order| ==> order[i] in h
  {
    if order == [] then 0
    else ValueCount(h, order[..|order| - 1]) + |h[order[|order| - 1]]|
  }

  /** An iteration order of a map: each key exactly once. */
  ghost predicate IsOrder(order: seq<string>, h: Header)
  {
    && (forall i :: 0 <= i < |order| ==> order[i] in h)
    && (forall k :: k in h ==> k in order)
    && (forall i, j :: 0 <= i < j < |order| ==> order[i] != order[j])
  }

  function Incs(n: nat): (r: seq<Event>)
    ensures |r| == n && forall i :: 0 <= i < n ==> r[i] == IncHeaders
  {
    if n == 0 then [] else Incs(n - 1) + [IncHeaders]
  }

  /** The number of header blocks written in `t`. */
  function Blocks(t: seq<Event>): nat
  {
    if t == [] then 0 else Blocks(t[..|t| - 1]) + (if t[|t| - 1].HeaderBlock? then 1 else 0)
  }

  /** Every body write in `t` comes after some header-block write. */
  predicate HeadersFirst(t: seq<Event>)
  {
    t == [] || (HeadersFirst(t[..|t| - 1]) && (t[|t| - 1].Body? ==> Blocks(t[..|t| - 1]) > 0))
  }

  lemma {:induction false} HeadersFirstAt(t: seq<Event>, i: nat)
    requires HeadersFirst(t) && i < |t| && t[i].Body?
    ensures Blocks(t[..i]) > 0
  {
    if i < |t| - 1 {
      assert t[..|t| - 1][..i] == t[..i];
      HeadersFirstAt(t[..|t| - 1], i);
    }
  }

  /** Appending events that hold no body write keeps the order property and
      adds their header blocks to the count. */
  lemma {:induction false} AppendNoBody(t: seq<Event>, u: seq<Event>)
    requires HeadersFirst(t)
    requires forall i :: 0 <= i < |u| ==> !u[i].Body?
    ensures HeadersFirst(t + u) && Blocks(t + u) == Blocks(t) + Blocks(u)
  {
    if u != [] {
      var w := u[..|u| - 1];
      assert (t + u)[..|t + u| - 1] == t + w;
      AppendNoBody(t, w);
    } else {
      assert t + u == t;
    }
  }

  lemma IncsHaveNoBlock(n: nat)
    ensures Blocks(Incs(n)) == 0
  {
    if n > 0 {
      IncsHaveNoBlock(n - 1);
      assert Incs(n)[..n - 1] == Incs(n - 1);
    }
  }

  function HeaderEventsOf(status: i32, n: nat, chunk: string): (u: seq<Event>)
    ensures forall i :: 0 <= i < |u| ==> !u[i].Body?
  {
    [SetStatus(status)] + Incs(n) + [HeaderBlock(chunk)]
  }

  /** The events of one WriteHeader call hold one header block. */
  lemma {:induction false} HeaderEventsBlock(status: i32, n: nat, chunk: string)
    ensures Blocks(HeaderEventsOf(status, n, chunk)) == 1
  {
    var u := HeaderEventsOf(status, n, chunk);
    var w := [SetStatus(status)] + Incs(n);
    assert u[..|u| - 1] == w;
    IncsHaveNoBlock(n);
    AppendNoBody([SetStatus(status)], Incs(n));
    assert [SetStatus(status)][..0] == [];
  }

  /** The events of one WriteHeader call keep body writes behind header
      blocks and add one block. */
  lemma HeaderEvents(t: seq<Event>, status: i32, n: nat, chunk: string)
    requires HeadersFirst(t)
    ensures var u := t + [SetStatus(status)] + Incs(n) + [HeaderBlock(chunk)];
            HeadersFirst(u) && Blocks(u) == Blocks(t) + 1
  {
    var mid := HeaderEventsOf(status, n, chunk);
    AppendNoBody(t, mid);
    HeaderEventsBlock(status, n, chunk);
    assert t + [SetStatus(status)] + Incs(n) + [HeaderBlock(chunk)] == t + mid;
  }

  lemma OrderSnoc(h: Header, order: seq<string>, k: string)
    requires forall i :: 0 <= i < |order| ==> order[i] in h
    requires k in h
    ensures HeaderLines(h, order + [k]) == HeaderLines(h, order) + ValueLines(k, h[k])
    ensures ValueCount(h, order + [k]) == ValueCount(h, order) + |h[k]|
  {
    assert (order + [k])[..|order|] == order;
  }

  /** The keys visited so far, in order and each once, and the keys still
      to visit: together they are the keys of `h`. */
  ghost predicate PartialOrder(order: seq<string>, remaining: set<string>, h: Header)
  {
    && remaining <= h.Keys
    && (forall i :: 0 <= i < |order| ==> order[i] in h && order[i] !in remaining)
    && (forall k :: k in h ==> k in remaining || k in order)
    && (forall i, j :: 0 <= i < j < |order| ==> order[i] != order[j])
  }

  /** Visiting one more key keeps the partial order; when none is left the
      visit order is an iteration order of the map. */
  lemma OrderStep(h: Header, order: seq<string>, remaining: set<string>, k: string)
    requires PartialOrder(order, remaining, h) && k in remaining
    ensures PartialOrder(order + [k], remaining - {k}, h)
    ensures HeaderLines(h, order + [k]) == HeaderLines(h, order) + ValueLines(k, h[k])
    ensures ValueCount(h, order + [k]) == ValueCount(h, order) + |h[k]|
  {
    OrderSnoc(h, order, k);
  }


  lemma StepAppends<T>(a: seq<T>, b: seq<T>, c: seq<T>, x: seq<T>, y: seq<T>)
    requires x == a + b && y == x + c
    ensures y == a + (b + c)
  {
  }

  lemma {:induction false} IncsAdd(a: nat, b: nat)
    ensures Incs(a + b) == Incs(a) + Incs(b)
  {
    if b > 0 {
      IncsAdd(a, b - 1);
    }
  }

  /** A body write after a header block keeps the order property. */
  lemma BodyAfterHeaders(t: seq<Event>, p: seq<byte>)
    requires HeadersFirst(t) && Blocks(t) > 0
    ensures HeadersFirst(t + [Body(p)]) && Blocks(t + [Body(p)]) == Blocks(t)
  {
    assert (t + [Body(p)])[..|t|] == t;
  }

  /** The writer of one request. `headersChunk` is the header text written
      so far, `events` what the native side has received. */
  class ResponseWriter {
    const r: Request
    var headers: Header
    var wroteHeader: bool
    var headersChunk: string
    var events: seq<Event>

    /** Body writes come only after a header block, and `wroteHeader` says
        whether a header block has gone out. */
    ghost predicate Valid()
      reads this
    {
      && HeadersFirst(events)
      && (wroteHeader <==> Blocks(events) > 0)
    }

    /** The writer `uwsgi_go_helper_request` makes: no header written, no
        headers, an empty chunk. */
    constructor (r: Request)
      ensures Valid() && this.r == r
      ensures !wroteHeader && headers == map[] && headersChunk == "" && events == []
    {
      this.r := r;
      headers := map[];
      wroteHeader := false;
      headersChunk := "";
      events := [];
    }

    /** `Header()`: the writer's own map, which WriteHeader serialises. */
    function Header(): (h: Header)
      reads this
      ensures h == headers
    {
      headers
    }

    /** `w.Header()[key] = values`: a handler's store into the returned map,
        which is the writer's own. */
    method SetHeader(key: string, values: seq<string>)
      modifies this
      ensures headers == old(headers)[key := values]
      ensures wroteHeader == old(wroteHeader) && headersChunk == old(headersChunk) && events == old(events)
    {
      headers := headers[key := values];
    }

    /** `WriteHeader(status)`: appends the status line, sets the status,
        defaults the Content-Type, appends one sanitised line per header
        value (keys in the map's unspecified order, returned as `order`)
        and the closing CR LF, then writes the whole chunk accumulated so
        far. Nothing guards a second call. */
    method WriteHeader(status: int) returns (ghost order: seq<string>)
      requires Valid()
      modifies this
      ensures Valid() && wroteHeader
      ensures headers == WithDefaultContentType(old(headers))
      ensures IsOrder(order, headers)
      ensures headersChunk == old(headersChunk) + StatusLine(ProtoAtLeast(r, 1, 1), status)
                              + HeaderLines(headers, order) + "\r\n"
      ensures events == old(events) + [SetStatus(ToI32(status))] + Incs(ValueCount(headers, order))
                        + [HeaderBlock(headersChunk)]
      ensures Blocks(events) == Blocks(old(events)) + 1
    {
      AppendStatusLine(status);
      DefaultContentType();
      order := AppendHeaderLines();
      EndHeaderBlock();
      HeaderEvents(old(events), ToI32(status), ValueCount(headers, order), headersChunk);
    }

    /** The status line and `uwsgi_simple_set_status`. */
    method AppendStatusLine(status: int)
      modifies this
      ensures headersChunk == old(headersChunk) + StatusLine(ProtoAtLeast(r, 1, 1), status)
      ensures events == old(events) + [SetStatus(ToI32(status))]
      ensures headers == old(headers) && wroteHeader == old(wroteHeader)
    {
      var proto := "HTTP/1.0";
      if ProtoAtLeast(r, 1, 1) {
        proto := "HTTP/1.1";
      }
      var codestring := StatusText(status);
      headersChunk := headersChunk + (proto + " " + Decimal(status) + " " + codestring + "\r\n");
      events := events + [SetStatus(ToI32(status))];
    }

    /** `if w.headers.Get("Content-Type") == "" { w.headers.Set(...) }`. */
    method DefaultContentType()
      modifies this
      ensures headers == WithDefaultContentType(old(headers))
      ensures headersChunk == old(headersChunk) && events == old(events) && wroteHeader == old(wroteHeader)
    {
      if Get(headers, CONTENT_TYPE) == "" {
        headers := headers[CONTENT_TYPE := [DEFAULT_CONTENT_TYPE]];
      }
    }

    /** The closing CR LF, the write of the whole chunk, and the flag. */
    method EndHeaderBlock()
      modifies this
      ensures headersChunk == old(headersChunk) + "\r\n"
      ensures events == old(events) + [HeaderBlock(headersChunk)]
      ensures wroteHeader && headers == old(headers)
    {
      headersChunk := headersChunk + "\r\n";
      events := events + [HeaderBlock(headersChunk)];
      wroteHeader := true;
    }

    /** The body of the `for k := range w.headers` loop: one line per value
        of every key, the keys in the map's unspecified iteration order. */
    method AppendHeaderLines() returns (ghost order: seq<string>)
      modifies this
      ensures IsOrder(order, headers)
      ensures headersChunk == old(headersChunk) + HeaderLines(headers, order)
      ensures events == old(events) + Incs(ValueCount(headers, order))
      ensures headers == old(headers) && wroteHeader == old(wroteHeader)
    {
      ghost var h, chunk, trace := headers, headersChunk, events;
      var remaining := headers.Keys;
      order := [];
      while remaining != {}
        invariant PartialOrder(order, remaining, h)
        invariant headersChunk == chunk + HeaderLines(h, order)
        invariant events == trace + Incs(ValueCount(h, order))
        invariant headers == h && wroteHeader == old(wroteHeader)
        decreases |remaining|
      {
        var k :| k in remaining;
        ghost var chunk0, events0 := headersChunk, events;
        AppendValueLines(k, headers[k]);
        OrderStep(h, order, remaining, k);
        StepAppends(chunk, HeaderLines(h, order), ValueLines(k, h[k]), chunk0, headersChunk);
        IncsAdd(ValueCount(h, order), |h[k]|);
        StepAppends(trace, Incs(ValueCount(h, order)), Incs(|h[k]|), events0, events);
        remaining := remaining - {k};
        order := order + [k];
      }
    }

    /** The inner loop: each value of key `k` cleaned of CR and LF, trimmed
        and appended as `k: v` CR LF, with one `inc_headers` per value. */
    method AppendValueLines(k: string, vs: seq<string>)
      modifies this
      ensures headersChunk == old(headersChunk) + ValueLines(k, vs)
      ensures events == old(events) + Incs(|vs|)
      ensures headers == old(headers) && wroteHeader == old(wroteHeader)
    {
      ghost var c0, e0, h0, w0 := headersChunk, events, headers, wroteHeader;
      var j := 0;
      while j < |vs|
        invariant 0 <= j <= |vs|
        invariant headersChunk == c0 + ValueLines(k, vs[..j])
        invariant events == e0 + Incs(j)
        invariant headers == h0 && wroteHeader == w0
      {
        var v := ReplaceBreaks(vs[j]);
        v := TrimSpace(v);
        ghost var chunk, trace := headersChunk, events;
        headersChunk := headersChunk + (k + ": " + v + "\r\n");
        events := events + [IncHeaders];
        ValueLinesSnoc(k, vs, j);
        StepAppends(c0, ValueLines(k, vs[..j]), HeaderLine(k, vs[j]), chunk, headersChunk);
        StepAppends(e0, Incs(j), [IncHeaders], trace, events);
        j := j + 1;
      }
      assert vs[..j] == vs;
    }

    /** `Write(p)`: the implicit `WriteHeader(200)` on the first write, then
        the body chunk; reports all of `p` written and no error. `order` is
        the key order of the implicit header block, if one was written. */
    method Write(p: seq<byte>) returns (n: int, err: Option<GoError>, ghost order: seq<string>)
      requires Valid() && |p| > 0
      modifies this
      ensures Valid() && wroteHeader
      ensures n == |p| && err == None
      ensures old(wroteHeader) ==>
                && headers == old(headers) && headersChunk == old(headersChunk)
                && events == old(events) + [Body(p)]
      ensures !old(wroteHeader) ==>
                && headers == WithDefaultContentType(old(headers))
                && IsOrder(order, headers)
                && headersChunk == old(headersChunk) + StatusLine(ProtoAtLeast(r, 1, 1), 200)
                                   + HeaderLines(headers, order) + "\r\n"
                && events == old(events) + [SetStatus(200)] + Incs(ValueCount(headers, order))
                             + [HeaderBlock(headersChunk)] + [Body(p)]
    {
      order := [];
      if !wroteHeader {
        order := WriteHeader(200);
      }
      var m := |p|;
      BodyAfterHeaders(events, p);
      events := events + [Body(p)];
      n := m;
      err := None;
    }
  }

  /** The error values the reader returns (`nil` is None). */
  datatype GoError = ErrUnexpectedEOF | EOF

  /** `BodyReader.Read` into a buffer of `m` bytes, given what the native
      `uwsgi_simple_request_read` returned (at most `m`, negative on error). */
  function Read(m: nat, rlen: int): (r: (int, Option<GoError>))
    requires m > 0 && rlen <= m
    ensures 0 <= r.0 <= m
    ensures r.1 == None <==> r.0 > 0
    ensures r.0 > 0 ==> r.0 == rlen
    ensures r.1 == Some(EOF) <==> rlen == 0
    ensures r.1 == Some(ErrUnexpectedEOF) <==> rlen < 0
  {
    if rlen < 0 then (0, Some(ErrUnexpectedEOF))
    else if rlen == 0 then (0, Some(EOF))
    else (rlen, None)
  }

  /** `BodyReader.Close`: there is nothing to close. */
  function Close(): (err: Option<GoError>)
    ensures err == None
  {
    None
  }

  /** `uwsgi_go_helper_request`: when the environment converts into a
      request (`parsed`), a fresh writer for it is made and handed to the
      application's handler; otherwise nothing happens. */
  method HelperRequest(parsed: Option<Request>) returns (w: ResponseWriter?)
    ensures w == null <==> parsed.None?
    ensures w != null ==> fresh(w) && w.Valid() && w.r == parsed.value && !w.wroteHeader
                          && w.headers == map[] && w.headersChunk == "" && w.events == []
  {
    if parsed.None? {
      w := null;
    } else {
      w := new ResponseWriter(parsed.value);
    }
  }
}
