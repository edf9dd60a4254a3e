# uWSGI msgpack log encoder and Go binding, in Dafny

This project models two parts of uWSGI.

**The msgpack plugin** (`plugins/msgpack/msgpack.c`):
- The MessagePack emitters append map, array, str, bin, int, nil, true and false items to a `uwsgi_buffer`.
- The singly linked item list grows by tail append.
- The msgpack log encoder parses its `|`-separated template once into that list. It then serialises every log message by walking the list.

The buffer is a class whose `data` only grows. Every emitter is a method on it, specified by the bytes it appends (`MapHeader`, `StrBytes`, …). A reference MessagePack reader (`ReadToken`/`ReadTokens`) is the partner of the emitters: for the map, array, str, bin, nil, true and false emitters, and for the corrected 64-bit integer emitter, reading back what was written gives the value it was asked to write. The integer emitter as the plugin writes it is the exception: its output cannot be read (see Findings). The encoder's output as a whole reads back as exactly the items the template describes, with the log message in place of each `msg*` item.

**The Go binding** (`plugins/go/src/uwsgi/uwsgi.go`):
- The `http.ResponseWriter` holds the `wroteHeader` flag, the accumulated `headers_chunk` and the header map.
- The `BodyReader`.
- The per-request environment map and its registry.
- Signal registration, with the modifier looked up once and then cached, and the 256-slot handler table.
- The timer and query pass-throughs.
- The cache wrappers.

The binding's calls into the server that change or register something are recorded as events in a real field: status, header and body writes, lock, cache, signal and timer calls, and the modifier lookup. Two calls are not recorded and appear only as parameters: the body read in `BodyReader.Read` (`uwsgi_simple_request_read`, whose result is a parameter) and the `uwsgi_cache_enabled()` check (the parameter `enabled`). The server's answers are method parameters. Over these records the model proves that:
- a header block is always written before any body data;
- no CR or LF survives inside a header value;
- the modifier is looked up at most once successfully, and every registration carries the cached modifier;
- every cache operation takes the lock it needs and releases it on every path, so acquisitions and releases balance.

## Model

| member | source | states |
|---|---|---|
| MsgPackItems.ItemList.Add | plugins/msgpack/msgpack.c:33-49 | walks to the tail and links one fresh zero-filled item of the requested type; earlier items, their order and a non-empty list's head are unchanged; the node sequence grows by exactly the new node |
| MsgPackItems.ItemList.SetNum | plugins/msgpack/msgpack.c:147-150 | setting `num` on the i-th item changes that item's number only; list shape and every other item unchanged |
| MsgPackItems.ItemList.SetStr | plugins/msgpack/msgpack.c:168-175 | setting the payload of the i-th item changes that item's payload only |
| MsgPackBuffer.Buffer.Append | plugins/msgpack/msgpack.c:97 | an append succeeds exactly when the bytes fit under the buffer's limit and then adds all of them, otherwise nothing |
| MsgPackBuffer.Buffer.MsgpackMap | plugins/msgpack/msgpack.c:51-62 | appends `0x80+len` for len ≤ 15, `0xDE` + u16 BE up to 0xffff, else `0xDF` + u32 BE; on failure it has appended a proper prefix of those bytes and reports false |
| MsgPackBuffer.Buffer.MsgpackArray | plugins/msgpack/msgpack.c:64-75 | the same three-way split with `0x90+len` / `0xDC` / `0xDD` |
| MsgPackFormat.ArrayHeader | plugins/msgpack/msgpack.c:64-75 | an array header has the map header's length and length bytes; only the tag differs (+0x10 in the fix form, −2 in the 16/32-bit forms) |
| MsgPackBuffer.Buffer.MsgpackStr | plugins/msgpack/msgpack.c:77-98 | appends the str header (`0xA0+len` up to 31, `0xDA` + u16 up to 0xffff, else `0xDB` + u32) and then exactly the payload; failure leaves a prefix |
| MsgPackFormat.StrHeader | plugins/msgpack/msgpack.c:81-87 | the str8 tag 0xD9 is never produced |
| MsgPackFormat.StrBytes | plugins/msgpack/msgpack.c:97 | a string encoding ends with exactly its `len` payload bytes |
| MsgPackBuffer.Buffer.MsgpackBin | plugins/msgpack/msgpack.c:100-115 | appends `0xC4` + 1 length byte up to 0xff, `0xC5` + u16 up to 0xffff, else `0xC6` + u32, then the payload |
| MsgPackFormat.BinBytes | plugins/msgpack/msgpack.c:114 | a binary encoding ends with exactly its payload bytes |
| MsgPackBuffer.Buffer.MsgpackInt | plugins/msgpack/msgpack.c:118-124 | as written: 1..127 as one byte, anything else as `0xD3` followed by only the low 32 bits (5 bytes) |
| MsgPackBuffer.Buffer.MsgpackInt64 | plugins/msgpack/msgpack.c:118-124 | corrected: `0xD3` followed by the full 64-bit two's complement value |
| MsgPackBuffer.Buffer.MsgpackNil | plugins/msgpack/msgpack.c:126-128 | appends the single byte 0xC0 or fails |
| MsgPackBuffer.Buffer.MsgpackTrue | plugins/msgpack/msgpack.c:130-132 | appends the single byte 0xC3 or fails |
| MsgPackBuffer.Buffer.MsgpackFalse | plugins/msgpack/msgpack.c:134-136 | appends the single byte 0xC2 or fails |
| MsgPackFormat.MapHeaderReads | plugins/msgpack/msgpack.c:51-62 | a MessagePack reader reads the map header back as a map of `len` entries, consuming exactly the header, whatever follows |
| MsgPackFormat.ArrayHeaderReads | plugins/msgpack/msgpack.c:64-75 | the same for the array header |
| MsgPackFormat.StrReads | plugins/msgpack/msgpack.c:77-98 | a reader reads the string back as exactly the payload, consuming header and payload |
| MsgPackFormat.BinReads | plugins/msgpack/msgpack.c:100-115 | a reader reads the blob back as exactly the payload |
| MsgPackFormat.Int64Reads | plugins/msgpack/msgpack.c:118-124 | the corrected integer encoding reads back as the same signed 64-bit value |
| MsgPackFormat.IntAsWrittenMisreads | plugins/msgpack/msgpack.c:122-123 | for every value outside 1..127 the as-written 5-byte output is not a MessagePack stream on its own (the reader finds no complete item), and whatever follows it is never read as one 5-byte item |
| MsgPackFormat.IntAsWrittenZero | plugins/msgpack/msgpack.c:118-124 | zero is written as `D3 00 00 00 00`, which a reader cannot read at all |
| MsgPackFormat.IntFixintAgrees | plugins/msgpack/msgpack.c:119-121 | on 1..127 the as-written and corrected emitters agree |
| MsgPackFormat.EncodeReads | plugins/msgpack/msgpack.c:51-136 | every value the emitters can write reads back whole from its encoding, whatever bytes follow |
| MsgPackFormat.ReadTokensCons | plugins/msgpack/msgpack.c:51-136 | reading a stream resumes right after each encoded item |
| MsgPackTemplate.Tokens | plugins/msgpack/msgpack.c:141-142 | the `strtok` tokens are non-empty and hold no `\|` |
| MsgPackTemplate.TokensKeepText | plugins/msgpack/msgpack.c:141-205 | splitting loses nothing but the separators |
| MsgPackTemplate.TokensOfJoin | plugins/msgpack/msgpack.c:141-205 | joining non-empty bar-free tokens with `\|` and splitting again gives them back |
| MsgPackTemplate.Until | plugins/msgpack/msgpack.c:141-144 | the first position of the separator (`\|` for `strtok`, `:` for `strchr`), or the end: nothing before it is the separator |
| MsgPackTemplate.ParseRender | plugins/msgpack/msgpack.c:146-202 | every item a template can express is parsed back from the token written for it (names, strtol counts, literal payloads, msg numbers 0..3) |
| MsgPackTemplate.ParseRenderAll | plugins/msgpack/msgpack.c:140-206 | a run of such tokens parses to the run of items |
| MsgPackTemplate.TemplateRoundTrip | plugins/msgpack/msgpack.c:140-206 | the template written for a list of items parses back to that list |
| Numerals.StrtolOfDecimal | plugins/msgpack/msgpack.c:149 | `strtol` reads back the decimal text of any number |
| MsgPackEncoder.MagicPayload | plugins/msgpack/msgpack.c:237-247 | the message part is a prefix of the message, one byte shorter exactly for `msg`/`msgbin` when the message ends in a newline, and then the message without that newline; in every other case (`msgnl`, `msgbinnl`, or no trailing newline) the whole message; only `msg`/`msgbin` need a non-empty message |
| MsgPackEncoder.LogEncoder.AddNamed | plugins/msgpack/msgpack.c:146-202 | one token's name and argument append exactly the item `ParseNamed` gives, or nothing for an unknown name |
| MsgPackEncoder.LogEncoder.AddToken | plugins/msgpack/msgpack.c:143-204 | a token split at its first colon appends exactly `ParseToken(tok)` |
| MsgPackEncoder.LogEncoder.Configure | plugins/msgpack/msgpack.c:140-208 | the `strtok` loop leaves the list equal to `ParseTemplate(args)` and sets `configured` |
| MsgPackEncoder.EmitItem | plugins/msgpack/msgpack.c:214-252 | one pass of the switch appends exactly `ItemBytes` of the item (nothing for int, float and unknown magic numbers), or fails with a prefix; an empty message is accepted unless the item is `msg` or `msgbin` |
| MsgPackEncoder.EmitMagic | plugins/msgpack/msgpack.c:236-251 | the magic branch writes the message as str (0, 2) or bin (1, 3), dropping the trailing newline only for 0 and 1 |
| MsgPackEncoder.LogEncoder.EmitAll | plugins/msgpack/msgpack.c:210-267 | the result is the concatenation of every item's bytes in list order when it fits, NULL as soon as an emitter fails; the message may be empty unless some item is `msg` or `msgbin` |
| MsgPackEncoder.LogEncoder.Encode | plugins/msgpack/msgpack.c:138-268 | configures once, then returns `EncodeAll(ParseTemplate(args), msg)` or NULL; the message may be empty when the template has no `msg`/`msgbin` item |
| MsgPackEncoder.ItemBytesEncode | plugins/msgpack/msgpack.c:214-252 | each item's bytes are the standard encoding of one MessagePack value, or nothing |
| MsgPackEncoder.EncodeAllReads | plugins/msgpack/msgpack.c:210-267 | a MessagePack reader reads the whole output back as exactly the template's items, with the message in place of each magic item |
| MsgPackEncoder.EmptyMessage | plugins/msgpack/msgpack.c:236-251 | an empty message is serialised wherever no item reads its last byte: `nil\|msgnl` gives `C0 A0` |
| GoResponse.ResponseWriter.Header | plugins/go/src/uwsgi/uwsgi.go:333-335 | returns the writer's own header map; a handler's writes through that map are modelled by `SetHeader`, which changes only `headers` at one key, so `WriteHeader` sees them |
| GoResponse.ResponseWriter.WriteHeader | plugins/go/src/uwsgi/uwsgi.go:307-331 | the chunk grows by status line, one sanitised line per value in some iteration order of the keys, and CR LF. Events: one set-status carrying `C.int(status)` (the low 32 bits, read as signed, `ToI32`), one inc-headers per value, one write of the whole chunk. Content-Type is defaulted; the header-before-body invariant holds and `wroteHeader` is set |
| GoResponse.ResponseWriter.AppendHeaderLines | plugins/go/src/uwsgi/uwsgi.go:318-325 | the nested loop visits every key exactly once and appends each key's value lines, with one inc-headers per value |
| GoResponse.ResponseWriter.AppendValueLines | plugins/go/src/uwsgi/uwsgi.go:319-324 | for one key, appends `k: Sanitize(v)` CR LF per value in order, with one inc-headers each |
| GoResponse.WithDefaultContentType | plugins/go/src/uwsgi/uwsgi.go:315-317 | Content-Type is set to `text/html; charset=utf-8` exactly when it is absent or empty; otherwise the map is unchanged |
| GoResponse.ResponseWriter.Write | plugins/go/src/uwsgi/uwsgi.go:297-305 | after an earlier header it only appends one body write. Otherwise it first does exactly what `WriteHeader(200)` does: Content-Type defaulted, status line, every header line in some key order and CR LF added to the chunk, then set-status, one inc-headers per value and the header-block write. After that comes exactly one body write. It returns `len(p)` with a nil error |
| GoResponse.HeadersFirstAt | plugins/go/src/uwsgi/uwsgi.go:297-305 | in any history the writer produces, every body write comes after a header-block write |
| GoResponse.HeaderEvents | plugins/go/src/uwsgi/uwsgi.go:307-331 | one WriteHeader adds exactly one header block and no body write |
| GoText.StatusLineReads | plugins/go/src/uwsgi/uwsgi.go:308-313 | the status line is the protocol, a space, the decimal status (read back by a client as the same number), a space, the reason phrase and CR LF |
| GoText.ReplaceBreaksAt | plugins/go/src/uwsgi/uwsgi.go:320 | the replacer turns exactly CR and LF into spaces and keeps every other character in place |
| GoText.TrimSpaceSlice | plugins/go/src/uwsgi/uwsgi.go:321 | TrimSpace keeps a contiguous run and removes only white space around it; the result has no surrounding white space |
| GoText.SanitizeClean | plugins/go/src/uwsgi/uwsgi.go:320-321 | no CR or LF survives in a sanitised value, and it is trimmed |
| GoText.SanitizeIdempotent | plugins/go/src/uwsgi/uwsgi.go:320-321 | sanitising twice is sanitising once |
| GoText.HeaderLineEndsOnce | plugins/go/src/uwsgi/uwsgi.go:322 | a header line's only line break is its final CR LF |
| GoResponse.Read | plugins/go/src/uwsgi/uwsgi.go:347-357 | a negative native result gives (0, ErrUnexpectedEOF), zero gives (0, EOF), a positive one (rlen, nil), in both directions |
| GoResponse.Close | plugins/go/src/uwsgi/uwsgi.go:343-345 | always nil |
| GoResponse.HelperRequest | plugins/go/src/uwsgi/uwsgi.go:360-368 | a writer exists exactly when the environment converts into a request, and starts with no header written, no headers and an empty chunk |
| GoEnv.EnvRegistry.EnvNew | plugins/go/src/uwsgi/uwsgi.go:268-274 | a fresh empty map, recorded under its request; no entry is removed |
| GoEnv.EnvAdd | plugins/go/src/uwsgi/uwsgi.go:277-281 | sets exactly key → value from the given lengths, leaving other keys unchanged |
| GoEnv.EnvOfLastWins | plugins/go/src/uwsgi/uwsgi.go:277-281 | after a run of adds, a key is present exactly when some add gave it, with the latest add's value |
| GoEnv.LastWith | plugins/go/src/uwsgi/uwsgi.go:277-281 | reference lookup: the position of the last add for a key, or none |
| GoSignals.SignalApi.RegisterSignal | plugins/go/src/uwsgi/uwsgi.go:116-132 | looks the modifier up only while it is -1 and fails when the lookup fails. It registers with the cached modifier; on native success the handler takes slot `signum`; otherwise the table is unchanged |
| GoSignals.ResolvedOnce | plugins/go/src/uwsgi/uwsgi.go:117-125 | after a successful lookup the modifier is never looked up again |
| GoSignals.RegistrationsUseCached | plugins/go/src/uwsgi/uwsgi.go:126-128 | every registration carries the modifier cached when it was made, which was resolved |
| GoSignals.SignalApi.AddTimer | plugins/go/src/uwsgi/uwsgi.go:92-97 | passes the signal as uint8 and the seconds as C int; true exactly when the native call returns 0 |
| GoSignals.SignalApi.AddRbTimer | plugins/go/src/uwsgi/uwsgi.go:100-105 | the same with an iteration count of 0 |
| GoSignals.SignalApi.SignalRegistered | plugins/go/src/uwsgi/uwsgi.go:108-113 | true exactly when the native query returns non-zero |
| GoCache.CacheApi.CacheGet | plugins/go/src/uwsgi/uwsgi.go:135-160 | nil without a cache (no lock taken); otherwise read-lock, get, unlock, and the value only when its length is positive |
| GoCache.CacheApi.CacheDel | plugins/go/src/uwsgi/uwsgi.go:163-181 | false without a cache; otherwise write-lock, delete, unlock on both paths, true exactly when the result is not negative |
| GoCache.CacheApi.CacheExists | plugins/go/src/uwsgi/uwsgi.go:184-202 | false without a cache; otherwise read-lock, exists, unlock, true exactly when the result is positive |
| GoCache.CacheApi.CacheSetFlags | plugins/go/src/uwsgi/uwsgi.go:205-226 | false without a cache; otherwise write-lock, set with key length and flags as uint16, unlock on both paths, true exactly when the result is not negative |
| GoCache.CacheApi.CacheSet | plugins/go/src/uwsgi/uwsgi.go:228-230 | a set with flags 0 |
| GoCache.CacheApi.CacheUpdate | plugins/go/src/uwsgi/uwsgi.go:232-234 | a set with flags 2 |
| GoCache.CallsLocked | plugins/go/src/uwsgi/uwsgi.go:135-226 | in every history the wrappers produce, each cache call is made under the lock it needs (either lock for get and exists, the write lock for delete and set) |
| GoCache.Balanced | plugins/go/src/uwsgi/uwsgi.go:135-226 | lock acquisitions and releases balance, up to a lock held at either end |
| GoCache.RunAppend | plugins/go/src/uwsgi/uwsgi.go:135-226 | the locking rules compose over consecutive operations |

## Left out

- The native server is not modelled; its primitives are parameters and recorded events. This covers:
  - `uwsgi_buffer_*` internals: growth failure is a capacity `limit` on the buffer;
  - `uwsgi_simple_*`;
  - cache storage and real locks;
  - signal and timer tables;
  - `uwsgi_plugin_modifier1`.
- `cgi.RequestFromMap` is a parameter of `HelperRequest`: the request or its failure. Only the request's protocol version is modelled. The handler call itself (`uwsgi_instance.RequestHandler`) and `http.DefaultServeMux` are application code.
- Go's header-key canonicalisation (`Header.Get`/`Set`): keys are compared as given.
- `strings.TrimSpace` trims ASCII white space only, not Unicode white space.
- `http.StatusText` is a table of Go's registered codes. That the table's phrases hold no line break is not proved.
- `strtol` overflow: the value is read unbounded and then truncated to 32 bits where the emitter takes `uint32_t`.
- `MsgPackEncoder.LogEncoder.Encode` requires a message and a template shorter than 2^32 bytes, the range of the emitters' 32-bit lengths. It models C's `strlen`-based payload as the whole argument text, and characters above 255 keep only their low 8 bits.
- `GoCache.CacheApi.CacheGet` requires a value shorter than 2^31 bytes, because the binding converts the length to a C `int` before copying.
- `GoCache.CacheApi.Perform` records one release per operation. `CacheDel` and `CacheSetFlags` call unlock separately on the failure and success branches, and both calls are this one release, so "released on every path" holds by construction.
- Memory management (`C.free`, `uwsgi_buffer_destroy`, the hand-over of `ub->buf`).
- The NULs in the template text. The plugin restores the NUL it writes at each `:` (`plugins/msgpack/msgpack.c:144`, restored at line 204), but the NULs that `strtok` writes at each `|` are never restored. So on every later call `strlen(ule->args)` (line 210) counts only the first token. The model takes the buffer size as the parameter `limit` and does not derive it from the template text.
- `uwsgi_go_helper_signal_handler`, `uwsgi_go_helper_run_core`, `Run` and argv marshalling, `Banner`/`PostFork`/`PostInit`, and the `Signal`/`Lock`/`Unlock`/`WorkerId`/`MuleId`/`LogSize` pass-throughs: glue without logic of its own, or concurrency.
- Plugin registration of the msgpack log encoder (`plugins/msgpack/msgpack.c:271-279`).
- Crashes of the source are preconditions:
  - `&p[0]` on an empty slice in `Write`, `BodyReader.Read` (`GoResponse.Read` requires `m > 0`) and `CacheSetFlags`;
  - `msg[len-1]` on an empty message, which the `msg` and `msgbin` items read (`MessageFor`). An empty message is accepted for every other item;
  - indexing the signal table outside 0..255 after a successful registration.

## Findings

| source | as written | input that shows it | evidently intended | confidence | as-written member | corrected member |
|---|---|---|---|---|---|---|
| plugins/msgpack/msgpack.c:122-123 | the int64 tag 0xD3 is followed by only 4 bytes, the low 32 bits of the value | `num = 0` gives `D3 00 00 00 00`, which a MessagePack reader cannot read (it expects 8 bytes after the tag); every value outside 1..127 is misread | `0xD3` followed by the 8-byte big-endian two's complement value | not executed | MsgPackFormat.IntAsWrittenMisreads | MsgPackFormat.Int64Reads |
