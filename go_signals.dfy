/** The Go binding's signal and timer API: registering a Go function as the
    handler of a server signal, under the binding's modifier, which is
    looked up once and then cached; and the timer and query calls that pass
    straight through to the server. The server's side is modelled by the
    calls it receives and the results it returns, which are parameters. */
module GoSignals {
  import opened Bytes
  import opened Opt

  /** A Go handler `func(int)`, identified by a number. */
  datatype Handler = Handler(id: nat)

  /** What the server receives. Numbers are shown as the C types the
      binding converts them to: `uint8_t` signals and modifiers, `int`
      seconds. */
  datatype Event =
    | ResolveModifier(result: int)              // uwsgi_plugin_modifier1("go")
    | RegisterCall(signum: byte, who: string, modifier: byte)
    | AddTimerCall(signum: byte, seconds: i32)
    | AddRbTimerCall(signum: byte, seconds: i32, iterations: i32)
    | RegisteredQuery(signum: byte)

  const UNRESOLVED: int := -1
  const SLOTS: nat := 256

  /** The modifier the binding holds after the calls `t`: the result of the
      latest lookup, -1 before any. */
  function Cached(t: seq<Event>): int
  {
    if t == [] then UNRESOLVED
    else if t[|t| - 1].ResolveModifier? then t[|t| - 1].result
    else Cached(t[..|t| - 1])
  }

  /** The caching discipline of a call history: a lookup happens only while
      no modifier is cached, and every registration uses the cached
      modifier. */
  predicate Disciplined(t: seq<Event>)
  {
    t == [] ||
    (Disciplined(t[..|t| - 1]) &&
     match t[|t| - 1]
     case ResolveModifier(_) => Cached(t[..|t| - 1]) == UNRESOLVED
     case RegisterCall(_, _, m) => Cached(t[..|t| - 1]) != UNRESOLVED && m == ToU8(Cached(t[..|t| - 1]))
     case _ => true)
  }

  /** The binding's globals `uwsgi_modifier1` and `uwsgi_signals_gc` (the
      table of 256 handlers kept alive for the server), and the calls made
      so far. */
  class SignalApi {
    var modifier1: int
    const signalsGc: array<Option<Handler>>
    var events: seq<Event>

    ghost predicate Valid()
      reads this
    {
      && signalsGc.Length == SLOTS
      && modifier1 == Cached(events)
      && Disciplined(events)
    }

    constructor ()
      ensures Valid() && events == [] && modifier1 == UNRESOLVED
      ensures fresh(signalsGc) && forall s :: 0 <= s < SLOTS ==> signalsGc[s] == None
    {
      modifier1 := UNRESOLVED;
      signalsGc := new Option<Handler>[SLOTS](_ => None);
      events := [];
    }

    /** `RegisterSignal`: looks the modifier up if none is cached (and
        gives up when the lookup fails), then registers `handler` for
        `signum`; on success (`rc == 0`) the handler takes the signal's
        slot. `resolved` is what the lookup returns, `rc` what the
        registration returns. Go panics indexing the table outside
        0..255, so a successful registration needs `signum` in range. */
    method RegisterSignal(signum: int, who: string, handler: Handler, resolved: int, rc: int)
      returns (ok: bool)
      requires Valid()
      requires rc == 0 && (modifier1 != UNRESOLVED || resolved != UNRESOLVED) ==> 0 <= signum < SLOTS
      modifies this, signalsGc
      ensures Valid()
      ensures old(modifier1) != UNRESOLVED ==> modifier1 == old(modifier1)
      ensures old(modifier1) == UNRESOLVED ==> modifier1 == resolved
      ensures ok <==> modifier1 != UNRESOLVED && rc == 0
      ensures events == old(events)
                        + (if old(modifier1) == UNRESOLVED then [ResolveModifier(resolved)] else [])
                        + (if modifier1 != UNRESOLVED then [RegisterCall(ToU8(signum), who, ToU8(modifier1))] else [])
      ensures ok ==> signalsGc[..] == old(signalsGc[..])[signum := Some(handler)]
      ensures !ok ==> signalsGc[..] == old(signalsGc[..])
    {
      ghost var t0 := events;
      if modifier1 == UNRESOLVED {
        modifier1 := resolved;
        events := events + [ResolveModifier(resolved)];
        assert events[..|events| - 1] == t0;
        if modifier1 == UNRESOLVED {
          return false;
        }
      }
      ghost var t1 := events;
      events := events + [RegisterCall(ToU8(signum), who, ToU8(modifier1))];
      assert events[..|events| - 1] == t1;
      if rc == 0 {
        signalsGc[signum] := Some(handler);
        return true;
      }
      return false;
    }

    /** `AddTimer`: true when `uwsgi_add_timer` returns 0. */
    method AddTimer(signum: int, seconds: int, rc: int) returns (ok: bool)
      requires Valid()
      modifies this
      ensures Valid() && modifier1 == old(modifier1)
      ensures events == old(events) + [AddTimerCall(ToU8(signum), ToI32(seconds))]
      ensures ok <==> rc == 0
    {
      Record(AddTimerCall(ToU8(signum), ToI32(seconds)));
      ok := rc == 0;
    }

    /** `AddRbTimer`: true when `uwsgi_signal_add_rb_timer` (with no
        iteration limit) returns 0. */
    method AddRbTimer(signum: int, seconds: int, rc: int) returns (ok: bool)
      requires Valid()
      modifies this
      ensures Valid() && modifier1 == old(modifier1)
      ensures events == old(events) + [AddRbTimerCall(ToU8(signum), ToI32(seconds), 0)]
      ensures ok <==> rc == 0
    {
      Record(AddRbTimerCall(ToU8(signum), ToI32(seconds), 0));
      ok := rc == 0;
    }

    /** `SignalRegistered`: true when `uwsgi_signal_registered` returns
        anything but 0. */
    method SignalRegistered(signum: int, rc: int) returns (registered: bool)
      requires Valid()
      modifies this
      ensures Valid() && modifier1 == old(modifier1)
      ensures events == old(events) + [RegisteredQuery(ToU8(signum))]
      ensures registered <==> rc != 0
    {
      Record(RegisteredQuery(ToU8(signum)));
      registered := rc != 0;
    }

    /** Appends a call that neither looks up nor uses the modifier. */
    method Record(e: Event)
      requires Valid() && !e.ResolveModifier? && !e.RegisterCall?
      modifies this
      ensures Valid() && modifier1 == old(modifier1) && events == old(events) + [e]
    {
      ghost var t0 := events;
      events := events + [e];
      assert events[..|events| - 1] == t0;
    }
  }

  /** Once a lookup has succeeded, the binding never looks the modifier up
      again: every later lookup in a disciplined history is impossible. */
  lemma {:induction false} ResolvedOnce(t: seq<Event>, i: nat, j: nat)
    requires Disciplined(t)
    requires i < j < |t|
    requires t[i].ResolveModifier? && t[i].result != UNRESOLVED
    ensures !t[j].ResolveModifier?
  {
    if t[j].ResolveModifier? {
      PrefixDisciplined(t, j);
      var u := t[..j + 1];
      assert u[..|u| - 1] == t[..j] && u[|u| - 1] == t[j];
      assert t[..j][i] == t[i];
      CachedStays(t[..j], i);
    }
  }

  /** A prefix of a disciplined history is disciplined, and its last
      step keeps the rule. */
  lemma {:induction false} PrefixDisciplined(t: seq<Event>, n: nat)
    requires Disciplined(t) && n < |t|
    ensures Disciplined(t[..n + 1])
    decreases |t|
  {
    if n + 1 < |t| {
      PrefixDisciplined(t[..|t| - 1], n);
      assert t[..|t| - 1][..n + 1] == t[..n + 1];
    } else {
      assert t[..n + 1] == t;
    }
  }

  /** In a disciplined history, a successful lookup stays cached. */
  lemma {:induction false} CachedStays(t: seq<Event>, i: nat)
    requires Disciplined(t) && i < |t|
    requires t[i].ResolveModifier? && t[i].result != UNRESOLVED
    ensures Cached(t) == t[i].result
    decreases |t|
  {
    if i < |t| - 1 {
      assert t[..|t| - 1][i] == t[i];
      CachedStays(t[..|t| - 1], i);
    }
  }

  /** Every registration in a disciplined history carries the modifier
      that was cached when it was made, and that modifier was resolved. */
  lemma {:induction false} RegistrationsUseCached(t: seq<Event>, j: nat)
    requires Disciplined(t) && j < |t| && t[j].RegisterCall?
    ensures Cached(t[..j]) != UNRESOLVED && t[j].modifier == ToU8(Cached(t[..j]))
  {
    PrefixDisciplined(t, j);
    var u := t[..j + 1];
    assert u[..|u| - 1] == t[..j];
  }
}
