/** The Go binding's cache API: each call checks that the server has a
    cache, takes the cache lock (shared for reads, exclusive for writes),
    makes one cache call and releases the lock on every path. The cache
    itself is the server's; its answers are parameters and the calls it
    receives are recorded. */
module GoCache {
  import opened Bytes
  import opened Opt

  /** What the server receives. Keys and values are Go strings and byte
      slices; lengths and flags are shown as the C types the binding
      converts them to. */
  datatype Event =
    | ReadLock                                      // uwsgi_cache_rlock
    | WriteLock                                     // uwsgi_cache_wlock
    | Unlock                                        // uwsgi_cache_rwunlock
    | GetCall(key: seq<byte>, keyLen: u16)
    | DelCall(key: seq<byte>, keyLen: u16)
    | ExistsCall(key: seq<byte>, keyLen: u16)
    | SetCall(key: seq<byte>, keyLen: u16, value: seq<byte>, expires: u64, flags: u16)

  datatype LockState = Unlocked | ReadLocked | WriteLocked

  /** The lock after one event, or None when the event is not allowed in
      state `s`: locks are taken only when free, released only when held,
      lookups need a lock and changes need the exclusive one. */
  function Step(s: LockState, e: Event): Option<LockState>
  {
    match e
    case ReadLock => if s == Unlocked then Some(ReadLocked) else None
    case WriteLock => if s == Unlocked then Some(WriteLocked) else None
    case Unlock => if s != Unlocked then Some(Unlocked) else None
    case GetCall(_, _) => if s != Unlocked then Some(s) else None
    case ExistsCall(_, _) => if s != Unlocked then Some(s) else None
    case DelCall(_, _) => if s == WriteLocked then Some(s) else None
    case SetCall(_, _, _, _, _) => if s == WriteLocked then Some(s) else None
  }

  /** The lock after a run of events from state `s`, None when some event
      breaks the locking rules. */
  function Run(s: LockState, t: seq<Event>): Option<LockState>
  {
    if t == [] then Some(s)
    else match Run(s, t[..|t| - 1])
      case None => None
      case Some(m) => Step(m, t[|t| - 1])
  }

  /** Running two histories one after the other. */
  lemma {:induction false} RunAppend(s: LockState, a: seq<Event>, b: seq<Event>)
    ensures Run(s, a + b) == match Run(s, a) case None => None case Some(m) => Run(m, b)
    decreases |b|
  {
    if b == [] {
      assert a + b == a;
    } else {
      RunAppend(s, a, b[..|b| - 1]);
      assert (a + b)[..|a + b| - 1] == a + b[..|b| - 1];
      assert (a + b)[|a + b| - 1] == b[|b| - 1];
    }
  }

  /** In a history that follows the locking rules, every cache call is
      made under the lock it needs: a lookup under either lock, a change
      under the exclusive one. */
  lemma {:induction false} CallsLocked(t: seq<Event>, i: nat)
    requires Run(Unlocked, t).Some? && i < |t|
    ensures var held := Run(Unlocked, t[..i]);
            && held.Some? && Step(held.value, t[i]).Some?
            && ((t[i].DelCall? || t[i].SetCall?) ==> held == Some(WriteLocked))
            && ((t[i].GetCall? || t[i].ExistsCall?) ==> held != Some(Unlocked))
    decreases |t|
  {
    if i < |t| - 1 {
      assert t[..|t| - 1][i] == t[i] && t[..|t| - 1][..i] == t[..i];
      CallsLocked(t[..|t| - 1], i);
    } else {
      assert t[..i] == t[..|t| - 1];
    }
  }

  /** The number of lock acquisitions in `t`. */
  function Acquires(t: seq<Event>): nat
  {
    if t == [] then 0 else Acquires(t[..|t| - 1]) + (if t[|t| - 1].ReadLock? || t[|t| - 1].WriteLock? then 1 else 0)
  }

  /** The number of lock releases in `t`. */
  function Releases(t: seq<Event>): nat
  {
    if t == [] then 0 else Releases(t[..|t| - 1]) + (if t[|t| - 1].Unlock? then 1 else 0)
  }

  /** Every acquisition is matched by a release, except one for a lock
      still held at the end (or one held from the start): in particular a
      history from and to a free lock is balanced. */
  lemma {:induction false} Balanced(s: LockState, t: seq<Event>)
    requires Run(s, t).Some?
    ensures Acquires(t) + (if s == Unlocked then 0 else 1)
            == Releases(t) + (if Run(s, t) == Some(Unlocked) then 0 else 1)
  {
    if t != [] {
      Balanced(s, t[..|t| - 1]);
    }
  }

  /** The three calls of one locked operation. */
  function Locked(lock: Event, call: Event): seq<Event>
  {
    [lock, call, Unlock]
  }

  /** One locked operation, run from a free lock, leaves it free. */
  lemma LockedRuns(lock: Event, call: Event)
    requires (lock == ReadLock && (call.GetCall? || call.ExistsCall?))
          || (lock == WriteLock && (call.DelCall? || call.SetCall?))
    ensures Run(Unlocked, Locked(lock, call)) == Some(Unlocked)
  {
    var t := Locked(lock, call);
    assert [lock][..0] == [];
    assert Run(Unlocked, [lock]) == Some(if lock == ReadLock then ReadLocked else WriteLocked);
    assert [lock, call][..1] == [lock];
    assert Run(Unlocked, [lock, call]) == Run(Unlocked, [lock]);
    assert t[..2] == [lock, call];
  }

  /** The binding's view of the server: the calls made so far. */
  class CacheApi {
    var events: seq<Event>

    ghost predicate Valid()
      reads this
    {
      Run(Unlocked, events) == Some(Unlocked)
    }

    constructor ()
      ensures Valid() && events == []
    {
      events := [];
    }

    /** Records one locked operation; the lock is free again after it.
        `CacheDel` and `CacheSetFlags` unlock on each of their two branches
        (failed and successful call); both branches record the same single
        release, so this method stands for either. */
    method Perform(lock: Event, call: Event)
      requires Valid()
      requires (lock == ReadLock && (call.GetCall? || call.ExistsCall?))
            || (lock == WriteLock && (call.DelCall? || call.SetCall?))
      modifies this
      ensures Valid() && events == old(events) + Locked(lock, call)
    {
      LockedRuns(lock, call);
      RunAppend(Unlocked, events, Locked(lock, call));
      events := events + Locked(lock, call);
    }

    /** `CacheGet`: nothing when there is no cache; otherwise the value the
        cache holds for `key` (`found`, empty when it holds none), read
        under the shared lock, and nothing when that value is empty. */
    method CacheGet(key: seq<byte>, enabled: bool, found: seq<byte>) returns (p: Option<seq<byte>>)
      requires Valid()
      requires |found| < 0x8000_0000
      modifies this
      ensures Valid()
      ensures !enabled ==> p == None && events == old(events)
      ensures enabled ==> events == old(events) + Locked(ReadLock, GetCall(key, ToU16(|key|)))
      ensures p.Some? <==> enabled && |found| > 0
      ensures p.Some? ==> p.value == found
    {
      if !enabled {
        return None;
      }
      var kl := |key|;
      Perform(ReadLock, GetCall(key, ToU16(kl)));
      if |found| > 0 {
        p := Some(found);
      } else {
        p := None;
      }
    }

    /** `CacheDel`: false when there is no cache or the deletion fails
        (`rc` below zero). */
    method CacheDel(key: seq<byte>, enabled: bool, rc: int) returns (ok: bool)
      requires Valid()
      modifies this
      ensures Valid()
      ensures !enabled ==> events == old(events)
      ensures enabled ==> events == old(events) + Locked(WriteLock, DelCall(key, ToU16(|key|)))
      ensures ok <==> enabled && rc >= 0
    {
      if !enabled {
        return false;
      }
      var kl := |key|;
      Perform(WriteLock, DelCall(key, ToU16(kl)));
      ok := rc >= 0;
    }

    /** `CacheExists`: true only when there is a cache and it reports the
        key present (`rc` above zero). */
    method CacheExists(key: seq<byte>, enabled: bool, rc: int) returns (ok: bool)
      requires Valid()
      modifies this
      ensures Valid()
      ensures !enabled ==> events == old(events)
      ensures enabled ==> events == old(events) + Locked(ReadLock, ExistsCall(key, ToU16(|key|)))
      ensures ok <==> enabled && rc > 0
    {
      if !enabled {
        return false;
      }
      var kl := |key|;
      Perform(ReadLock, ExistsCall(key, ToU16(kl)));
      ok := rc > 0;
    }

    /** `CacheSetFlags`: stores `p` under `key` with an expiry and flags,
        under the exclusive lock; false when there is no cache or the store
        fails. Go panics taking `&p[0]` of an empty slice, so a store needs
        a non-empty value. */
    method CacheSetFlags(key: seq<byte>, p: seq<byte>, expires: u64, flags: int, enabled: bool, rc: int)
      returns (ok: bool)
      requires Valid()
      requires enabled ==> |p| > 0
      modifies this
      ensures Valid()
      ensures !enabled ==> events == old(events)
      ensures enabled ==> events == old(events) + Locked(WriteLock, SetCall(key, ToU16(|key|), p, expires, ToU16(flags)))
      ensures ok <==> enabled && rc >= 0
    {
      if !enabled {
        return false;
      }
      var kl := |key|;
      Perform(WriteLock, SetCall(key, ToU16(kl), p, expires, ToU16(flags)));
      ok := rc >= 0;
    }

    /** `CacheSet`: a store with no flags. */
    method CacheSet(key: seq<byte>, p: seq<byte>, expires: u64, enabled: bool, rc: int) returns (ok: bool)
      requires Valid()
      requires enabled ==> |p| > 0
      modifies this
      ensures Valid()
      ensures !enabled ==> events == old(events)
      ensures enabled ==> events == old(events) + Locked(WriteLock, SetCall(key, ToU16(|key|), p, expires, 0))
      ensures ok <==> enabled && rc >= 0
    {
      ok := CacheSetFlags(key, p, expires, 0, enabled, rc);
    }

    /** `CacheUpdate`: a store with flag 2, which lets the server replace
        an existing value. */
    method CacheUpdate(key: seq<byte>, p: seq<byte>, expires: u64, enabled: bool, rc: int) returns (ok: bool)
      requires Valid()
      requires enabled ==> |p| > 0
      modifies this
      ensures Valid()
      ensures !enabled ==> events == old(events)
      ensures enabled ==> events == old(events) + Locked(WriteLock, SetCall(key, ToU16(|key|), p, expires, 2))
      ensures ok <==> enabled && rc >= 0
    {
      ok := CacheSetFlags(key, p, expires, 2, enabled, rc);
    }
  }
}
