/** The request environment the Go binding builds for each request: a
    `map[string]string` the C side fills one variable at a time, kept
    reachable from a registry keyed by the request so that Go's collector
    does not free it while C still points at it. */
module GoEnv {
  import opened Bytes

  /** One request environment. Keys and values are Go strings, that is
      byte strings. */
  class Env {
    var vars: map<seq<byte>, seq<byte>>

    constructor ()
      ensures vars == map[]
    {
      vars := map[];
    }
  }

  /** `uwsgi_go_helper_env_add`: the first `kl` bytes of `k` become the key
      and the first `vl` bytes of `v` its value; a key already present gets
      the new value. */
  method EnvAdd(env: Env, k: seq<byte>, kl: int, v: seq<byte>, vl: int)
    requires 0 <= kl <= |k| && 0 <= vl <= |v|
    modifies env
    ensures env.vars == old(env.vars)[k[..kl] := v[..vl]]
  {
    var mk := k[..kl];
    var mv := v[..vl];
    env.vars := env.vars[mk := mv];
  }

  /** The `uwsgi_env_gc` map from requests (identified by a number standing
      for the `wsgi_request` address) to their environments. */
  class EnvRegistry {
    var gc: map<nat, Env>

    constructor ()
      ensures gc == map[]
    {
      gc := map[];
    }

    /** `uwsgi_go_helper_env_new`: a fresh empty environment, recorded
        under the request (replacing any earlier one for it). */
    method EnvNew(req: nat) returns (env: Env)
      modifies this
      ensures fresh(env) && env.vars == map[]
      ensures gc == old(gc)[req := env]
    {
      env := new Env();
      gc := gc[req := env];
    }
  }

  /** The environment a run of `EnvAdd` calls builds from an empty map,
      one (key, value) pair per call, in call order. */
  function EnvOf(pairs: seq<(seq<byte>, seq<byte>)>): map<seq<byte>, seq<byte>>
  {
    if pairs == [] then map[]
    else EnvOf(pairs[..|pairs| - 1])[pairs[|pairs| - 1].0 := pairs[|pairs| - 1].1]
  }

  /** Reference reading: the position of the last pair with key `key`, or
      -1 when no pair has it. */
  function LastWith(pairs: seq<(seq<byte>, seq<byte>)>, key: seq<byte>): (r: int)
    ensures -1 <= r < |pairs|
    ensures r == -1 ==> forall i :: 0 <= i < |pairs| ==> pairs[i].0 != key
    ensures r >= 0 ==> pairs[r].0 == key && forall j :: r < j < |pairs| ==> pairs[j].0 != key
  {
    if pairs == [] then -1
    else if pairs[|pairs| - 1].0 == key then |pairs| - 1
    else LastWith(pairs[..|pairs| - 1], key)
  }

  /** Last write wins: a key is in the built environment exactly when some
      call added it, and its value is the one the latest such call gave. */
  lemma {:induction false} EnvOfLastWins(pairs: seq<(seq<byte>, seq<byte>)>, key: seq<byte>)
    ensures key in EnvOf(pairs) <==> LastWith(pairs, key) >= 0
    ensures key in EnvOf(pairs) ==> EnvOf(pairs)[key] == pairs[LastWith(pairs, key)].1
  {
    if pairs != [] {
      EnvOfLastWins(pairs[..|pairs| - 1], key);
    }
  }

  /** Each `EnvAdd` call extends the built environment by its pair. */
  lemma EnvAddBuilds(pairs: seq<(seq<byte>, seq<byte>)>, k: seq<byte>, kl: nat, v: seq<byte>, vl: nat)
    requires kl <= |k| && vl <= |v|
    ensures EnvOf(pairs)[k[..kl] := v[..vl]] == EnvOf(pairs + [(k[..kl], v[..vl])])
  {
    assert (pairs + [(k[..kl], v[..vl])])[..|pairs|] == pairs;
  }
}
