/** Values as the adapters hand them round, and the outcome types shared by every component. */
module Outcomes {
  datatype Option<+T> = None | Some(value: T)

  /** A settled promise: a value, or a rejection whose message is not modelled. */
  datatype Reply<+T> = Ok(value: T) | Thrown

  /** A JavaScript value that may be missing. */
  datatype Js<+V> = Undefined | Null | Val(v: V)
}

/**
 * A storage adapter: a mutable key/value store whose operations may fail, that
 * may rewrite a value when it stores it, and that lists its keys in any order.
 */
module Adapter {
  import opened Outcomes

  /** What a fault does to the operation it hits: the operation throws without, or after, its effect. */
  datatype Fault = Fine | ThrowBefore | ThrowAfter

  /** The behaviour of one backend; the n-th operation on it meets faults(n). */
  datatype Backend<!V> = Backend(
    canon: V -> V,
    faults: nat -> Fault,
    list: (nat, set<string>) -> seq<string>)

  datatype Contents<+V> = Contents(data: map<string, Js<V>>, clock: nat)

  ghost predicate Reliable<V>(b: Backend<V>) {
    forall n :: b.faults(n) == Fine
  }

  ghost predicate NoDuplicates(keys: seq<string>) {
    forall i, j :: 0 <= i < j < |keys| ==> keys[i] != keys[j]
  }

  /** keys() names each stored key once. */
  ghost predicate ListsOnce<V>(b: Backend<V>) {
    forall n, ks :: NoDuplicates(b.list(n, ks)) && (forall k :: k in b.list(n, ks) <==> k in ks)
  }

  function Canonical<V>(b: Backend<V>, x: Js<V>): Js<V> {
    if x.Val? then Val(b.canon(x.v)) else x
  }

  function Tick<V>(c: Contents<V>): Contents<V> {
    c.(clock := c.clock + 1)
  }

  function KeysOp<V>(b: Backend<V>, c: Contents<V>, prefix: string): (Reply<seq<string>>, Contents<V>) {
    (if b.faults(c.clock).Fine? then Ok(b.list(c.clock, set k | k in c.data && prefix <= k)) else Thrown, Tick(c))
  }

  function Held<V>(c: Contents<V>, key: string): Js<V> {
    if key in c.data then c.data[key] else Null
  }

  function GetOp<V>(b: Backend<V>, c: Contents<V>, key: string): (Reply<Js<V>>, Contents<V>) {
    (if b.faults(c.clock).Fine? then Ok(Held(c, key)) else Thrown, Tick(c))
  }

  function HasOp<V>(b: Backend<V>, c: Contents<V>, key: string): (Reply<bool>, Contents<V>) {
    (if b.faults(c.clock).Fine? then Ok(key in c.data) else Thrown, Tick(c))
  }

  function SetOp<V>(b: Backend<V>, c: Contents<V>, key: string, x: Js<V>): (bool, Contents<V>) {
    var fault := b.faults(c.clock);
    (fault.Fine?, Contents(if fault.ThrowBefore? then c.data else c.data[key := Canonical(b, x)], c.clock + 1))
  }

  function DeleteOp<V>(b: Backend<V>, c: Contents<V>, key: string): (bool, Contents<V>) {
    var fault := b.faults(c.clock);
    (fault.Fine?, Contents(if fault.ThrowBefore? then c.data else c.data - {key}, c.clock + 1))
  }

  class StorageAdapter<!V> {
    const backend: Backend<V>
    var data: map<string, Js<V>>
    var clock: nat

    constructor (backend: Backend<V>)
      ensures this.backend == backend && State() == Contents(map[], 0)
    {
      this.backend := backend;
      this.data := map[];
      this.clock := 0;
    }

    function State(): Contents<V>
      reads this
    {
      Contents(data, clock)
    }

    method Keys(prefix: string) returns (r: Reply<seq<string>>)
      modifies this
      ensures (r, State()) == KeysOp(backend, old(State()), prefix)
    {
      r := if backend.faults(clock).Fine?
           then Ok(backend.list(clock, set k | k in data && prefix <= k)) else Thrown;
      clock := clock + 1;
    }

    method Get(key: string) returns (r: Reply<Js<V>>)
      modifies this
      ensures (r, State()) == GetOp(backend, old(State()), key)
    {
      r := if backend.faults(clock).Fine? then Ok(if key in data then data[key] else Null) else Thrown;
      clock := clock + 1;
    }

    method Has(key: string) returns (r: Reply<bool>)
      modifies this
      ensures (r, State()) == HasOp(backend, old(State()), key)
    {
      r := if backend.faults(clock).Fine? then Ok(key in data) else Thrown;
      clock := clock + 1;
    }

    method Set(key: string, x: Js<V>) returns (ok: bool)
      modifies this
      ensures (ok, State()) == SetOp(backend, old(State()), key, x)
    {
      var fault := backend.faults(clock);
      ok := fault.Fine?;
      if !fault.ThrowBefore? {
        data := data[key := Canonical(backend, x)];
      }
      clock := clock + 1;
    }

    method Delete(key: string) returns (ok: bool)
      modifies this
      ensures (ok, State()) == DeleteOp(backend, old(State()), key)
    {
      var fault := backend.faults(clock);
      ok := fault.Fine?;
      if !fault.ThrowBefore? {
        data := data - {key};
      }
      clock := clock + 1;
    }
  }
}
