/**
  The registry of the `regis` package: a singleton whose `set_item` and
  `get_item` are wrapped by a permission-checking decorator, so the caller's
  registration is checked before the key's hashability.

  The lock taken by every operation is not modelled: each method is one atomic
  step. The mixin of this package is not modelled (see the README).
 */
module RegisPackage {
  import opened RegistryCore

  /** `SingletonMeta`: remembers the one `Registry` built through it. */
  class SingletonMeta<C(==), H(==), V> {
    var instance: Registry?<C, H, V>

    constructor ()
      ensures instance == null
    {
      instance := null;
    }

    /** `Registry()`: builds the registry on the first call and hands back the
        same one on every later call. */
    method Call() returns (r: Registry<C, H, V>)
      modifies this
      ensures instance == r
      ensures old(instance) != null ==> r == old(instance)
      ensures old(instance) == null ==> fresh(r) && r.View() == State(map[], {})
    {
      if instance == null {
        instance := new Registry();
      }
      r := instance;
    }
  }

  /** `Registry`: the dictionary `_items` and the set `_registered_classes`. */
  class Registry<C(==), H(==), V> {
    var items: map<H, V>
    var registered: set<C>

    /** The registry's state as a value. */
    function View(): State<C, H, V>
      reads this
    {
      State(items, registered)
    }

    constructor ()
      ensures View() == State(map[], {})
    {
      items := map[];
      registered := {};
    }

    /** `register_class`: grants `c` access; registering again is harmless. */
    method RegisterClass(c: C)
      modifies this
      ensures View() == Register(old(View()), c)
    {
      registered := registered + {c};
    }

    /** `unregister_class`: revokes `c`'s access; unregistering an absent caller
        is harmless. */
    method UnregisterClass(c: C)
      modifies this
      ensures View() == Unregister(old(View()), c)
    {
      registered := registered - {c};
    }

    /** `set_item`: the permission decorator runs first, then the key test,
        then the dictionary store (which hashes the key). */
    method SetItem(c: C, k: Key<H>, v: V) returns (r: Result<()>)
      modifies this
      ensures (View(), r) == RegistryCore.SetItem(PermissionFirst, old(View()), c, k, v)
    {
      if c !in registered {
        return Err(PermissionDenied);
      }
      if k.UnhashableType? {
        return Err(KeyTypeError);
      }
      if k.HashRaises? {
        return Err(KeyTypeError);
      }
      items := items[k.h := v];
      r := Ok(());
    }

    /** `get_item`: the permission decorator runs first, then the key test,
        then the dictionary lookup, which raises `KeyError` on a missing key. */
    method GetItem(c: C, k: Key<H>) returns (r: Result<V>)
      ensures r == RegistryCore.GetItem(PermissionFirst, View(), c, k)
    {
      if c !in registered {
        return Err(PermissionDenied);
      }
      if k.UnhashableType? {
        return Err(KeyTypeError);
      }
      if k.HashRaises? {
        return Err(KeyTypeError);
      }
      if k.h !in items {
        return Err(KeyMissing);
      }
      r := Ok(items[k.h]);
    }
  }

  /** The round trip shown in `set_item`'s documentation: register a class, store
      an item for it, and read the same item back. */
  method DocumentedRoundTrip<C(==), H(==), V>(registry: Registry<C, H, V>, c: C, h: H, v: V) returns (got: Result<V>)
    modifies registry
    ensures got == Ok(v)
    ensures registry.registered == old(registry.registered) + {c}
    ensures registry.items == old(registry.items)[h := v]
  {
    registry.RegisterClass(c);
    var stored := registry.SetItem(c, Hashable(h), v);
    got := registry.GetItem(c, Hashable(h));
  }
}
