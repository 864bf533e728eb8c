/**
  The top-level registry module: a singleton `Registry` whose `set_item` and
  `get_item` test the key's hashability before the caller's permission, and
  `RegistryMixin`, which a consumer class adopts to reach the shared registry
  with its own class as the caller token.
 */
module RootRegistry {
  import opened RegistryCore

  /** `SingletonMeta`: remembers the one `Registry` built through it. */
  class SingletonMeta<C(==), H(==), V> {
    var instance: Registry?<C, H, V>

    constructor ()
      ensures instance == null
    {
      instance := null;
    }

    /** `Registry()`: builds the registry on the first call and hands back the
        same one on every later call. */
    method Call() returns (r: Registry<C, H, V>)
      modifies this
      ensures instance == r
      ensures old(instance) != null ==> r == old(instance)
      ensures old(instance) == null ==> fresh(r) && r.View() == State(map[], {})
    {
      if instance == null {
        instance := new Registry();
      }
      r := instance;
    }
  }

  /** `Registry`: the dictionary `_items` and the set `_registered_classes`. */
  class Registry<C(==), H(==), V> {
    var items: map<H, V>
    var registered: set<C>

    /** The registry's state as a value. */
    function View(): State<C, H, V>
      reads this
    {
      State(items, registered)
    }

    constructor ()
      ensures View() == State(map[], {})
    {
      items := map[];
      registered := {};
    }

    /** `register_class`: grants `c` access; registering again is harmless. */
    method RegisterClass(c: C)
      modifies this
      ensures View() == Register(old(View()), c)
    {
      registered := registered + {c};
    }

    /** `unregister_class`: revokes `c`'s access; unregistering an absent caller
        is harmless. */
    method UnregisterClass(c: C)
      modifies this
      ensures View() == Unregister(old(View()), c)
    {
      registered := registered - {c};
    }

    /** `_check_permissions`: raises `PermissionError` exactly when `c` is not registered. */
    method CheckPermissions(c: C) returns (r: Result<()>)
      ensures r.Ok? <==> c in registered
      ensures r.Err? ==> r.error == PermissionDenied
    {
      if c !in registered {
        return Err(PermissionDenied);
      }
      r := Ok(());
    }

    /** `set_item`: the key test first, then the permission check, then the
        dictionary store (which hashes the key). */
    method SetItem(c: C, k: Key<H>, v: V) returns (r: Result<()>)
      modifies this
      ensures (View(), r) == RegistryCore.SetItem(HashabilityFirst, old(View()), c, k, v)
    {
      if k.UnhashableType? {
        return Err(KeyTypeError);
      }
      r := CheckPermissions(c);
      if r.Err? {
        return;
      }
      if k.HashRaises? {
        return Err(KeyTypeError);
      }
      items := items[k.h := v];
      r := Ok(());
    }

    /** `get_item`: the key test first, then the permission check, then the
        dictionary lookup, which raises `KeyError` on a missing key. */
    method GetItem(c: C, k: Key<H>) returns (r: Result<V>)
      ensures r == RegistryCore.GetItem(HashabilityFirst, View(), c, k)
    {
      if k.UnhashableType? {
        return Err(KeyTypeError);
      }
      var permitted := CheckPermissions(c);
      if permitted.Err? {
        return Err(permitted.error);
      }
      if k.HashRaises? {
        return Err(KeyTypeError);
      }
      if k.h !in items {
        return Err(KeyMissing);
      }
      r := Ok(items[k.h]);
    }
  }

  /** Two acquisitions of the registry give the same object, so what is stored
      through the first handle is read through the second. */
  method SameInstance<C(==), H(==), V>(meta: SingletonMeta<C, H, V>, c: C, h: H, v: V)
    returns (first: Registry<C, H, V>, second: Registry<C, H, V>, got: Result<V>)
    modifies meta, meta.instance
    ensures first == second == meta.instance
    ensures got == Ok(v)
  {
    first := meta.Call();
    first.RegisterClass(c);
    var stored := first.SetItem(c, Hashable(h), v);
    second := meta.Call();
    got := second.GetItem(c, Hashable(h));
  }

  /** `RegistryMixin`: proxies the registry for a consumer, with the consumer's
      class as the caller token. `registry` stays null until `register_registry`
      sets the `registry` attribute; until then every other call raises
      `AttributeError`. */
  class RegistryMixin<C(==), H(==), V> {
    const cls: C
    var registry: Registry?<C, H, V>

    constructor (cls: C)
      ensures this.cls == cls && registry == null
    {
      this.cls := cls;
      registry := null;
    }

    /** `register_registry`: acquires the singleton and registers this class with it. */
    method RegisterRegistry(meta: SingletonMeta<C, H, V>)
      modifies this, meta, meta.instance
      ensures registry != null && registry == meta.instance
      ensures old(meta.instance) != null ==>
                registry == old(meta.instance) && registry.View() == Register(old(meta.instance.View()), cls)
      ensures old(meta.instance) == null ==>
                fresh(registry) && registry.View() == State(map[], {cls})
    {
      var r := meta.Call();
      registry := r;
      r.RegisterClass(cls);
    }

    /** `unregister_registry`: revokes this class's access. */
    method UnregisterRegistry() returns (r: Result<()>)
      modifies registry
      ensures registry == null ==> r == Err(NoRegistry)
      ensures registry != null ==> r == Ok(()) && registry.View() == Unregister(old(registry.View()), cls)
    {
      if registry == null {
        return Err(NoRegistry);
      }
      registry.UnregisterClass(cls);
      r := Ok(());
    }

    /** `set_item`: stores through the registry on behalf of this class. */
    method SetItem(k: Key<H>, v: V) returns (r: Result<()>)
      modifies registry
      ensures registry == null ==> r == Err(NoRegistry)
      ensures registry != null ==>
                (registry.View(), r) == RegistryCore.SetItem(HashabilityFirst, old(registry.View()), cls, k, v)
    {
      if registry == null {
        return Err(NoRegistry);
      }
      r := registry.SetItem(cls, k, v);
    }

    /** `get_item`: reads through the registry on behalf of this class. */
    method GetItem(k: Key<H>) returns (r: Result<V>)
      ensures registry == null ==> r == Err(NoRegistry)
      ensures registry != null ==> r == RegistryCore.GetItem(HashabilityFirst, registry.View(), cls, k)
    {
      if registry == null {
        return Err(NoRegistry);
      }
      r := registry.GetItem(cls, k);
    }
  }

  /** After `register_registry()`, `set_item(k, v)` followed by `get_item(k)` on
      the consumer returns `v`, and the consumer's class is the registered token. */
  method MixinRoundTrip<C(==), H(==), V>(m: RegistryMixin<C, H, V>, meta: SingletonMeta<C, H, V>, h: H, v: V)
    returns (stored: Result<()>, got: Result<V>)
    modifies m, meta, meta.instance
    ensures m.registry != null && m.cls in m.registry.registered
    ensures stored == Ok(()) && got == Ok(v)
  {
    m.RegisterRegistry(meta);
    stored := m.SetItem(Hashable(h), v);
    got := m.GetItem(Hashable(h));
  }

  /** After `register_registry()` then `unregister_registry()`, the consumer's
      class is no longer registered and its `set_item`/`get_item` raise
      `PermissionError` (for a key whose type passes the hashability test),
      while the items already stored stay where they were. */
  method MixinRevocation<C(==), H(==), V>(m: RegistryMixin<C, H, V>, meta: SingletonMeta<C, H, V>, k: Key<H>, v: V)
    returns (stored: Result<()>, got: Result<V>)
    requires !k.UnhashableType?
    modifies m, meta, meta.instance
    ensures m.registry != null && m.cls !in m.registry.registered
    ensures stored == Err(PermissionDenied) && got == Err(PermissionDenied)
    ensures old(meta.instance) != null ==> m.registry.items == old(meta.instance.items)
  {
    m.RegisterRegistry(meta);
    var revoked := m.UnregisterRegistry();
    stored := m.SetItem(k, v);
    got := m.GetItem(k);
  }

  /** Two consumers share the one registry: what one stores, the other reads,
      once both are registered. */
  method MixinsShareRegistry<C(==), H(==), V>(a: RegistryMixin<C, H, V>, b: RegistryMixin<C, H, V>,
                                             meta: SingletonMeta<C, H, V>, h: H, v: V)
    returns (got: Result<V>)
    modifies a, b, meta, meta.instance
    ensures a.registry == b.registry
    ensures got == Ok(v)
  {
    a.RegisterRegistry(meta);
    b.RegisterRegistry(meta);
    var stored := a.SetItem(Hashable(h), v);
    got := b.GetItem(Hashable(h));
  }
}
