# regis: an access-controlled key-value registry, in Dafny

`regis` is a process-wide registry. It is a singleton that holds a dictionary of
items and a set of registered caller classes. Only a registered class may store
(`set_item`) or read (`get_item`) an item. A class is registered with
`register_class` and revoked with `unregister_class`. The repository holds two
versions of the registry:

- `regis/__init__.py`: the `regis` package. `set_item` and `get_item` are wrapped
  by a permission decorator, so the caller's registration is checked **before** the
  key's hashability. Every operation also takes a lock.
- `__init__.py`: the top-level module. `set_item` and `get_item` test the key's
  hashability **before** they call `_check_permissions`. This module also has
  `RegistryMixin`, which a consumer class adopts to reach the shared registry with
  its own class as the caller token.

The project has four modules:

- `RegistryCore` (`registry_core.dfy`) holds the registry's state as a value:
  `State(items, registered)`. It gives every operation as a function whose
  contract states when the call succeeds, which exception it raises otherwise,
  and what the new state is. The order of the checks is a parameter,
  `CheckOrder = PermissionFirst | HashabilityFirst`. A key is `Hashable(h)`,
  `UnhashableType` (its type fails `isinstance(key, Hashable)`), or `HashRaises`
  (its type passes that test but hashing the value raises `TypeError`, as for a
  tuple that holds a list). `Apply` and `Run` replay any sequence of calls, one
  atomic step per call.
- `RegistryLaws` (`registry_laws.dfy`) holds the properties as lemmas:
  idempotent registration; the order of the checks in each version and the one
  case in which the versions differ; the round trip; the missing key; revocation;
  and, over any sequence of calls, "registered iff registered and not unregistered
  since", the permission gate, the frame on untouched items, and commutation of
  calls by independent callers.
- `RegisPackage` (`regis_package.dfy`) and `RootRegistry` (`registry_root.dfy`)
  model the two source files imperatively. Each has a `Registry` class with fields
  `items: map` and `registered: set`, and a `SingletonMeta` class that keeps the
  one instance. Each method is proved against the matching `RegistryCore`
  function. `RootRegistry` also has the `RegistryMixin` class, which holds a
  reference to the shared `Registry`.

Exceptions are the values of `Error`:

- `PermissionDenied` is `PermissionError`.
- `KeyTypeError` is `TypeError` for an unhashable key.
- `KeyMissing` is the dictionary's `KeyError`.
- `NoRegistry` is the `AttributeError` that a mixin instance raises before
  `register_registry()` has set its `registry` attribute.

An unhashable key raises `TypeError`. In `__init__.py` it does so whether or not
the caller is registered (`HashabilityCheckedFirst`). In `regis/__init__.py` an
unregistered caller gets `PermissionError` first (`PermissionCheckedFirst`,
`OrdersDifferOnlyOnUnhashableUnregistered`).

## Model

| member | source | states |
|---|---|---|
| RegistryCore.Register | regis/__init__.py:115-116 | the caller is registered afterwards; no other caller's membership and no item changes |
| RegistryCore.Unregister | regis/__init__.py:136-137 | the caller is absent afterwards (whether or not it was present); no other caller's membership and no item changes |
| RegistryCore.Admit | regis/__init__.py:57-62 | the gate before the dictionary: admits exactly a registered caller with a hashable key, yielding the key; `PermissionError` iff the caller is unregistered and either permission is checked first or the key's type passes the hashability test; otherwise `TypeError` |
| RegistryCore.SetItem | regis/__init__.py:164-166 | succeeds iff the caller is registered and the key hashable, and then only the entry under the key changes, to the item; on failure the state is unchanged and the error is the gate's |
| RegistryCore.GetItem | regis/__init__.py:189-191 | returns the stored item iff the caller is registered, the key hashable and present; `KeyError` iff the gate admits and the key is absent; every other error is the gate's |
| RegistryCore.Apply | regis/__init__.py:143-191 | a call that raises leaves the state unchanged; `get_item` never changes it; only `set_item` changes the items; only register/unregister change the registered set |
| RegistryLaws.RegisterIdempotent | regis/__init__.py:102-120 | registering twice equals registering once; registering a present caller changes nothing |
| RegistryLaws.UnregisterIdempotent | regis/__init__.py:122-141 | unregistering an absent caller changes nothing (`discard`); unregistering twice equals once |
| RegistryLaws.RegisterThenUnregister | __init__.py:22-28 | registering then unregistering a caller that was absent restores the state |
| RegistryLaws.PermissionCheckedFirst | regis/__init__.py:143-145 | in the package version an unregistered caller gets `PermissionError` for every key, unhashable ones included, and the state is unchanged |
| RegistryLaws.HashabilityCheckedFirst | __init__.py:37-39 | in the top-level version a key whose type is unhashable gets `TypeError` from both `set_item` and `get_item`, registered or not, and the state is unchanged |
| RegistryLaws.HashableTypeUnregisteredDenied | __init__.py:30-40 | in the top-level version a key whose type passes the test, with an unregistered caller, gets `PermissionError` and the items are unchanged |
| RegistryLaws.RegisteredUnhashableKeyRejected | regis/__init__.py:164-165 | under either order a registered caller with an unhashable key gets `TypeError` from both calls and the state is unchanged |
| RegistryLaws.OrdersDifferOnlyOnUnhashableUnregistered | __init__.py:35-47 | the two versions give the same new state and answer for every call except an unregistered caller with a key whose type is unhashable |
| RegistryLaws.SetThenGet | regis/__init__.py:156-166 | a registered caller's `set_item(c, k, v)` then `get_item(c, k)` returns `v`; the keys grow by `k` only, other entries and the registered set are unchanged |
| RegistryLaws.GetMissingKey | regis/__init__.py:191 | a registered caller reading a key never stored gets `KeyError` |
| RegistryLaws.RevokedCallerKeepsNoAccess | regis/__init__.py:136-137 | after a store then `unregister_class`, the item is still stored but the caller's `get_item` raises `PermissionError` |
| RegistryLaws.RegisteredIffGranted | regis/__init__.py:102-141 | after any sequence of calls, a caller is registered iff some `register_class` of it is not followed by an `unregister_class` of it, or it started registered and was never unregistered |
| RegistryLaws.NeverRegisteredAlwaysDenied | regis/__init__.py:57-61 | a caller that starts unregistered and is never registered stays unregistered through any sequence of calls, and each of its `set_item`/`get_item` calls raises `PermissionError` (under the key-first order, once the key's type passes the test) |
| RegistryLaws.UntouchedKeyPreserved | regis/__init__.py:166 | an entry that no call sets keeps its presence and value through any sequence of calls |
| RegistryLaws.StoredValueSurvives | regis/__init__.py:166-191 | a stored value is read back by its still-registered caller after any calls that do not store under the same key |
| RegistryLaws.IndependentStepsCommute | regis/__init__.py:41-44 | with every call atomic, two calls by different callers on different keys give the same final state and the same answers in either order |
| RegisPackage.SingletonMeta.constructor | regis/__init__.py:77 | the class-level `_instances` map starts empty: no registry has been built yet |
| RegisPackage.SingletonMeta.Call | regis/__init__.py:79-83 | the first call builds an empty registry; every later call returns the same object |
| RegisPackage.Registry.constructor | regis/__init__.py:97-100 | a new registry has no items and no registered classes |
| RegisPackage.Registry.RegisterClass | regis/__init__.py:102-120 | the new state is `Register` of the old |
| RegisPackage.Registry.UnregisterClass | regis/__init__.py:122-141 | the new state is `Unregister` of the old |
| RegisPackage.Registry.SetItem | regis/__init__.py:143-166 | the new state and the answer are those of `SetItem` with permission checked first |
| RegisPackage.Registry.GetItem | regis/__init__.py:168-191 | the answer is that of `GetItem` with permission checked first, and nothing changes |
| RegisPackage.DocumentedRoundTrip | regis/__init__.py:156-162 | registering a class, storing an item and reading it back returns the item; the class joins the set and only that entry changes |
| RootRegistry.SingletonMeta.constructor | __init__.py:7 | the class-level `_instances` map starts empty: no registry has been built yet |
| RootRegistry.SingletonMeta.Call | __init__.py:9-13 | the first call builds an empty registry; every later call returns the same object |
| RootRegistry.Registry.constructor | __init__.py:18-20 | a new registry has no items and no registered classes |
| RootRegistry.Registry.RegisterClass | __init__.py:22-24 | the new state is `Register` of the old |
| RootRegistry.Registry.UnregisterClass | __init__.py:26-28 | the new state is `Unregister` of the old |
| RootRegistry.Registry.CheckPermissions | __init__.py:30-33 | passes iff the caller is registered, and otherwise raises `PermissionError` |
| RootRegistry.Registry.SetItem | __init__.py:35-40 | the new state and the answer are those of `SetItem` with the key tested first |
| RootRegistry.Registry.GetItem | __init__.py:42-47 | the answer is that of `GetItem` with the key tested first, and nothing changes |
| RootRegistry.SameInstance | __init__.py:9-13 | two acquisitions of the registry return the same object, so an item stored through the first is read through the second |
| RootRegistry.RegistryMixin.constructor | __init__.py:49-50 | a new consumer has its class as token and no `registry` attribute yet |
| RootRegistry.RegistryMixin.RegisterRegistry | __init__.py:52-55 | the consumer's `registry` is the singleton (built empty if it did not exist yet), and its class is registered there with nothing else changed |
| RootRegistry.RegistryMixin.UnregisterRegistry | __init__.py:57-59 | revokes the consumer's class; `AttributeError` before `register_registry` |
| RootRegistry.RegistryMixin.SetItem | __init__.py:61-63 | the registry's `set_item` with the consumer's class as caller; `AttributeError` before `register_registry` |
| RootRegistry.RegistryMixin.GetItem | __init__.py:65-67 | the registry's `get_item` with the consumer's class as caller; `AttributeError` before `register_registry` |
| RootRegistry.MixinRoundTrip | __init__.py:52-67 | after `register_registry()`, `set_item(k, v)` then `get_item(k)` returns `v`, and the consumer's class is registered |
| RootRegistry.MixinRevocation | __init__.py:57-67 | after `register_registry()` then `unregister_registry()`, the class is absent and `set_item`/`get_item` raise `PermissionError` for a key whose type passes the test; stored items stay |
| RootRegistry.MixinsShareRegistry | __init__.py:52-55 | two consumers share one registry: what one stores the other reads |

## Left out

- The lock and the `_threaded_safe` decorator (`regis/__init__.py:31-45`, `:100`) give mutual exclusion only. The model treats each call as one atomic step. `IndependentStepsCommute` is the model's statement about interleaving.
- `RootRegistry.Registry.SetItem`, `RootRegistry.Registry.GetItem`, `RootRegistry.Registry.RegisterClass`, `RootRegistry.Registry.UnregisterClass`, and `Apply`/`Run` under `HashabilityFirst`: modelled as atomic, although `__init__.py:22-47` takes no lock. Two races are therefore not captured. First, a `set_item` can pass `_check_permissions` (`:39`), another thread's `unregister_class` (`:28`) can then run, and the store (`:40`) still happens, leaving an unregistered caller's item stored. Second, the same split applies to `get_item` between `:46` and `:47`.
- `RegisPackage.SingletonMeta.Call` and `RootRegistry.SingletonMeta.Call`: modelled as atomic, although `SingletonMeta.__call__` takes no lock in either file (`regis/__init__.py:79-83`, `__init__.py:9-13`). Two threads making the first `Registry()` call at once can each build a registry, and one of the two is then lost. The model does not capture this race.
- Weak references are not modelled. `WeakSet` and `WeakKeyDictionary` drop an entry when its object is garbage-collected, and that cannot be expressed here. Plain sets and references are used.
- Failures of the `WeakSet` itself are not modelled. `add` and `discard` raise when the caller cannot be weakly referenced or is not hashable. In `regis/__init__.py:117-120` and `:138-141` that is wrapped as `RegistrationError`. In `__init__.py:24` and `:28` it propagates as a plain `TypeError`. Both depend on the runtime nature of the caller object, which the opaque caller type does not carry. For the same reason, the model leaves out that such a caller is never found in the set by the permission check.
- Logging is not modelled.
- The mixin in `regis/__init__.py:193-282` is not modelled. Its `set_item` unregisters the class. Its `get_item` stores an undefined name. Its `unregister` and `__del__` use an attribute that does not exist. None of this is a behaviour to state a contract for. The mixin of `__init__.py` is modelled instead.
- `tests.py` expects a `PermissionError` from a consumer that never registered. With the modelled mixin, that call raises `AttributeError` (`NoRegistry`), because `registry` is set only by `register_registry`.
- The missing `Any` import in `regis/__init__.py` is not modelled. It fails at import time and has nothing to do with the registry's logic.
- `SingletonMeta._instances` maps each class to its instance. Only `Registry` uses the metaclass, so each `SingletonMeta` object keeps a single `instance`. Python object identity is modelled as Dafny reference equality.
- Caller tokens, keys and items are opaque type parameters. The `h` of a `Hashable(h)` key stands for the key up to Python's `==`: two keys that compare equal are one dictionary entry, and two keys that do not compare equal are two entries, even if their hashes collide.
- The process-wide singleton is a `SingletonMeta` object that callers pass in, not a global. Nothing in the model stops a client from passing two different `SingletonMeta` objects and so getting two registries. "At most one registry per process" is therefore not expressed. What is expressed is that every call through one `SingletonMeta` yields the same registry (`SingletonMeta.Call`, `SameInstance`).
