/**
  The state and the operations of the access-controlled registry, as values.

  Both versions of the registry keep a dictionary of items and a set of
  registered caller classes; they differ only in whether the caller's permission
  or the key's hashability is checked first. Every operation here is one atomic
  step (the source serialises them behind a lock), and a step that raises leaves
  the state as it was.
 */
module RegistryCore {

  /** A key as the registry sees it. Python decides hashability in two places:
      `isinstance(key, Hashable)` looks only at the key's type, and the
      dictionary access hashes the value itself, which can still raise
      `TypeError` (a tuple holding a list passes the first test and fails the second). */
  datatype Key<H> =
    | Hashable(h: H)     // hashable; `h` is the key up to Python's `==`
    | UnhashableType     // the type declares no hash: `isinstance(key, Hashable)` is false
    | HashRaises         // the type declares a hash, but hashing this value raises `TypeError`

  /** The exceptions an operation can raise. */
  datatype Error =
    | PermissionDenied   // `PermissionError`: the caller is not registered
    | KeyTypeError       // `TypeError`: the key is not hashable
    | KeyMissing         // `KeyError`: no item is stored under the key
    | NoRegistry         // `AttributeError`: a mixin instance used before `register_registry()`

  datatype Result<T> = Ok(value: T) | Err(error: Error)

  /** What a successful step hands back: `None` or a stored item. */
  datatype Reply<V> = Nothing | Item(item: V)

  /** Which check runs first on `set_item` and `get_item`. */
  datatype CheckOrder =
    | PermissionFirst    // the permission decorator wraps the body (regis/__init__.py)
    | HashabilityFirst   // the body tests the key before checking permission (__init__.py)

  /** `_items` and `_registered_classes`. */
  datatype State<C, H, V> = State(items: map<H, V>, registered: set<C>)

  /** `register_class`: `_registered_classes.add(caller)`. */
  function Register<C, H, V>(s: State<C, H, V>, c: C): (t: State<C, H, V>)
    ensures c in t.registered
    ensures t.registered - {c} == s.registered - {c}   // no other caller changes
    ensures t.items == s.items
  {
    s.(registered := s.registered + {c})
  }

  /** `unregister_class`: `_registered_classes.discard(caller)`, which does not
      complain when the caller is absent. */
  function Unregister<C, H, V>(s: State<C, H, V>, c: C): (t: State<C, H, V>)
    ensures c !in t.registered
    ensures t.registered - {c} == s.registered - {c}   // no other caller changes
    ensures t.items == s.items
  {
    s.(registered := s.registered - {c})
  }

  /** The checks `set_item` and `get_item` make before touching the dictionary:
      the permission test (`caller not in self._registered_classes`), the
      `isinstance(key, Hashable)` test, in the order given, and the hashing that
      the dictionary access performs last. Yields the key on success. */
  function Admit<C, H>(order: CheckOrder, registered: set<C>, c: C, k: Key<H>): (r: Result<H>)
    ensures r.Ok? <==> c in registered && k.Hashable?
    ensures r.Ok? ==> r.value == k.h
    ensures r == Err(PermissionDenied) <==>
              c !in registered && (order == PermissionFirst || !k.UnhashableType?)
    ensures r.Err? ==> r.error in {PermissionDenied, KeyTypeError}
  {
    match order
    case PermissionFirst =>
      if c !in registered then Err(PermissionDenied)
      else if k.UnhashableType? then Err(KeyTypeError)
      else if k.HashRaises? then Err(KeyTypeError)
      else Ok(k.h)
    case HashabilityFirst =>
      if k.UnhashableType? then Err(KeyTypeError)
      else if c !in registered then Err(PermissionDenied)
      else if k.HashRaises? then Err(KeyTypeError)
      else Ok(k.h)
  }

  /** `set_item(caller, key, item)`: stores `item` under the key once admitted;
      on any error the state is unchanged. */
  function SetItem<C, H, V>(order: CheckOrder, s: State<C, H, V>, c: C, k: Key<H>, v: V)
    : (p: (State<C, H, V>, Result<()>))
    ensures p.1.Ok? <==> c in s.registered && k.Hashable?
    ensures p.1.Ok? ==> p.0 == s.(items := s.items[k.h := v])
    ensures p.1.Err? ==> p.0 == s && p.1.error == Admit(order, s.registered, c, k).error
  {
    match Admit(order, s.registered, c, k)
    case Ok(h) => (s.(items := s.items[h := v]), Ok(()))
    case Err(e) => (s, Err(e))
  }

  /** `get_item(caller, key)`: the item stored under the key once admitted, or
      `KeyMissing` when the dictionary has no entry for it. */
  function GetItem<C, H, V>(order: CheckOrder, s: State<C, H, V>, c: C, k: Key<H>): (r: Result<V>)
    ensures r.Ok? <==> c in s.registered && k.Hashable? && k.h in s.items
    ensures r.Ok? ==> r.value == s.items[k.h]
    ensures r == Err(KeyMissing) <==> Admit(order, s.registered, c, k).Ok? && k.h !in s.items
    ensures r.Err? && r.error != KeyMissing ==> r.error == Admit(order, s.registered, c, k).error
  {
    match Admit(order, s.registered, c, k)
    case Ok(h) => if h in s.items then Ok(s.items[h]) else Err(KeyMissing)
    case Err(e) => Err(e)
  }

  /** One call on the registry, as issued by some thread. */
  datatype Op<C, H, V> =
    | RegisterOp(caller: C)
    | UnregisterOp(caller: C)
    | SetOp(caller: C, key: Key<H>, item: V)
    | GetOp(caller: C, key: Key<H>)

  /** One atomic step: the new state and what the call returned or raised. */
  function Apply<C, H, V>(order: CheckOrder, s: State<C, H, V>, op: Op<C, H, V>)
    : (p: (State<C, H, V>, Result<Reply<V>>))
    ensures p.1.Err? ==> p.0 == s
    ensures op.GetOp? ==> p.0 == s
    ensures !op.SetOp? ==> p.0.items == s.items
    ensures p.0.registered == s.registered || op.RegisterOp? || op.UnregisterOp?
  {
    match op
    case RegisterOp(c) => (Register(s, c), Ok(Nothing))
    case UnregisterOp(c) => (Unregister(s, c), Ok(Nothing))
    case SetOp(c, k, v) =>
      var (t, r) := SetItem(order, s, c, k, v);
      (t, if r.Ok? then Ok(Nothing) else Err(r.error))
    case GetOp(c, k) =>
      var r := GetItem(order, s, c, k);
      (s, if r.Ok? then Ok(Item(r.value)) else Err(r.error))
  }

  /** The state after a sequence of atomic steps, taken in order. */
  function Run<C, H, V>(order: CheckOrder, s: State<C, H, V>, ops: seq<Op<C, H, V>>): (t: State<C, H, V>)
    decreases |ops|
  {
    if ops == [] then s
    else Apply(order, Run(order, s, ops[..|ops| - 1]), ops[|ops| - 1]).0
  }
}
