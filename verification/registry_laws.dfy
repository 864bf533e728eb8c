/**
  Properties of the registry's operations: what each call promises on its own,
  how calls combine, and the invariants that hold over any sequence of calls.
 */
module RegistryLaws {
  import opened RegistryCore

  // ---------------------------------------------------------------------------
  // Registration

  /** Registering twice is registering once, and registering a caller that is
      already present changes nothing and does not fail. */
  lemma RegisterIdempotent<C, H, V>(s: State<C, H, V>, c: C)
    ensures Register(Register(s, c), c) == Register(s, c)
    ensures c in s.registered ==> Register(s, c) == s
  {
  }

  /** Unregistering a caller that is absent changes nothing (`discard`), so
      unregistering twice is unregistering once. */
  lemma UnregisterIdempotent<C, H, V>(s: State<C, H, V>, c: C)
    ensures c !in s.registered ==> Unregister(s, c) == s
    ensures Unregister(Unregister(s, c), c) == Unregister(s, c)
  {
  }

  /** Registering and then unregistering a caller that was absent restores the state. */
  lemma RegisterThenUnregister<C, H, V>(s: State<C, H, V>, c: C)
    requires c !in s.registered
    ensures Unregister(Register(s, c), c) == s
  {
  }

  // ---------------------------------------------------------------------------
  // The order of the checks

  /** With the permission decorator outermost, an unregistered caller is refused
      with `PermissionError` whatever the key, even one that cannot be hashed,
      and nothing changes. */
  lemma PermissionCheckedFirst<C, H, V>(s: State<C, H, V>, c: C, k: Key<H>, v: V)
    requires c !in s.registered
    ensures SetItem(PermissionFirst, s, c, k, v) == (s, Err(PermissionDenied))
    ensures GetItem(PermissionFirst, s, c, k) == Err(PermissionDenied)
  {
  }

  /** With the key test first, a key whose type is not hashable is refused with
      `TypeError` whether or not the caller is registered, and nothing changes. */
  lemma HashabilityCheckedFirst<C, H, V>(s: State<C, H, V>, c: C, v: V)
    ensures SetItem(HashabilityFirst, s, c, UnhashableType, v) == (s, Err(KeyTypeError))
    ensures GetItem(HashabilityFirst, s, c, UnhashableType) == Err(KeyTypeError)
  {
  }

  /** With the key test first, a key whose type passes the test still meets the
      permission check: an unregistered caller gets `PermissionError`. */
  lemma HashableTypeUnregisteredDenied<C, H, V>(s: State<C, H, V>, c: C, k: Key<H>, v: V)
    requires c !in s.registered && !k.UnhashableType?
    ensures SetItem(HashabilityFirst, s, c, k, v) == (s, Err(PermissionDenied))
    ensures GetItem(HashabilityFirst, s, c, k) == Err(PermissionDenied)
  {
  }

  /** A registered caller with a key that cannot be hashed gets `TypeError`
      under either order, and the items are untouched. */
  lemma RegisteredUnhashableKeyRejected<C, H, V>(order: CheckOrder, s: State<C, H, V>, c: C, k: Key<H>, v: V)
    requires c in s.registered && !k.Hashable?
    ensures SetItem(order, s, c, k, v) == (s, Err(KeyTypeError))
    ensures GetItem(order, s, c, k) == Err(KeyTypeError)
  {
  }

  /** The two versions answer every call alike, except one: an unregistered
      caller passing a key whose type is not hashable. */
  lemma OrdersDifferOnlyOnUnhashableUnregistered<C, H, V>(s: State<C, H, V>, op: Op<C, H, V>)
    ensures Apply(PermissionFirst, s, op) != Apply(HashabilityFirst, s, op) <==>
              (op.SetOp? || op.GetOp?) && op.caller !in s.registered && op.key.UnhashableType?
  {
  }

  // ---------------------------------------------------------------------------
  // Storing and retrieving

  /** A registered caller's `set_item(c, k, v)` followed by `get_item(c, k)`
      returns `v`; only the entry under `k` changes and registration does not. */
  lemma SetThenGet<C, H, V>(order: CheckOrder, s: State<C, H, V>, c: C, h: H, v: V)
    requires c in s.registered
    ensures var (t, r) := SetItem(order, s, c, Hashable(h), v);
              r == Ok(()) && GetItem(order, t, c, Hashable(h)) == Ok(v) &&
              t.registered == s.registered &&
              t.items.Keys == s.items.Keys + {h} &&
              forall g :: g in s.items && g != h ==> t.items[g] == s.items[g]
  {
  }

  /** `get_item` on a key under which nothing was stored raises `KeyError`. */
  lemma GetMissingKey<C, H, V>(order: CheckOrder, s: State<C, H, V>, c: C, h: H)
    requires c in s.registered && h !in s.items
    ensures GetItem(order, s, c, Hashable(h)) == Err(KeyMissing)
  {
  }

  /** Revocation: after a store and then `unregister_class`, the item is still
      in the dictionary, but the caller can no longer read it. */
  lemma RevokedCallerKeepsNoAccess<C, H, V>(order: CheckOrder, s: State<C, H, V>, c: C, h: H, v: V)
    requires c in s.registered
    ensures var t := Unregister(SetItem(order, s, c, Hashable(h), v).0, c);
              h in t.items && t.items[h] == v &&
              GetItem(order, t, c, Hashable(h)) == Err(PermissionDenied)
  {
  }

  // ---------------------------------------------------------------------------
  // Invariants over any sequence of calls

  /** No `unregister_class(c)` occurs at index `from` or later. */
  ghost predicate NoUnregisterFrom<C, H, V>(ops: seq<Op<C, H, V>>, c: C, from: nat)
  {
    forall j :: from <= j < |ops| ==> ops[j] != UnregisterOp(c)
  }

  /** Caller `c` holds a grant after `ops`: some `register_class(c)` is not
      followed by an `unregister_class(c)`, or `c` started registered and was
      never unregistered. */
  ghost predicate Granted<C, H, V>(ops: seq<Op<C, H, V>>, c: C, initially: bool)
  {
    (exists i :: 0 <= i < |ops| && ops[i] == RegisterOp(c) && NoUnregisterFrom(ops, c, i + 1))
    || (initially && NoUnregisterFrom(ops, c, 0))
  }

  /** A caller is registered iff it has been registered and not unregistered
      since, whatever other calls, failed or not, came in between. */
  lemma {:induction false} RegisteredIffGranted<C, H, V>(order: CheckOrder, s: State<C, H, V>, ops: seq<Op<C, H, V>>, c: C)
    ensures c in Run(order, s, ops).registered <==> Granted(ops, c, c in s.registered)
    decreases |ops|
  {
    if ops == [] {
    } else {
      var n := |ops| - 1;
      var pre, last := ops[..n], ops[n];
      RegisteredIffGranted(order, s, pre, c);
      var before := Run(order, s, pre);
      assert Run(order, s, ops) == Apply(order, before, last).0;
      if last == RegisterOp(c) {
        assert NoUnregisterFrom(ops, c, n + 1);
      } else if last == UnregisterOp(c) {
        assert !NoUnregisterFrom(ops, c, 0);
      } else {
        assert c in Run(order, s, ops).registered <==> c in before.registered;
        forall i | 0 <= i <= n
          ensures NoUnregisterFrom(ops, c, i) <==> NoUnregisterFrom(pre, c, i)
        {
          if NoUnregisterFrom(pre, c, i) {
            forall j | i <= j < |ops| ensures ops[j] != UnregisterOp(c) {
              if j < n { assert ops[j] == pre[j]; }
            }
          }
        }
        if Granted(pre, c, c in s.registered) {
          if i :| 0 <= i < |pre| && pre[i] == RegisterOp(c) && NoUnregisterFrom(pre, c, i + 1) {
            assert ops[i] == RegisterOp(c) && NoUnregisterFrom(ops, c, i + 1);
          } else {
            assert NoUnregisterFrom(ops, c, 0);
          }
        }
        if Granted(ops, c, c in s.registered) {
          if i :| 0 <= i < |ops| && ops[i] == RegisterOp(c) && NoUnregisterFrom(ops, c, i + 1) {
            assert i < n && pre[i] == RegisterOp(c) && NoUnregisterFrom(pre, c, i + 1);
          } else {
            assert NoUnregisterFrom(pre, c, 0);
          }
        }
      }
    }
  }

  /** The permission gate over time: a caller that starts unregistered and is
      never registered stays unregistered, and every `set_item`/`get_item` it
      makes is refused with `PermissionError` (under the key-first order, once
      its key's type passes the hashability test). */
  lemma NeverRegisteredAlwaysDenied<C, H, V>(order: CheckOrder, s: State<C, H, V>, ops: seq<Op<C, H, V>>, c: C)
    requires c !in s.registered
    requires forall i :: 0 <= i < |ops| ==> ops[i] != RegisterOp(c)
    ensures forall i :: 0 <= i <= |ops| ==> c !in Run(order, s, ops[..i]).registered
    ensures forall i :: 0 <= i < |ops| && (ops[i].SetOp? || ops[i].GetOp?) && ops[i].caller == c &&
                        (order == PermissionFirst || !ops[i].key.UnhashableType?) ==>
                        Apply(order, Run(order, s, ops[..i]), ops[i]).1 == Err(PermissionDenied)
  {
    forall i | 0 <= i <= |ops| ensures c !in Run(order, s, ops[..i]).registered {
      RegisteredIffGranted(order, s, ops[..i], c);
      assert forall j :: 0 <= j < i ==> ops[..i][j] == ops[j];
    }
  }

  /** The keys a call may write. */
  function Writes<C, H, V>(op: Op<C, H, V>): (keys: set<H>)
  {
    if op.SetOp? && op.key.Hashable? then {op.key.h} else {}
  }

  /** An entry that no call sets is left exactly as it was: registration,
      revocation, reads and failed calls never touch the dictionary. */
  lemma {:induction false} UntouchedKeyPreserved<C, H, V>(order: CheckOrder, s: State<C, H, V>, ops: seq<Op<C, H, V>>, h: H)
    requires forall i :: 0 <= i < |ops| ==> h !in Writes(ops[i])
    ensures var t := Run(order, s, ops);
              (h in t.items <==> h in s.items) && (h in s.items ==> t.items[h] == s.items[h])
    decreases |ops|
  {
    if ops != [] {
      var n := |ops| - 1;
      assert forall i :: 0 <= i < n ==> ops[..n][i] == ops[i];
      UntouchedKeyPreserved(order, s, ops[..n], h);
      assert h !in Writes(ops[n]);
    }
  }

  /** A value stored by a registered caller is what that caller reads back after
      any later calls, as long as it is still registered and nobody stored
      under the same key in between. */
  lemma StoredValueSurvives<C, H, V>(order: CheckOrder, s: State<C, H, V>, c: C, h: H, v: V, ops: seq<Op<C, H, V>>)
    requires c in s.registered
    requires forall i :: 0 <= i < |ops| ==> h !in Writes(ops[i])
    requires c in Run(order, SetItem(order, s, c, Hashable(h), v).0, ops).registered
    ensures GetItem(order, Run(order, SetItem(order, s, c, Hashable(h), v).0, ops), c, Hashable(h)) == Ok(v)
  {
    UntouchedKeyPreserved(order, SetItem(order, s, c, Hashable(h), v).0, ops, h);
  }

  // ---------------------------------------------------------------------------
  // Independent callers

  /** The keys a call reads or writes. */
  function Touches<C, H, V>(op: Op<C, H, V>): (keys: set<H>)
  {
    if (op.SetOp? || op.GetOp?) && op.key.Hashable? then {op.key.h} else {}
  }

  /** Two calls by different callers on different keys. */
  ghost predicate Independent<C, H, V>(a: Op<C, H, V>, b: Op<C, H, V>)
  {
    a.caller != b.caller && Touches(a) !! Touches(b)
  }

  /** Since every call is atomic, two calls by different callers on different
      keys give the same final state and the same answers in either order: no
      interleaving of independent callers loses an update. */
  lemma IndependentStepsCommute<C, H, V>(order: CheckOrder, s: State<C, H, V>, a: Op<C, H, V>, b: Op<C, H, V>)
    requires Independent(a, b)
    ensures var ab := Apply(order, Apply(order, s, a).0, b);
            var ba := Apply(order, Apply(order, s, b).0, a);
            ab.0 == ba.0 &&
            Apply(order, s, a).1 == Apply(order, Apply(order, s, b).0, a).1 &&
            Apply(order, s, b).1 == Apply(order, Apply(order, s, a).0, b).1
  {
  }
}
