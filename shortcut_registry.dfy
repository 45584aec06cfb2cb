/** The registry of `KeyboardShortcutManager` (hooks/use-keyboard-shortcuts.ts): a map from a lower-cased
    key or chord to the ordered list of registrations under it, and the three ways consumers change it.
    The manager class applies these transitions to its `shortcuts` field. */
module ShortcutRegistry {
  import opened Wrappers
  import opened JsString

  /** The opaque id a consumer registers under (`shortcut-` plus random characters in the source). */
  type ConsumerId = string

  /** The identity of a consumer's handler closure; what it does is supplied at dispatch time. */
  type HandlerRef = nat

  /** The identity of a consumer's condition closure, re-evaluated at dispatch time. */
  type ConditionRef = nat

  datatype Registration = Registration(id: ConsumerId, priority: int, handler: HandlerRef, condition: Option<ConditionRef>)

  type Registry = map<string, seq<Registration>>

  /** `registrations.filter(r => r.id !== id)`. */
  function WithoutId(regs: seq<Registration>, id: ConsumerId): (r: seq<Registration>)
    ensures |r| <= |regs|
    ensures forall x :: x in r <==> x in regs && x.id != id
    decreases |regs|
  {
    if |regs| == 0 then []
    else if regs[0].id == id then WithoutId(regs[1..], id)
    else [regs[0]] + WithoutId(regs[1..], id)
  }

  /** How many entries of `regs` belong to `id`. */
  function CountId(regs: seq<Registration>, id: ConsumerId): nat
    decreases |regs|
  {
    if |regs| == 0 then 0 else (if regs[0].id == id then 1 else 0) + CountId(regs[1..], id)
  }

  predicate UniqueIds(regs: seq<Registration>) {
    forall i, j :: 0 <= i < j < |regs| ==> regs[i].id != regs[j].id
  }

  /** The registry invariants: every key is lower-cased, no key holds an empty list, and at most one entry
      per (key, id). */
  predicate ValidRegistry(m: Registry) {
    forall k :: k in m ==> Lower(k) == k && |m[k]| > 0 && UniqueIds(m[k])
  }

  /** `this.shortcuts.get(key) || []`. */
  function Lookup(m: Registry, key: string): seq<Registration> {
    if key in m then m[key] else []
  }

  /** `register(key, id, handler, {priority, condition})`: the entry is built with priority 0 when none is
      given, any entry of `id` under the lower-cased key is filtered out, and the new entry is appended. */
  function NewRegistration(id: ConsumerId, handler: HandlerRef, priority: Option<int>, condition: Option<ConditionRef>): (r: Registration)
    ensures r.id == id && r.handler == handler && r.condition == condition
    ensures priority.None? ==> r.priority == 0
    ensures priority.Some? ==> r.priority == priority.value
  {
    Registration(id, priority.GetOr(0), handler, condition)
  }

  function Registered(m: Registry, key: string, reg: Registration): Registry {
    var k := Lower(key);
    m[k := WithoutId(Lookup(m, k), reg.id) + [reg]]
  }

  /** `unregister(key, id)`. */
  function Unregistered(m: Registry, key: string, id: ConsumerId): Registry {
    var k := Lower(key);
    if k !in m then m
    else
      var filtered := WithoutId(m[k], id);
      if |filtered| > 0 then m[k := filtered] else m - {k}
  }

  /** `unregisterAll(id)`: every list filtered, and the keys whose list became empty deleted. */
  function UnregisteredAll(m: Registry, id: ConsumerId): Registry {
    map k | k in m && |WithoutId(m[k], id)| > 0 :: WithoutId(m[k], id)
  }

  // ---------------------------------------------------------------- facts about filtering

  lemma {:induction false} WithoutIdAppend(a: seq<Registration>, b: seq<Registration>, id: ConsumerId)
    ensures WithoutId(a + b, id) == WithoutId(a, id) + WithoutId(b, id)
    decreases |a|
  {
    if |a| > 0 {
      assert (a + b)[0] == a[0] && (a + b)[1..] == a[1..] + b;
      WithoutIdAppend(a[1..], b, id);
      if a[0].id != id {
        calc {
          WithoutId(a + b, id);
          [a[0]] + WithoutId(a[1..] + b, id);
          [a[0]] + (WithoutId(a[1..], id) + WithoutId(b, id));
          ([a[0]] + WithoutId(a[1..], id)) + WithoutId(b, id);
        }
      }
    } else {
      assert a + b == b;
    }
  }

  lemma {:induction false} WithoutIdIdempotent(regs: seq<Registration>, id: ConsumerId)
    ensures WithoutId(WithoutId(regs, id), id) == WithoutId(regs, id)
    decreases |regs|
  {
    if |regs| > 0 {
      WithoutIdIdempotent(regs[1..], id);
    }
  }

  lemma {:induction false} WithoutIdAbsent(regs: seq<Registration>, id: ConsumerId)
    requires forall x :: x in regs ==> x.id != id
    ensures WithoutId(regs, id) == regs
    decreases |regs|
  {
    if |regs| > 0 {
      WithoutIdAbsent(regs[1..], id);
      assert [regs[0]] + regs[1..] == regs;
    }
  }

  lemma {:induction false} CountIdZero(regs: seq<Registration>, id: ConsumerId)
    ensures CountId(regs, id) == 0 <==> forall x :: x in regs ==> x.id != id
    decreases |regs|
  {
    if |regs| > 0 {
      CountIdZero(regs[1..], id);
      assert forall x :: x in regs <==> x == regs[0] || x in regs[1..];
    }
  }

  lemma {:induction false} CountIdAppend(a: seq<Registration>, b: seq<Registration>, id: ConsumerId)
    ensures CountId(a + b, id) == CountId(a, id) + CountId(b, id)
    decreases |a|
  {
    if |a| > 0 {
      assert (a + b)[0] == a[0] && (a + b)[1..] == a[1..] + b;
      CountIdAppend(a[1..], b, id);
      assert CountId(a + b, id) == (if a[0].id == id then 1 else 0) + CountId(a[1..] + b, id);
    } else {
      assert a + b == b;
    }
  }

  lemma {:induction false} WithoutIdKeepsUnique(regs: seq<Registration>, id: ConsumerId)
    requires UniqueIds(regs)
    ensures UniqueIds(WithoutId(regs, id))
    decreases |regs|
  {
    if |regs| > 0 {
      WithoutIdKeepsUnique(regs[1..], id);
      var rest := WithoutId(regs[1..], id);
      if regs[0].id != id {
        var r := [regs[0]] + rest;
        forall i, j | 0 <= i < j < |r| ensures r[i].id != r[j].id {
          if i == 0 {
            assert r[j] in regs[1..];
          }
        }
      }
    }
  }

  // ---------------------------------------------------------------- the properties of the operations

  /** After `register(key, id, …)` the list under the lower-cased key holds exactly one entry of `id`, as
      its last element; the entries of other ids keep their relative order; no other key changes; and the
      registry invariants are preserved. */
  lemma RegisterSpec(m: Registry, key: string, reg: Registration)
    requires ValidRegistry(m)
    ensures var r := Registered(m, key, reg); var k := Lower(key);
      && ValidRegistry(r)
      && k in r
      && CountId(r[k], reg.id) == 1
      && r[k][|r[k]| - 1] == reg
      && WithoutId(r[k], reg.id) == WithoutId(Lookup(m, k), reg.id)
      && (forall other :: other != k ==> (other in r <==> other in m) && (other in m ==> r[other] == m[other]))
  {
    var k := Lower(key);
    var r := Registered(m, key, reg);
    var kept := WithoutId(Lookup(m, k), reg.id);
    LowerIdempotent(key);
    CountIdZero(kept, reg.id);
    CountIdAppend(kept, [reg], reg.id);
    assert CountId([reg], reg.id) == 1;
    WithoutIdAppend(kept, [reg], reg.id);
    WithoutIdIdempotent(Lookup(m, k), reg.id);
    assert WithoutId([reg], reg.id) == [];
    assert kept + [] == kept;
    if k in m {
      WithoutIdKeepsUnique(m[k], reg.id);
    }
    var list := kept + [reg];
    forall i, j | 0 <= i < j < |list| ensures list[i].id != list[j].id {
      if j == |list| - 1 {
        assert list[i] in kept;
      } else {
        assert list[i] == kept[i] && list[j] == kept[j];
      }
    }
  }

  /** `unregister(key, id)` changes nothing when the lower-cased key is absent; otherwise it filters out
      `id` under that key, deletes the key when the list becomes empty, and leaves every other key alone. */
  lemma UnregisterSpec(m: Registry, key: string, id: ConsumerId)
    requires ValidRegistry(m)
    ensures var r := Unregistered(m, key, id); var k := Lower(key);
      && ValidRegistry(r)
      && (k !in m ==> r == m)
      && (k in m ==> (k in r <==> |WithoutId(m[k], id)| > 0))
      && (k in r ==> r[k] == WithoutId(m[k], id) && CountId(r[k], id) == 0)
      && (forall other :: other != k ==> (other in r <==> other in m) && (other in m ==> r[other] == m[other]))
  {
    var k := Lower(key);
    if k in m {
      WithoutIdKeepsUnique(m[k], id);
      CountIdZero(WithoutId(m[k], id), id);
    }
  }

  /** `unregisterAll(id)` removes every entry of `id` under every key, keeps all other entries in order,
      deletes exactly the keys whose list held no other id, and preserves the registry invariants. */
  lemma UnregisterAllSpec(m: Registry, id: ConsumerId)
    requires ValidRegistry(m)
    ensures var r := UnregisteredAll(m, id);
      && ValidRegistry(r)
      && (forall k :: k in r <==> k in m && exists x :: x in m[k] && x.id != id)
      && (forall k :: k in r ==> r[k] == WithoutId(m[k], id) && CountId(r[k], id) == 0)
  {
    var r := UnregisteredAll(m, id);
    forall k | k in r ensures UniqueIds(r[k]) && CountId(r[k], id) == 0 {
      WithoutIdKeepsUnique(m[k], id);
      CountIdZero(WithoutId(m[k], id), id);
    }
    forall k | k in m ensures k in r <==> exists x :: x in m[k] && x.id != id {
      var f := WithoutId(m[k], id);
      if |f| > 0 {
        assert f[0] in f;
      }
    }
  }

  /** Calling `unregisterAll(id)` twice is the same as calling it once. */
  lemma UnregisterAllIdempotent(m: Registry, id: ConsumerId)
    ensures UnregisteredAll(UnregisteredAll(m, id), id) == UnregisteredAll(m, id)
  {
    var once := UnregisteredAll(m, id);
    var twice := UnregisteredAll(once, id);
    forall k | k in once ensures WithoutId(once[k], id) == once[k] {
      WithoutIdIdempotent(m[k], id);
    }
    assert twice.Keys == once.Keys;
  }

  /** `unregisterAll` of an id that owns no entry changes nothing (this needs the invariant that no key holds
      an empty list). */
  lemma UnregisterAllAbsent(m: Registry, id: ConsumerId)
    requires ValidRegistry(m)
    requires forall k :: k in m ==> CountId(m[k], id) == 0
    ensures UnregisteredAll(m, id) == m
  {
    forall k | k in m ensures WithoutId(m[k], id) == m[k] {
      CountIdZero(m[k], id);
      WithoutIdAbsent(m[k], id);
    }
    assert UnregisteredAll(m, id).Keys == m.Keys;
  }

  // ---------------------------------------------------------------- binding a consumer

  /** One element of the array passed to `useKeyboardShortcuts`. */
  datatype ShortcutSpec = ShortcutSpec(key: string, handler: HandlerRef, condition: Option<ConditionRef>, priority: Option<int>)

  function SpecRegistration(s: ShortcutSpec, id: ConsumerId): Registration {
    NewRegistration(id, s.handler, s.priority, s.condition)
  }

  /** The effect of `useKeyboardShortcuts`: every shortcut registered, in order, under one consumer id. */
  function RegisterEach(m: Registry, specs: seq<ShortcutSpec>, id: ConsumerId): Registry
    decreases |specs|
  {
    if |specs| == 0 then m
    else
      var last := specs[|specs| - 1];
      Registered(RegisterEach(m, specs[..|specs| - 1], id), last.key, SpecRegistration(last, id))
  }

  /** A registry that holds, for every key of `m`, the key's filtered list exactly when it is non-empty,
      and no other key, is `UnregisteredAll(m, id)`. */
  lemma FilteredEveryKey(m: Registry, id: ConsumerId, result: Registry)
    requires result.Keys <= m.Keys
    requires forall k :: k in m ==>
      (k in result <==> |WithoutId(m[k], id)| > 0) && (k in result ==> result[k] == WithoutId(m[k], id))
    ensures result == UnregisteredAll(m, id)
  {
    assert result.Keys == UnregisteredAll(m, id).Keys;
  }

  /** Registering under `id` and then unregistering all of `id` is the same as unregistering all of `id`. */
  lemma RegisterThenUnregisterAll(m: Registry, key: string, reg: Registration)
    ensures UnregisteredAll(Registered(m, key, reg), reg.id) == UnregisteredAll(m, reg.id)
  {
    var k := Lower(key);
    var id := reg.id;
    var r := Registered(m, key, reg);
    var kept := WithoutId(Lookup(m, k), id);
    WithoutIdAppend(kept, [reg], id);
    WithoutIdIdempotent(Lookup(m, k), id);
    assert WithoutId([reg], id) == [];
    assert kept + [] == kept;
    assert WithoutId(r[k], id) == kept;
    var lhs := UnregisteredAll(r, id);
    assert k !in m ==> k !in lhs;
    FilteredEveryKey(m, id, lhs);
  }

  /** The hook's cleanup undoes its binding: `unregisterAll(id)` after registering any list of shortcuts
      under `id` leaves what `unregisterAll(id)` alone would leave; for a fresh id, the registry as it was. */
  lemma {:induction false} BindThenCleanup(m: Registry, specs: seq<ShortcutSpec>, id: ConsumerId)
    ensures UnregisteredAll(RegisterEach(m, specs, id), id) == UnregisteredAll(m, id)
    ensures ValidRegistry(m) && (forall k :: k in m ==> CountId(m[k], id) == 0) ==>
      UnregisteredAll(RegisterEach(m, specs, id), id) == m
    decreases |specs|
  {
    if |specs| > 0 {
      var last := specs[|specs| - 1];
      BindThenCleanup(m, specs[..|specs| - 1], id);
      RegisterThenUnregisterAll(RegisterEach(m, specs[..|specs| - 1], id), last.key, SpecRegistration(last, id));
    }
    if ValidRegistry(m) && (forall k :: k in m ==> CountId(m[k], id) == 0) {
      UnregisterAllAbsent(m, id);
    }
  }

  /** Binding keeps the registry invariants. */
  lemma {:induction false} BindPreservesValid(m: Registry, specs: seq<ShortcutSpec>, id: ConsumerId)
    requires ValidRegistry(m)
    ensures ValidRegistry(RegisterEach(m, specs, id))
    decreases |specs|
  {
    if |specs| > 0 {
      var last := specs[|specs| - 1];
      BindPreservesValid(m, specs[..|specs| - 1], id);
      RegisterSpec(RegisterEach(m, specs[..|specs| - 1], id), last.key, SpecRegistration(last, id));
    }
  }

  /** A key that is not in the registry and that no shortcut names stays absent after binding. */
  lemma {:induction false} BindLeavesOtherKeys(m: Registry, specs: seq<ShortcutSpec>, id: ConsumerId, k: string)
    requires forall i :: 0 <= i < |specs| ==> Lower(specs[i].key) != k
    ensures k in RegisterEach(m, specs, id) <==> k in m
    ensures k in m ==> RegisterEach(m, specs, id)[k] == m[k]
    decreases |specs|
  {
    if |specs| > 0 {
      BindLeavesOtherKeys(m, specs[..|specs| - 1], id, k);
    }
  }

  /** When exactly one shortcut `specs[j]` names the lower-cased key `k`, and `k` was not registered before,
      binding leaves exactly that one registration under `k`. */
  lemma {:induction false} BindSingleKey(m: Registry, specs: seq<ShortcutSpec>, id: ConsumerId, j: nat, k: string)
    requires j < |specs| && Lower(specs[j].key) == k && k !in m
    requires forall i :: 0 <= i < |specs| && i != j ==> Lower(specs[i].key) != k
    ensures k in RegisterEach(m, specs, id)
    ensures RegisterEach(m, specs, id)[k] == [SpecRegistration(specs[j], id)]
    decreases |specs|
  {
    var init := specs[..|specs| - 1];
    if j == |specs| - 1 {
      BindLeavesOtherKeys(m, init, id, k);
    } else {
      BindSingleKey(m, init, id, j, k);
    }
  }
}
