/** `AnnotatedTypeMap`: a map keyed by annotated types that sends every key
    through `GenericTypeReflector.toCanonical` before it reaches the backing
    map. The backing map is a `HashMap`-like `map` field; `toCanonical` is a
    function field about which nothing is assumed. */
module TypeMaps {
  import opened Types

  /** The canonical forms of a set of keys. */
  ghost function CanonicalKeys(keys: set<AType>, canon: AType -> AType): set<AType>
  {
    set k | k in keys :: canon(k)
  }

  /** Two distinct keys of `m` have the same canonical form. */
  ghost predicate HasCollision<V>(m: map<AType, V>, canon: AType -> AType)
  {
    exists k1, k2 :: k1 in m && k2 in m && k1 != k2 && canon(k1) == canon(k2)
  }

  /** The stream step of `putAll`: every entry re-keyed by its canonical form
      and collected into a new map. The collector has no merge function, so it
      throws `IllegalStateException` on the first canonical key seen twice. */
  method CollectCanonical<V>(m: map<AType, V>, canon: AType -> AType) returns (r: Result<map<AType, V>>)
    ensures r.Failure? <==> HasCollision(m, canon)
    ensures r.Failure? ==> r.error == DuplicateKey
    ensures r.Success? ==> r.value.Keys == CanonicalKeys(m.Keys, canon)
    ensures r.Success? ==> forall k :: k in m ==> canon(k) in r.value && r.value[canon(k)] == m[k]
  {
    var rest := m.Keys;
    var acc: map<AType, V> := map[];
    ghost var done: set<AType> := {};
    ghost var owner: map<AType, AType> := map[];
    while rest != {}
      invariant rest + done == m.Keys && rest !! done
      invariant acc.Keys == CanonicalKeys(done, canon)
      invariant forall k :: k in done ==> canon(k) in acc && acc[canon(k)] == m[k]
      invariant forall k1, k2 :: k1 in done && k2 in done && k1 != k2 ==> canon(k1) != canon(k2)
      invariant forall c :: c in acc ==> c in owner && owner[c] in done && canon(owner[c]) == c
      decreases rest
    {
      var k :| k in rest;
      var c := canon(k);
      if c in acc {
        assert owner[c] in m && k in m && owner[c] != k && canon(owner[c]) == canon(k);
        return Failure(DuplicateKey);
      }
      acc := acc[c := m[k]];
      owner := owner[c := k];
      done := done + {k};
      rest := rest - {k};
    }
    r := Success(acc);
  }

  class AnnotatedTypeMap<V(==)> {
    /** `GenericTypeReflector.toCanonical`. */
    const canon: AType -> AType
    /** The backing map, keyed by canonical forms. */
    var inner: map<AType, V>

    /** `new AnnotatedTypeMap()`: backed by a fresh, empty `HashMap`. */
    constructor (canon: AType -> AType)
      ensures this.canon == canon && inner == map[]
    {
      this.canon := canon;
      inner := map[];
    }

    /** `size()`: the number of distinct canonical keys stored. */
    method Size() returns (n: nat)
      ensures n == |inner|
    {
      n := |inner|;
    }

    /** `isEmpty()`. */
    method IsEmpty() returns (b: bool)
      ensures b <==> inner == map[]
    {
      b := |inner| == 0;
    }

    /** `containsKey(key)`: false for anything but an annotated type, otherwise
        whether its canonical form is stored. */
    method ContainsKey(key: Obj) returns (b: bool)
      ensures b <==> key.AnnotatedTypeObj? && canon(key.t) in inner
    {
      b := key.AnnotatedTypeObj? && canon(key.t) in inner;
    }

    /** `containsValue(value)`: always false, whatever the map holds. */
    method ContainsValue(value: V) returns (b: bool)
      ensures !b
    {
      b := false;
    }

    /** `containsValue` as the `Map` contract it inherits describes it: true
        exactly when some stored entry holds the value. The backing map is
        scanned one canonical key at a time. */
    method CorrectedContainsValue(value: V) returns (b: bool)
      ensures b <==> exists c :: c in inner && inner[c] == value
    {
      var rest := inner.Keys;
      while rest != {}
        invariant rest <= inner.Keys
        invariant forall c :: c in inner && c !in rest ==> inner[c] != value
        decreases rest
      {
        var c :| c in rest;
        if inner[c] == value {
          return true;
        }
        rest := rest - {c};
      }
      b := false;
    }

    /** `get(key)`: the value under the key's canonical form; `None` (`null`)
        for a key that is not an annotated type or is not stored. */
    method Get(key: Obj) returns (r: Option<V>)
      ensures r.Some? <==> key.AnnotatedTypeObj? && canon(key.t) in inner
      ensures r.Some? ==> r.value == inner[canon(key.t)]
    {
      if key.AnnotatedTypeObj? && canon(key.t) in inner {
        r := Some(inner[canon(key.t)]);
      } else {
        r := None;
      }
    }

    /** `getOrDefault(key, defaultValue)`. */
    method GetOrDefault(key: Obj, defaultValue: V) returns (r: V)
      ensures key.AnnotatedTypeObj? && canon(key.t) in inner ==> r == inner[canon(key.t)]
      ensures !(key.AnnotatedTypeObj? && canon(key.t) in inner) ==> r == defaultValue
    {
      r := if key.AnnotatedTypeObj? && canon(key.t) in inner then inner[canon(key.t)] else defaultValue;
    }

    /** `put(key, value)`: stores under the canonical form and returns the
        previous value there. */
    method Put(key: AType, value: V) returns (prev: Option<V>)
      modifies this
      ensures inner == old(inner)[canon(key) := value]
      ensures prev == if canon(key) in old(inner) then Some(old(inner)[canon(key)]) else None
    {
      var c := canon(key);
      prev := if c in inner then Some(inner[c]) else None;
      inner := inner[c := value];
    }

    /** `remove(key)`: a key that is not an annotated type changes nothing;
        otherwise the canonical entry goes and its value is returned. */
    method Remove(key: Obj) returns (prev: Option<V>)
      modifies this
      ensures !key.AnnotatedTypeObj? ==> prev == None && inner == old(inner)
      ensures key.AnnotatedTypeObj? ==> inner == old(inner) - {canon(key.t)}
      ensures key.AnnotatedTypeObj? ==>
        prev == if canon(key.t) in old(inner) then Some(old(inner)[canon(key.t)]) else None
    {
      if !key.AnnotatedTypeObj? {
        return None;
      }
      var c := canon(key.t);
      prev := if c in inner then Some(inner[c]) else None;
      inner := inner - {c};
    }

    /** `putAll(m)`: the source re-keyed by canonical forms, then copied in;
        nothing changes if two source keys share a canonical form. */
    method PutAll(m: map<AType, V>) returns (o: Outcome)
      modifies this
      ensures o.Fail? <==> HasCollision(m, canon)
      ensures o.Fail? ==> o.error == DuplicateKey && inner == old(inner)
      ensures o.Pass? ==> inner.Keys == old(inner).Keys + CanonicalKeys(m.Keys, canon)
      ensures o.Pass? ==> forall k :: k in m ==> inner[canon(k)] == m[k]
      ensures o.Pass? ==> forall c :: c in old(inner) && c !in CanonicalKeys(m.Keys, canon) ==>
        inner[c] == old(inner)[c]
    {
      var canonical := CollectCanonical(m, canon);
      if canonical.Failure? {
        return Fail(canonical.error);
      }
      inner := inner + canonical.value;
      o := Pass;
    }

    /** `clear()`. */
    method Clear()
      modifies this
      ensures inner == map[]
    {
      inner := map[];
    }

    /** `putIfAbsent(key, value)`: an existing value under the canonical form
        is returned and kept. */
    method PutIfAbsent(key: AType, value: V) returns (prev: Option<V>)
      modifies this
      ensures canon(key) in old(inner) ==> prev == Some(old(inner)[canon(key)]) && inner == old(inner)
      ensures canon(key) !in old(inner) ==> prev == None && inner == old(inner)[canon(key) := value]
    {
      var c := canon(key);
      if c in inner {
        return Some(inner[c]);
      }
      inner := inner[c := value];
      prev := None;
    }

    /** `remove(key, value)`: the canonical entry goes only if it maps to `value`. */
    method RemoveEntry(key: Obj, value: V) returns (b: bool)
      modifies this
      ensures b <==> key.AnnotatedTypeObj? && canon(key.t) in old(inner) && old(inner)[canon(key.t)] == value
      ensures b ==> inner == old(inner) - {canon(key.t)}
      ensures !b ==> inner == old(inner)
    {
      if key.AnnotatedTypeObj? && canon(key.t) in inner && inner[canon(key.t)] == value {
        inner := inner - {canon(key.t)};
        return true;
      }
      b := false;
    }

    /** `replace(key, oldValue, newValue)`: only an entry currently mapping to
        `oldValue` is updated. */
    method ReplaceIf(key: AType, oldValue: V, newValue: V) returns (b: bool)
      modifies this
      ensures b <==> canon(key) in old(inner) && old(inner)[canon(key)] == oldValue
      ensures b ==> inner == old(inner)[canon(key) := newValue]
      ensures !b ==> inner == old(inner)
    {
      var c := canon(key);
      if c in inner && inner[c] == oldValue {
        inner := inner[c := newValue];
        return true;
      }
      b := false;
    }

    /** `replace(key, value)`: only an existing entry is updated; the previous
        value is returned. */
    method Replace(key: AType, value: V) returns (prev: Option<V>)
      modifies this
      ensures canon(key) in old(inner) ==>
        prev == Some(old(inner)[canon(key)]) && inner == old(inner)[canon(key) := value]
      ensures canon(key) !in old(inner) ==> prev == None && inner == old(inner)
    {
      var c := canon(key);
      if c in inner {
        prev := Some(inner[c]);
        inner := inner[c := value];
      } else {
        prev := None;
      }
    }
  }

  /** `new AnnotatedTypeMap(inner)`: `requireNonNull(inner)`, then an
      `IllegalArgumentException` unless the backing map is empty. */
  method NewAnnotatedTypeMap<V(==)>(inner: Option<map<AType, V>>, canon: AType -> AType)
    returns (r: Result<AnnotatedTypeMap<V>>)
    ensures inner.None? <==> r == Failure(NullPointer)
    ensures inner.Some? && inner.value != map[] <==> r == Failure(NotEmpty)
    ensures inner == Some(map[]) ==> r.Success?
    ensures r.Success? ==> fresh(r.value) && r.value.inner == map[] && r.value.canon == canon
  {
    if inner.None? {
      return Failure(NullPointer);
    }
    if inner.value != map[] {
      return Failure(NotEmpty);
    }
    var m := new AnnotatedTypeMap(canon);
    r := Success(m);
  }

  /** The backing map after `put` of each entry in turn. */
  function PutEach<V>(m: map<AType, V>, entries: seq<(AType, V)>, canon: AType -> AType): map<AType, V>
    decreases |entries|
  {
    if |entries| == 0 then m else PutEach(m[canon(entries[0].0) := entries[0].1], entries[1..], canon)
  }

  /** No entry after position `i` has the canonical form of entry `i`. */
  ghost predicate LastOfForm<V>(entries: seq<(AType, V)>, canon: AType -> AType, i: nat)
    requires i < |entries|
  {
    forall j :: i < j < |entries| ==> canon(entries[j].0) != canon(entries[i].0)
  }

  /** No entry has canonical form `c`. */
  ghost predicate Untouched<V>(entries: seq<(AType, V)>, canon: AType -> AType, c: AType)
  {
    forall i :: 0 <= i < |entries| ==> canon(entries[i].0) != c
  }

  /** After a series of `put`s the backing map holds one entry per distinct
      canonical key. Under each canonical form put it holds the value of the
      last entry with that form; every other entry is as it was. */
  lemma {:induction false} PutEachKeys<V>(m: map<AType, V>, entries: seq<(AType, V)>, canon: AType -> AType)
    ensures PutEach(m, entries, canon).Keys == m.Keys + (set i | 0 <= i < |entries| :: canon(entries[i].0))
    ensures forall i :: 0 <= i < |entries| && LastOfForm(entries, canon, i) ==>
      PutEach(m, entries, canon)[canon(entries[i].0)] == entries[i].1
    ensures forall c :: c in m && Untouched(entries, canon, c) ==> PutEach(m, entries, canon)[c] == m[c]
    decreases |entries|
  {
    if |entries| > 0 {
      var c0 := canon(entries[0].0);
      var m', rest := m[c0 := entries[0].1], entries[1..];
      var r := PutEach(m, entries, canon);
      assert r == PutEach(m', rest, canon);
      PutEachKeys(m', rest, canon);
      var restForms := set i | 0 <= i < |rest| :: canon(rest[i].0);
      var all := set i | 0 <= i < |entries| :: canon(entries[i].0);
      assert all == {c0} + restForms by {
        forall c | c in all ensures c in {c0} + restForms {
          var i :| 0 <= i < |entries| && c == canon(entries[i].0);
          if i > 0 { assert c == canon(rest[i - 1].0); }
        }
        forall c | c in restForms ensures c in all {
          var i :| 0 <= i < |rest| && c == canon(rest[i].0);
          assert c == canon(entries[i + 1].0);
        }
      }
      forall i | 0 <= i < |entries| && LastOfForm(entries, canon, i)
        ensures r[canon(entries[i].0)] == entries[i].1
      {
        if i == 0 {
          forall j | 0 <= j < |rest| ensures canon(rest[j].0) != c0 {
            assert rest[j] == entries[j + 1];
          }
        } else {
          assert rest[i - 1] == entries[i];
          forall j | i - 1 < j < |rest| ensures canon(rest[j].0) != canon(rest[i - 1].0) {
            assert rest[j] == entries[j + 1];
          }
        }
      }
      forall c | c in m && Untouched(entries, canon, c) ensures r[c] == m[c] {
        forall j | 0 <= j < |rest| ensures canon(rest[j].0) != c {
          assert rest[j] == entries[j + 1];
        }
      }
    }
  }

  /** Two distinct keys with the same canonical form share one entry: after
      putting both, the map has size 1 and either key finds the second value. */
  method SameCanonicalFormSharesEntry<V(==)>(canon: AType -> AType, k1: AType, k2: AType, v1: V, v2: V)
    returns (n: nat, r: Option<V>)
    requires canon(k1) == canon(k2)
    ensures n == 1 && r == Some(v2)
  {
    var m := new AnnotatedTypeMap(canon);
    var _ := m.Put(k1, v1);
    var _ := m.Put(k2, v2);
    n := m.Size();
    r := m.Get(AnnotatedTypeObj(k1));
  }

  /** `containsValue` right after a `put`: the entry is there, but the code
      answers false, where the inherited `Map` contract asks for true. */
  method ContainsValueAfterPut<V(==)>(canon: AType -> AType, k: AType, v: V)
    returns (stored: bool, asWritten: bool, corrected: bool)
    ensures stored && !asWritten && corrected
  {
    var m := new AnnotatedTypeMap(canon);
    var _ := m.Put(k, v);
    stored := m.ContainsKey(AnnotatedTypeObj(k));
    asWritten := m.ContainsValue(v);
    corrected := m.CorrectedContainsValue(v);
  }
}
