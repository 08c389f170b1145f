/** `TypeVariableImpl`: a synthetic type variable with a name, a generic
    declaration, annotations in a `HashMap` keyed by annotation kind, and at
    least one annotated bound. */
module TypeVariables {
  import opened Types
  import AnnotatedTypes

  /** The smallest element of a non-empty set of annotation kinds. */
  function MinOf(s: set<nat>): (r: nat)
    requires s != {}
    ensures r in s && forall y :: y in s ==> r <= y
  {
    MinExists(s);
    var x :| x in s && forall y :: y in s ==> x <= y;
    x
  }

  lemma {:induction false} MinExists(s: set<nat>)
    requires s != {}
    ensures exists x :: x in s && forall y :: y in s ==> x <= y
  {
    var y :| y in s;
    if s != {y} {
      MinExists(s - {y});
      var x :| x in s - {y} && forall z :: z in s - {y} ==> x <= z;
      var m := if y < x then y else x;
      forall z | z in s ensures m <= z {
        if z != y {
          assert z in s - {y};
        }
      }
    } else {
      assert forall z :: z in s ==> y <= z;
    }
  }

  /** The keys of an annotation `HashMap` in the order its iteration visits them.
      The model fixes that order as ascending kind. */
  function SortedKeys(s: set<nat>): (r: seq<nat>)
    ensures |r| == |s|
    ensures forall k :: k in r <==> k in s
    ensures forall i, j :: 0 <= i < j < |r| ==> r[i] < r[j]
    decreases s
  {
    if s == {} then []
    else
      var m := MinOf(s);
      [m] + SortedKeys(s - {m})
  }

  /** Every value of an annotation map is stored under its own kind, as the
      constructor's loop stores it. */
  ghost predicate KeyedByKind(m: map<nat, Annotation>)
  {
    forall k :: k in m ==> m[k].kind == k
  }

  /** What holds of every constructed `TypeVariableImpl`. */
  ghost predicate Valid(tv: TypeVariableImpl)
  {
    |tv.bounds| >= 1 && KeyedByKind(tv.annotations)
  }

  /** The `HashMap` the constructor fills: for each kind of the array, the last
      annotation of that kind. */
  function LastWinsMap(anns: seq<Annotation>): (m: map<nat, Annotation>)
    ensures KeyedByKind(m)
    ensures forall k :: k in m <==> k in AnnotatedTypes.Kinds(anns)
  {
    map k | k in AnnotatedTypes.Kinds(anns) :: AnnotatedTypes.LastOfKind(anns, k).value
  }

  /** One more `put` extends the map built from a prefix of the array. */
  lemma LastWinsMapStep(anns: seq<Annotation>, i: nat)
    requires i < |anns|
    ensures LastWinsMap(anns[..i + 1]) == LastWinsMap(anns[..i])[anns[i].kind := anns[i]]
  {
    var p, q := anns[..i], anns[..i + 1];
    assert q == p + [anns[i]] && q[..i] == p;
    assert AnnotatedTypes.Kinds(q) == AnnotatedTypes.Kinds(p) + [anns[i].kind];
    var lhs, rhs := LastWinsMap(q), LastWinsMap(p)[anns[i].kind := anns[i]];
    assert lhs.Keys == rhs.Keys;
    forall k | k in lhs ensures lhs[k] == rhs[k] {
      if k != anns[i].kind {
        assert AnnotatedTypes.LastOfKind(q, k) == AnnotatedTypes.LastOfKind(p, k);
      }
    }
  }

  /** The constructor's loop: an empty `HashMap` and one `put` per annotation. */
  method BuildAnnotationHashMap(annotations: seq<Annotation>) returns (m: map<nat, Annotation>)
    ensures m == LastWinsMap(annotations)
  {
    m := map[];
    var i := 0;
    while i < |annotations|
      invariant 0 <= i <= |annotations|
      invariant m == LastWinsMap(annotations[..i])
    {
      LastWinsMapStep(annotations, i);
      m := m[annotations[i].kind := annotations[i]];
      i := i + 1;
    }
    assert annotations[..i] == annotations;
  }

  /** `new TypeVariableImpl(variable, annotations, bounds)`: `requireNonNull(variable)`,
      name and declaration copied from it, the annotation map filled, and then
      an `IllegalArgumentException` unless there is at least one bound. */
  method NewTypeVariable(variable: Option<TypeVariable>, annotations: seq<Annotation>, bounds: Option<seq<AType>>)
    returns (r: Result<TypeVariableImpl>)
    ensures variable.None? <==> r == Failure(NullPointer)
    ensures variable.Some? && (bounds.None? || bounds.value == []) <==> r == Failure(InvalidBounds)
    ensures variable.Some? && bounds.Some? && bounds.value != [] ==> r.Success?
    ensures r.Success? ==> Valid(r.value)
    ensures r.Success? ==> r.value.name == variable.value.name && r.value.decl == variable.value.decl
    ensures r.Success? ==> r.value.bounds == bounds.value
    ensures r.Success? ==> r.value.annotations == LastWinsMap(annotations)
  {
    if variable.None? {
      return Failure(NullPointer);
    }
    var m := BuildAnnotationHashMap(annotations);
    if bounds.None? || |bounds.value| == 0 {
      return Failure(InvalidBounds);
    }
    r := Success(TypeVariableImpl(variable.value.name, variable.value.decl, m, bounds.value));
  }

  /** `new TypeVariableImpl(variable, bounds)`: the annotations are those of the
      source variable. */
  method NewTypeVariableOf(variable: Option<TypeVariable>, bounds: Option<seq<AType>>)
    returns (r: Result<TypeVariableImpl>)
    ensures variable.None? <==> r == Failure(NullPointer)
    ensures variable.Some? && (bounds.None? || bounds.value == []) <==> r == Failure(InvalidBounds)
    ensures variable.Some? && bounds.Some? && bounds.value != [] ==> r.Success?
    ensures r.Success? ==> Valid(r.value) && r.value.annotations == LastWinsMap(variable.value.annotations)
    ensures r.Success? ==> r.value.name == variable.value.name && r.value.decl == variable.value.decl
    ensures r.Success? ==> r.value.bounds == bounds.value
  {
    if variable.None? {
      return Failure(NullPointer);
    }
    r := NewTypeVariable(variable, variable.value.annotations, bounds);
  }

  /** `annotateBounds(bounds)`: an `IllegalArgumentException` for a missing or
      empty array, otherwise `GenericTypeReflector.annotate` of each bound. */
  function AnnotateBounds(bounds: Option<seq<RawType>>, annotate: RawType -> AType): (r: Result<seq<AType>>)
    ensures bounds.None? || bounds.value == [] <==> r == Failure(InvalidBounds)
    ensures bounds.Some? && bounds.value != [] ==> r.Success?
    ensures r.Success? ==> |r.value| == |bounds.value| >= 1
    ensures r.Success? ==> forall i :: 0 <= i < |r.value| ==> r.value[i] == annotate(bounds.value[i])
  {
    if bounds.None? || |bounds.value| == 0 then Failure(InvalidBounds)
    else Success(seq(|bounds.value|, i requires 0 <= i < |bounds.value| => annotate(bounds.value[i])))
  }

  /** `getBounds()`: the raw type of each annotated bound, in order. */
  function GetBounds(tv: TypeVariableImpl): (r: seq<RawType>)
    ensures |r| == |tv.bounds|
    ensures forall i :: 0 <= i < |r| ==> r[i] == RawOf(tv.bounds[i])
  {
    RawsOf(tv.bounds)
  }

  /** `getAnnotation(annotationClass)`: the value under that kind, `None` for `null`. */
  function GetAnnotation(tv: TypeVariableImpl, k: nat): (r: Option<Annotation>)
    ensures r.None? <==> k !in tv.annotations
    ensures r.Some? ==> r.value in GetAnnotations(tv)
    ensures Valid(tv) && r.Some? ==> r.value.kind == k
  {
    if k in tv.annotations then Some(tv.annotations[k]) else None
  }

  /** The values of an annotation map in iteration order. */
  function ValuesInOrder(m: map<nat, Annotation>): (r: seq<Annotation>)
    ensures |r| == |SortedKeys(m.Keys)|
    ensures forall i :: 0 <= i < |r| ==> r[i] == m[SortedKeys(m.Keys)[i]]
  {
    var keys := SortedKeys(m.Keys);
    seq(|keys|, i requires 0 <= i < |keys| => m[keys[i]])
  }

  /** `getAnnotations()` and `getDeclaredAnnotations()`: the map's values in iteration order. */
  function GetAnnotations(tv: TypeVariableImpl): (r: seq<Annotation>)
    ensures |r| == |tv.annotations|
    ensures forall i :: 0 <= i < |r| ==> r[i] in tv.annotations.Values
    ensures KeyedByKind(tv.annotations) ==> forall i, j :: 0 <= i < j < |r| ==> r[i].kind < r[j].kind
  {
    var r := ValuesInOrder(tv.annotations);
    assert |tv.annotations.Keys| == |tv.annotations|;
    r
  }

  /** A constructed variable answers `getAnnotation(c)` with the last annotation
      of kind `c` it was given, or `null`. */
  lemma GetAnnotationLastWins(variable: TypeVariable, annotations: seq<Annotation>, bounds: seq<AType>, k: nat)
    ensures GetAnnotation(TypeVariableImpl(variable.name, variable.decl, LastWinsMap(annotations), bounds), k)
         == AnnotatedTypes.LastOfKind(annotations, k)
  {
  }

  /** Equal `getAnnotations()` arrays of two constructed variables list the same kinds. */
  lemma SameValuesSameKeys(m1: map<nat, Annotation>, m2: map<nat, Annotation>)
    requires KeyedByKind(m1) && KeyedByKind(m2)
    requires ValuesInOrder(m1) == ValuesInOrder(m2)
    ensures SortedKeys(m1.Keys) == SortedKeys(m2.Keys)
  {
    var a1, a2 := ValuesInOrder(m1), ValuesInOrder(m2);
    var s1, s2 := SortedKeys(m1.Keys), SortedKeys(m2.Keys);
    forall i | 0 <= i < |s1| ensures s1[i] == s2[i] {
      assert s1[i] in m1 && s2[i] in m2;
      assert a1[i].kind == s1[i] && a2[i].kind == s2[i];
    }
  }

  /** Two key sets listed in the same iteration order are the same set. */
  lemma SameOrderSameSet(s1: set<nat>, s2: set<nat>)
    requires SortedKeys(s1) == SortedKeys(s2)
    ensures s1 == s2
  {
    forall k ensures k in s1 <==> k in s2 {
      assert k in SortedKeys(s1) <==> k in SortedKeys(s2);
    }
  }

  /** Equal `getAnnotations()` arrays over the same keys hold the same value under each key. */
  lemma SameValueAt(m1: map<nat, Annotation>, m2: map<nat, Annotation>, k: nat)
    requires ValuesInOrder(m1) == ValuesInOrder(m2) && m1.Keys == m2.Keys && k in m1
    ensures m1[k] == m2[k]
  {
    var s := SortedKeys(m1.Keys);
    var i :| 0 <= i < |s| && s[i] == k;
    assert ValuesInOrder(m1)[i] == m1[k] && ValuesInOrder(m2)[i] == m2[k];
  }

  /** Two annotation maps of constructed variables give equal `getAnnotations()`
      arrays exactly when they are the same map. */
  lemma {:induction false} AnnotationsDetermineMap(m1: map<nat, Annotation>, m2: map<nat, Annotation>)
    requires KeyedByKind(m1) && KeyedByKind(m2)
    ensures ValuesInOrder(m1) == ValuesInOrder(m2) <==> m1 == m2
  {
    if ValuesInOrder(m1) == ValuesInOrder(m2) {
      SameValuesSameKeys(m1, m2);
      SameOrderSameSet(m1.Keys, m2.Keys);
      forall k | k in m1 ensures m1[k] == m2[k] {
        SameValueAt(m1, m2, k);
      }
    }
  }

  /** `equals(other)`: `other` must be a `TypeVariableImpl` with equal name,
      equal annotation arrays, equal raw bound arrays and equal declaration. */
  predicate Equals(tv: TypeVariableImpl, other: Obj)
    ensures Equals(tv, other) ==> other.TypeVariableObj? && tv.name == other.tv.name && tv.decl == other.tv.decl
    ensures Equals(tv, other) && Valid(tv) && Valid(other.tv) ==> tv.annotations == other.tv.annotations
  {
    if !other.TypeVariableObj? then false
    else
      EqualArraysEqualMaps(tv.annotations, other.tv.annotations);
      tv.name == other.tv.name
      && GetAnnotations(tv) == GetAnnotations(other.tv)
      && GetBounds(tv) == GetBounds(other.tv)
      && tv.decl == other.tv.decl
  }

  /** Equal `getAnnotations()` arrays come from equal annotation maps. */
  lemma EqualArraysEqualMaps(m1: map<nat, Annotation>, m2: map<nat, Annotation>)
    ensures KeyedByKind(m1) && KeyedByKind(m2) && ValuesInOrder(m1) == ValuesInOrder(m2) ==> m1 == m2
  {
    if KeyedByKind(m1) && KeyedByKind(m2) {
      AnnotationsDetermineMap(m1, m2);
    }
  }
  /** Whatever order a `HashMap` lists its values in: one annotation array that
      lists exactly the values of two keyed-by-kind maps makes them the same map. */
  lemma EqualListingsEqualMaps(m1: map<nat, Annotation>, m2: map<nat, Annotation>, r: seq<Annotation>)
    requires KeyedByKind(m1) && KeyedByKind(m2)
    requires forall a :: a in r <==> a in m1.Values
    requires forall a :: a in r <==> a in m2.Values
    ensures m1 == m2
  {
    forall k | k in m1 ensures k in m2 && m2[k] == m1[k] {
      assert m1[k] in m1.Values;
      var k2 :| k2 in m2 && m2[k2] == m1[k];
    }
    forall k | k in m2 ensures k in m1 {
      assert m2[k] in m2.Values;
      var k1 :| k1 in m1 && m1[k1] == m2[k];
    }
  }


  /** For constructed variables, `equals` holds exactly when names, annotation
      maps, raw bounds and declarations agree; it is reflexive and false for any
      object that is not a `TypeVariableImpl`. */
  lemma EqualsIffFields(a: TypeVariableImpl, b: TypeVariableImpl, other: Obj)
    requires Valid(a) && Valid(b)
    ensures Equals(a, TypeVariableObj(b)) <==>
      a.name == b.name && a.annotations == b.annotations && GetBounds(a) == GetBounds(b) && a.decl == b.decl
    ensures Equals(a, TypeVariableObj(a))
    ensures !other.TypeVariableObj? ==> !Equals(a, other)
  {
    AnnotationsDetermineMap(a.annotations, b.annotations);
  }

  /** `hashCode()`: the sum of the name's hash and the bound array's hash, times
      127, combined by exclusive or with the sum of the declaration's hash and
      the annotation array's hash. */
  function HashCode(h: Hashers, tv: TypeVariableImpl): (r: Int32)
    ensures r == HashOf(h, tv.name, RawsOf(tv.bounds), tv.decl, ValuesInOrder(tv.annotations))
  {
    HashOf(h, tv.name, GetBounds(tv), tv.decl, GetAnnotations(tv))
  }

  /** The hash formula over the four compared parts. */
  function HashOf(h: Hashers, name: string, bounds: seq<RawType>, decl: Decl, anns: seq<Annotation>): Int32
  {
    Mix(127,
        h.str(name) + ArrayHash(RawHashes(h, bounds)),
        h.decl(decl) + ArrayHash(AnnotatedTypes.AnnotationHashes(h, anns)))
  }

  /** The `hashCode()` of each raw type of an array, in order. */
  function RawHashes(h: Hashers, ts: seq<RawType>): seq<Int32>
  {
    seq(|ts|, i requires 0 <= i < |ts| => h.raw(ts[i]))
  }

  /** `hashCode` reads only what `equals` compares, so equal variables hash alike. */
  lemma HashConsistent(h: Hashers, a: TypeVariableImpl, b: TypeVariableImpl)
    requires Equals(a, TypeVariableObj(b))
    ensures HashCode(h, a) == HashCode(h, b)
  {
  }
}
