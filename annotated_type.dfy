/** `AnnotatedTypeImpl`: an annotated type usage whose annotations are kept in
    a `LinkedHashMap` keyed by annotation kind. The map is modelled as the
    sequence of its values in iteration order; the keys are the values' kinds,
    so the map invariant is that no two values share a kind. */
module AnnotatedTypes {
  import opened Types

  /** The keys of an annotation map, in iteration order. */
  function Kinds(m: seq<Annotation>): (r: seq<nat>)
    ensures |r| == |m|
    ensures forall i :: 0 <= i < |m| ==> r[i] == m[i].kind
  {
    seq(|m|, i requires 0 <= i < |m| => m[i].kind)
  }

  /** The map invariant: one value per annotation kind. */
  ghost predicate DistinctKinds(m: seq<Annotation>)
  {
    forall i, j :: 0 <= i < j < |m| ==> m[i].kind != m[j].kind
  }

  /** The slot holding kind `k`, if there is one. */
  function IndexOfKind(m: seq<Annotation>, k: nat): (r: Option<nat>)
    ensures r.None? <==> k !in Kinds(m)
    ensures r.Some? ==> r.value < |m| && m[r.value].kind == k
  {
    if |m| == 0 then None
    else if m[0].kind == k then Some(0)
    else match IndexOfKind(m[1..], k)
      case None => None
      case Some(i) => Some(i + 1)
  }

  /** `LinkedHashMap.get(annotationClass)`: the value stored under kind `k`,
      `None` standing for `null`. */
  function GetAnnotation(m: seq<Annotation>, k: nat): (r: Option<Annotation>)
    ensures r.None? <==> k !in Kinds(m)
    ensures r.Some? ==> r.value in m && r.value.kind == k
  {
    match IndexOfKind(m, k)
    case None => None
    case Some(i) => Some(m[i])
  }

  /** `LinkedHashMap.put` of an annotation under its kind: a kind already
      present keeps its slot and gets the new value; a new kind is appended. */
  function Put(m: seq<Annotation>, a: Annotation): (r: seq<Annotation>)
    requires DistinctKinds(m)
    ensures DistinctKinds(r)
    ensures GetAnnotation(r, a.kind) == Some(a)
    ensures forall k :: k != a.kind ==> GetAnnotation(r, k) == GetAnnotation(m, k)
    ensures a.kind in Kinds(m) ==> Kinds(r) == Kinds(m)
    ensures a.kind !in Kinds(m) ==> Kinds(r) == Kinds(m) + [a.kind]
  {
    match IndexOfKind(m, a.kind)
    case Some(i) =>
      var r := m[i := a];
      assert Kinds(r) == Kinds(m);
      assert forall k :: IndexOfKind(r, k) == IndexOfKind(m, k) by {
        forall k ensures IndexOfKind(r, k) == IndexOfKind(m, k) {
          SameKindsSameIndex(r, m, k);
        }
      }
      r
    case None =>
      var r := m + [a];
      assert Kinds(r) == Kinds(m) + [a.kind];
      forall k | k != a.kind ensures GetAnnotation(r, k) == GetAnnotation(m, k) {
        IndexOfKindAppend(m, a, k);
      }
      IndexOfKindAppend(m, a, a.kind);
      r
  }

  /** Where a kind sits depends only on the sequence of keys. */
  lemma {:induction false} SameKindsSameIndex(m1: seq<Annotation>, m2: seq<Annotation>, k: nat)
    requires Kinds(m1) == Kinds(m2)
    ensures IndexOfKind(m1, k) == IndexOfKind(m2, k)
  {
    if |m1| > 0 && m1[0].kind != k {
      assert Kinds(m1[1..]) == Kinds(m1)[1..];
      assert Kinds(m2[1..]) == Kinds(m2)[1..];
      SameKindsSameIndex(m1[1..], m2[1..], k);
    }
  }

  /** Appending a value of a new kind leaves every other slot where it was. */
  lemma {:induction false} IndexOfKindAppend(m: seq<Annotation>, a: Annotation, k: nat)
    requires a.kind !in Kinds(m)
    ensures IndexOfKind(m + [a], k) == if k == a.kind then Some(|m|) else IndexOfKind(m, k)
  {
    if |m| > 0 {
      assert (m + [a])[1..] == m[1..] + [a];
      assert Kinds(m[1..]) == Kinds(m)[1..];
      if m[0].kind != k {
        IndexOfKindAppend(m[1..], a, k);
      }
    } else {
      assert (m + [a])[0].kind == a.kind;
    }
  }

  /** The annotation map the constructor builds: `put` of every annotation of
      the array, in array order, into an empty `LinkedHashMap`. */
  function FromSeq(anns: seq<Annotation>): (r: seq<Annotation>)
    ensures DistinctKinds(r)
    ensures |r| <= |anns|
  {
    if |anns| == 0 then [] else Put(FromSeq(anns[..|anns| - 1]), anns[|anns| - 1])
  }

  /** The annotation of kind `k` that appears last in `anns`, if any. */
  function LastOfKind(anns: seq<Annotation>, k: nat): (r: Option<Annotation>)
    ensures r.None? <==> k !in Kinds(anns)
    ensures r.Some? ==> r.value.kind == k && r.value in anns
  {
    if |anns| == 0 then None
    else if anns[|anns| - 1].kind == k then Some(anns[|anns| - 1])
    else
      assert Kinds(anns[..|anns| - 1]) == Kinds(anns)[..|anns| - 1];
      LastOfKind(anns[..|anns| - 1], k)
  }

  /** The index at which kind `k` first appears in `anns`. */
  function FirstIndex(anns: seq<Annotation>, k: nat): (r: nat)
    requires k in Kinds(anns)
    ensures r < |anns| && anns[r].kind == k
    ensures forall j :: 0 <= j < r ==> anns[j].kind != k
  {
    var n := |anns| - 1;
    assert Kinds(anns[..n]) == Kinds(anns)[..n];
    if k in Kinds(anns[..n]) then FirstIndex(anns[..n], k) else n
  }

  /** `getAnnotation(c)` on a constructed type returns the last annotation of
      kind `c` in the constructor's array, or `null` when there was none. */
  lemma {:induction false} LastWins(anns: seq<Annotation>, k: nat)
    ensures GetAnnotation(FromSeq(anns), k) == LastOfKind(anns, k)
  {
    if |anns| > 0 {
      LastWins(anns[..|anns| - 1], k);
    }
  }

  /** The map holds exactly the kinds of the constructor's array, each in the
      slot of its first insertion: keys follow the order of first appearance. */
  lemma {:induction false} FirstInsertionOrder(anns: seq<Annotation>)
    ensures forall k :: k in Kinds(FromSeq(anns)) <==> k in Kinds(anns)
    ensures forall i, j :: 0 <= i < j < |FromSeq(anns)| ==>
      FirstIndex(anns, FromSeq(anns)[i].kind) < FirstIndex(anns, FromSeq(anns)[j].kind)
  {
    if |anns| > 0 {
      var n := |anns| - 1;
      var p, a := anns[..n], anns[n];
      assert anns == p + [a];
      assert Kinds(p) == Kinds(anns)[..n];
      FirstInsertionOrder(p);
      var r0 := FromSeq(p);
      var r := FromSeq(anns);
      assert r == Put(r0, a);
      forall k | k in Kinds(p) ensures FirstIndex(anns, k) == FirstIndex(p, k) {
      }
      if a.kind in Kinds(r0) {
        assert Kinds(r) == Kinds(r0);
        forall i | 0 <= i < |r| ensures r[i].kind == r0[i].kind {
          assert Kinds(r)[i] == Kinds(r0)[i];
        }
      } else {
        assert Kinds(r) == Kinds(r0) + [a.kind];
        forall i | 0 <= i < |r| ensures r[i].kind == (Kinds(r0) + [a.kind])[i] {
          assert Kinds(r)[i] == r[i].kind;
        }
        assert FirstIndex(anns, a.kind) == n;
      }
    }
  }

  /** Rebuilding a map from its own values gives the same map: building an
      `AnnotatedTypeImpl` from another's `getAnnotations()` keeps them as they were. */
  lemma {:induction false} FromSeqOfMap(m: seq<Annotation>)
    requires DistinctKinds(m)
    ensures FromSeq(m) == m
  {
    if |m| > 0 {
      var n := |m| - 1;
      assert m == m[..n] + [m[n]];
      FromSeqOfMap(m[..n]);
      assert m[n].kind !in Kinds(m[..n]);
    }
  }

  /** One more `put` extends the map built from a prefix of the array. */
  lemma FromSeqStep(anns: seq<Annotation>, i: nat)
    requires i < |anns|
    ensures FromSeq(anns[..i + 1]) == Put(FromSeq(anns[..i]), anns[i])
  {
    assert anns[..i + 1][..i] == anns[..i];
  }

  /** The constructor's loop: an empty `LinkedHashMap` and one `put` per annotation. */
  method BuildAnnotationMap(annotations: seq<Annotation>) returns (m: seq<Annotation>)
    ensures m == FromSeq(annotations)
  {
    m := [];
    var i := 0;
    while i < |annotations|
      invariant 0 <= i <= |annotations|
      invariant m == FromSeq(annotations[..i])
    {
      FromSeqStep(annotations, i);
      m := Put(m, annotations[i]);
      i := i + 1;
    }
    assert annotations[..i] == annotations;
  }

  /** `new AnnotatedTypeImpl(type, annotations)`: `requireNonNull(type)`, then the
      annotation map. */
  method NewAnnotatedType(t: Option<RawType>, annotations: seq<Annotation>) returns (r: Result<AType>)
    ensures t.None? <==> r == Failure(NullPointer)
    ensures t.Some? ==> r.Success? && r.value.APlain? && RawOf(r.value) == t.value
    ensures t.Some? ==> r.value.anns == FromSeq(annotations)
  {
    if t.None? {
      return Failure(NullPointer);
    }
    var m := BuildAnnotationMap(annotations);
    r := Success(APlain(t.value, m));
  }

  /** `getAnnotations()` and `getDeclaredAnnotations()`: the map's values in
      iteration order. */
  function GetAnnotations(t: AType): (r: seq<Annotation>)
    ensures forall k :: GetAnnotation(t.anns, k).Some? ==> GetAnnotation(t.anns, k).value in r
    ensures DistinctKinds(t.anns) ==> forall i :: 0 <= i < |r| ==> GetAnnotation(t.anns, r[i].kind) == Some(r[i])
  {
    t.anns
  }

  /** `equals(other)`: `other` must be an annotated type with an equal raw type
      and an equal annotation array, compared element by element in order.
      Type arguments, bounds and components are not looked at. */
  predicate Equals(t: AType, other: Obj)
    ensures other == AnnotatedTypeObj(t) ==> Equals(t, other)
    ensures Equals(t, other) ==>
      other.AnnotatedTypeObj? && forall k :: GetAnnotation(t.anns, k) == GetAnnotation(other.t.anns, k)
  {
    other.AnnotatedTypeObj?
    && RawOf(t) == RawOf(other.t)
    && GetAnnotations(t) == GetAnnotations(other.t)
  }

  /** `hashCode()`: the raw type's hash times 127, combined by exclusive or with
      the array hash of the annotations. */
  function HashCode(h: Hashers, t: AType): (r: Int32)
    ensures r == HashOfParts(h.raw(RawOf(t)), AnnotationHashes(h, GetAnnotations(t)))
  {
    Mix(127, h.raw(RawOf(t)), ArrayHash(AnnotationHashes(h, GetAnnotations(t))))
  }

  /** The hash as a function of the raw type's hash and the annotations' hashes alone. */
  function HashOfParts(rawHash: Int32, annotationHashes: seq<Int32>): Int32
  {
    Mix(127, rawHash, ArrayHash(annotationHashes))
  }

  /** The `hashCode()` of each annotation of an array, in order. */
  function AnnotationHashes(h: Hashers, anns: seq<Annotation>): seq<Int32>
  {
    seq(|anns|, i requires 0 <= i < |anns| => h.ann(anns[i]))
  }

  /** `equals` is reflexive and false for any object that is not an annotated type. */
  lemma EqualsReflexive(t: AType, other: Obj)
    ensures Equals(t, AnnotatedTypeObj(t))
    ensures !other.AnnotatedTypeObj? ==> !Equals(t, other)
  {
  }

  /** Equal annotated types have equal hash codes, whatever the collaborators' hashes. */
  lemma HashConsistent(h: Hashers, a: AType, b: AType)
    requires Equals(a, AnnotatedTypeObj(b))
    ensures HashCode(h, a) == HashCode(h, b)
  {
  }

  /** The base `equals` ignores type arguments: two parameterized usages with
      the same raw type and annotations are equal under it whatever their arguments. */
  lemma BaseEqualsIgnoresArguments(raw: RawType, anns: seq<Annotation>, args1: seq<AType>, args2: seq<AType>)
    ensures Equals(AParam(raw, anns, args1), AnnotatedTypeObj(AParam(raw, anns, args2)))
  {
  }

  /** Annotation arrays are compared in order: the same two annotations in the
      other order make the types unequal. */
  lemma EqualsIsOrderSensitive(raw: RawType, a: Annotation, b: Annotation)
    requires a != b
    ensures !Equals(APlain(raw, [a, b]), AnnotatedTypeObj(APlain(raw, [b, a])))
  {
    assert GetAnnotations(APlain(raw, [a, b]))[0] == a;
  }
}
