/** `AnnotatedParameterizedTypeImpl`: an annotated generic type usage, the
    base annotated type plus its annotated type arguments. Equality and hashing
    of the argument array are `GenericTypeReflector.typeArraysEqual` and
    `GenericTypeReflector.hashCode`, which are not part of this model and are
    taken as parameters. */
module AnnotatedParameterizedTypes {
  import opened Types
  import AnnotatedTypes

  /** The constructor: the base constructor's null check and last-wins
      annotation map, then the argument array stored as given. */
  method NewAnnotatedParameterizedType(rawType: Option<RawType>, annotations: seq<Annotation>, typeArguments: seq<AType>)
    returns (r: Result<AType>)
    ensures rawType.None? <==> r == Failure(NullPointer)
    ensures rawType.Some? ==> r.Success? && r.value.AParam? && RawOf(r.value) == rawType.value
    ensures rawType.Some? ==> AnnotatedTypes.GetAnnotations(r.value) == AnnotatedTypes.FromSeq(annotations)
    ensures rawType.Some? ==> GetAnnotatedActualTypeArguments(r.value) == typeArguments
  {
    if rawType.None? {
      return Failure(NullPointer);
    }
    var m := AnnotatedTypes.BuildAnnotationMap(annotations);
    r := Success(AParam(rawType.value, m, typeArguments));
  }

  /** `getAnnotatedActualTypeArguments()`: the stored argument array. */
  function GetAnnotatedActualTypeArguments(t: AType): (r: seq<AType>)
    requires t.AParam?
    ensures t == AParam(t.raw, t.anns, r)
  {
    t.args
  }

  /** `equals(other)`: `other` must be an annotated parameterized type, the base
      `equals` must hold, and then the argument arrays decide. */
  predicate Equals(t: AType, other: Obj, typeArraysEqual: (seq<AType>, seq<AType>) -> bool)
    requires t.AParam?
    ensures Equals(t, other, typeArraysEqual) ==>
      other.AnnotatedTypeObj? && other.t.AParam? && typeArraysEqual(t.args, other.t.args)
    ensures Equals(t, other, typeArraysEqual) ==>
      AnnotatedTypes.Equals(t, other) && AnnotatedTypes.Equals(other.t, AnnotatedTypeObj(t))
  {
    if !(other.AnnotatedTypeObj? && other.t.AParam?) || !AnnotatedTypes.Equals(t, other) then false
    else typeArraysEqual(GetAnnotatedActualTypeArguments(t), GetAnnotatedActualTypeArguments(other.t))
  }

  /** `hashCode()`: the base hash times 31, combined by exclusive or with the
      hash of the argument array. */
  function HashCode(h: Hashers, t: AType): (r: Int32)
    requires t.AParam?
    ensures r == HashOfParts(AnnotatedTypes.HashCode(h, t), h.types(t.args))
  {
    Mix(31, AnnotatedTypes.HashCode(h, t), h.types(GetAnnotatedActualTypeArguments(t)))
  }

  /** The hash as a function of the base hash and the argument-array hash alone. */
  function HashOfParts(baseHash: Int32, argumentsHash: Int32): Int32
  {
    Mix(31, baseHash, argumentsHash)
  }

  /** `equals` is false for anything that is not an annotated parameterized type
      and whenever the base equality fails; otherwise it is exactly the
      comparison of the argument arrays. */
  lemma EqualsCases(t: AType, other: Obj, typeArraysEqual: (seq<AType>, seq<AType>) -> bool)
    requires t.AParam?
    ensures !(other.AnnotatedTypeObj? && other.t.AParam?) ==> !Equals(t, other, typeArraysEqual)
    ensures !AnnotatedTypes.Equals(t, other) ==> !Equals(t, other, typeArraysEqual)
    ensures other.AnnotatedTypeObj? && other.t.AParam? && AnnotatedTypes.Equals(t, other) ==>
      (Equals(t, other, typeArraysEqual) <==> typeArraysEqual(t.args, other.t.args))
  {
  }

  /** When the argument comparison is consistent with the argument hash, so is
      `hashCode` with `equals`. */
  lemma HashConsistent(h: Hashers, a: AType, b: AType, typeArraysEqual: (seq<AType>, seq<AType>) -> bool)
    requires a.AParam? && b.AParam?
    requires forall x, y :: typeArraysEqual(x, y) ==> h.types(x) == h.types(y)
    requires Equals(a, AnnotatedTypeObj(b), typeArraysEqual)
    ensures HashCode(h, a) == HashCode(h, b)
  {
    AnnotatedTypes.HashConsistent(h, a, b);
  }

  /** The two `equals` methods are not symmetric: a plain `AnnotatedTypeImpl`
      equals a parameterized one with the same raw type and annotations, but not
      the other way round. */
  lemma EqualsIsOneSided(raw: RawType, anns: seq<Annotation>, args: seq<AType>,
                         typeArraysEqual: (seq<AType>, seq<AType>) -> bool)
    ensures AnnotatedTypes.Equals(APlain(raw, anns), AnnotatedTypeObj(AParam(raw, anns, args)))
    ensures !Equals(AParam(raw, anns, args), AnnotatedTypeObj(APlain(raw, anns)), typeArraysEqual)
  {
  }

  /** `equals` as Java dispatches it: the parameterized class overrides the base one. */
  predicate DynamicEquals(t: AType, other: Obj, typeArraysEqual: (seq<AType>, seq<AType>) -> bool)
  {
    if t.AParam? then Equals(t, other, typeArraysEqual) else AnnotatedTypes.Equals(t, other)
  }

  /** `hashCode` as Java dispatches it. */
  function DynamicHashCode(h: Hashers, t: AType): Int32
  {
    if t.AParam? then HashCode(h, t) else AnnotatedTypes.HashCode(h, t)
  }

  /** As written, `equals` and `hashCode` disagree across the two classes: a
      plain type equals a parameterized one with the same raw type and no
      annotations, but the parameterized class mixes the argument hash into its
      own hash. */
  lemma EqualsHashMismatch(h: Hashers, raw: RawType, typeArraysEqual: (seq<AType>, seq<AType>) -> bool)
    requires h.raw(raw) == 1 && h.types([]) == 0
    ensures DynamicEquals(APlain(raw, []), AnnotatedTypeObj(AParam(raw, [], [])), typeArraysEqual)
    ensures DynamicHashCode(h, APlain(raw, [])) == 126
    ensures DynamicHashCode(h, AParam(raw, [], [])) == 3906
  {
    assert AnnotatedTypes.AnnotationHashes(h, []) == [];
  }

  /** `equals` with the class check the hash codes need: a plain type never
      equals a parameterized one, in either direction. */
  predicate CorrectedEquals(t: AType, other: Obj, typeArraysEqual: (seq<AType>, seq<AType>) -> bool)
  {
    if t.AParam? then Equals(t, other, typeArraysEqual)
    else AnnotatedTypes.Equals(t, other) && !other.t.AParam?
  }

  /** With the class check, equal objects hash alike whichever class each is,
      given an argument hash that agrees with `typeArraysEqual`. */
  lemma CorrectedHashConsistent(h: Hashers, a: AType, b: AType, typeArraysEqual: (seq<AType>, seq<AType>) -> bool)
    requires forall x, y :: typeArraysEqual(x, y) ==> h.types(x) == h.types(y)
    requires CorrectedEquals(a, AnnotatedTypeObj(b), typeArraysEqual)
    ensures DynamicHashCode(h, a) == DynamicHashCode(h, b)
  {
    if a.AParam? {
      HashConsistent(h, a, b, typeArraysEqual);
    } else {
      AnnotatedTypes.HashConsistent(h, a, b);
    }
  }
}
