/** The value layer shared by every part of the model: annotations, raw
    (unannotated) types, annotated type usages, type-variable records, the
    `Object` values that `equals` and the map's query methods receive, and
    the exceptions the core throws. */
module Types {

  datatype Option<T> = None | Some(value: T)

  datatype Result<T> = Success(value: T) | Failure(error: Error)

  /** The outcome of a `void` operation that may throw. */
  datatype Outcome = Pass | Fail(error: Error)

  /** The exceptions thrown by the core:
      - NullPointer: `Objects.requireNonNull` on a missing type, variable or backing map;
      - InvalidBounds: `IllegalArgumentException`, a type variable without bounds;
      - NotEmpty: `IllegalArgumentException`, a map wrapper over a non-empty backing map;
      - DuplicateKey: `IllegalStateException` from `Collectors.toMap`, two source keys
        with the same canonical form. */
  datatype Error = NullPointer | InvalidBounds | NotEmpty | DuplicateKey

  /** An annotation instance. `kind` stands for `annotationType()`, the class of
      the annotation; `value` stands for its member values. Annotation equality
      is value equality of both. */
  datatype Annotation = Annotation(kind: nat, value: nat)

  /** Identity of a `TypeVariable` object (a reference, compared with `==` the
      way `IdentityHashMap` compares keys). */
  type VarRef = nat

  /** A generic declaration (class, method or constructor) owning a type variable. */
  datatype Decl = Decl(id: nat)

  /** A raw `java.lang.reflect.Type`. Its `equals` lives outside the core, so it
      is modelled as value equality on an opaque handle:
      - RClass: a `Class`;
      - RVar: a type variable, up to `equals`: `key` abstracts whichever
        `equals` the variable's class has (declaration and name for a
        reflected variable, the four-part comparison of `TypeVariableImpl`),
        so distinct variable objects may share it;
      - ROther: any other raw type (parameterized, wildcard, generic array, capture),
        built by construction helpers that are not part of this model. */
  datatype RawType = RClass(id: nat) | RVar(key: nat) | ROther(id: nat)

  /** An annotated type usage, one case per node kind. `anns` is the node's
      annotation array as `getAnnotations()` returns it. */
  datatype AType =
    | APlain(raw: RawType, anns: seq<Annotation>)
    | AParam(raw: RawType, anns: seq<Annotation>, args: seq<AType>)
    | AWildcard(raw: RawType, anns: seq<Annotation>, lower: seq<AType>, upper: seq<AType>)
    // A variable usage: `v` is the identity of the variable object and `key`
    // what its `equals` compares. The model assumes every usage of one
    // identity carries the same key, as one Java object has one name and one
    // declaration; nothing checks this.
    | AVar(v: VarRef, key: nat, anns: seq<Annotation>)
    | AArray(raw: RawType, anns: seq<Annotation>, comp: AType)
    | ACapture(raw: RawType, anns: seq<Annotation>)

  /** `AnnotatedType.getType()`: the raw type of a usage. */
  function RawOf(t: AType): RawType
  {
    if t.AVar? then RVar(t.key) else t.raw
  }

  /** `getType()` applied to each element of an annotated-type array, in order. */
  function RawsOf(ts: seq<AType>): (r: seq<RawType>)
    ensures |r| == |ts|
    ensures forall i :: 0 <= i < |ts| ==> r[i] == RawOf(ts[i])
  {
    seq(|ts|, i requires 0 <= i < |ts| => RawOf(ts[i]))
  }

  /** The source of a type variable: `getName()`, `getGenericDeclaration()` and
      `getAnnotations()` are all the construction reads of it. */
  datatype TypeVariable = TypeVariable(name: string, decl: Decl, annotations: seq<Annotation>)

  /** A constructed `TypeVariableImpl`: its annotation `HashMap` keyed by
      annotation kind, and its annotated bounds. */
  datatype TypeVariableImpl = TypeVariableImpl(
    name: string, decl: Decl, annotations: map<nat, Annotation>, bounds: seq<AType>)

  /** An `Object` handed to `equals` or to a map query: an annotated type, a
      `TypeVariableImpl`, or anything else. */
  datatype Obj = AnnotatedTypeObj(t: AType) | TypeVariableObj(tv: TypeVariableImpl) | ForeignObj(id: nat)

  /** Java `int` arithmetic for hash codes. */
  type Int32 = bv32

  /** The `hashCode()` of the collaborators whose hashing is not part of the
      core: raw types, annotations, names, declarations, and
      `GenericTypeReflector.hashCode` of an annotated-type array. */
  datatype Hashers = Hashers(
    raw: RawType -> Int32, ann: Annotation -> Int32, str: string -> Int32,
    decl: Decl -> Int32, types: seq<AType> -> Int32)

  /** Java's `m * x ^ y` on `int`: multiply, then exclusive or. */
  function Mix(m: Int32, x: Int32, y: Int32): Int32
  {
    (m * x) ^ y
  }

  /** `Arrays.hashCode` over the element hashes: starting from 1, each element
      multiplies the running hash by 31 and adds its own hash, wrapping at 32 bits. */
  function ArrayHash(hs: seq<Int32>): Int32
  {
    if |hs| == 0 then 1 else 31 * ArrayHash(hs[..|hs| - 1]) + hs[|hs| - 1]
  }
}
