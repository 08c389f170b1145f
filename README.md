# geantyref annotated-type core, modelled in Dafny

This project models the value layer and the rewriting machinery of
geantyref's annotated types:

- `AnnotatedTypeImpl`: an annotated type usage. It holds a raw type and an
  ordered, last-wins annotation map (a `LinkedHashMap` keyed by annotation kind).
  It also defines `equals` and `hashCode`.
- `AnnotatedParameterizedTypeImpl`: the base type plus its annotated type arguments.
- `TypeVariableImpl`: a synthetic type variable. It holds a name, a generic
  declaration, an annotation `HashMap` and at least one annotated bound.
- `TypeVisitor`: rewrites a type one node kind at a time. Cycles through
  type-variable bounds are broken by an identity-keyed cache of placeholder
  variables. Each placeholder's bounds are set once, by `init`.
- `AnnotatedTypeMap`: a `Map<AnnotatedType, V>` that passes every key through
  `GenericTypeReflector.toCanonical` before it reaches a backing map.

Layout:

- `types.dfy`: the shared data model. It holds annotations (a kind and an opaque
  value), raw types, annotated types, type variables, Java `Object` arguments
  (`Obj`), error kinds, and 32-bit hash arithmetic (`bv32`). A type-variable
  usage carries two things: the identity of the variable object, which the
  visitor's `IdentityHashMap` compares, and an equality key that abstracts
  whichever `equals` the variable's class has: declaration and name for a
  reflected variable, name, annotations, raw bounds and declaration for a
  `TypeVariableImpl`. Distinct variable objects can therefore be equal.
- `annotated_type.dfy`, `annotated_parameterized_type.dfy` and `type_variable.dfy`:
  the node classes. Their constructors are methods with a loop over the
  annotation array. Their queries, `equals` and `hashCode` are functions and predicates.
- `type_visitor.dfy`: the visitor, as a class. Its `varCache` and placeholder
  cells are `map` fields, and the visit methods change them.
- `annotated_type_map.dfy`: the map wrapper, as a class with a `map` field.

Collaborators whose code is not part of this model are parameters with no
properties assumed:

- `GenericTypeReflector.toCanonical`: a function field of the map.
- `typeArraysEqual` and `GenericTypeReflector.hashCode(AnnotatedType[])`.
- The raw-type constructors used by `replaceParameters`, `WildcardTypeImpl` and
  `GenericArrayTypeImpl.createArrayType`: the `Builders` record.
- `annotate`.
- The `hashCode` of raw types, annotations, strings and declarations: the
  `Hashers` record.

Where a set-based reading of annotated-type equality would differ from the code,
the model follows the code:

- Annotation arrays are compared element by element, in order, not as sets.
- The base `equals` ignores type arguments, bounds and components.
- `equals` between a plain and a parameterized type is one-sided.

## Model

| member | source | states |
|---|---|---|
| AnnotatedTypes.Put | src/main/java/io/leangen/geantyref/AnnotatedTypeImpl.java:30 | `LinkedHashMap.put` keeps at most one annotation per kind. The new annotation is found under its kind and every other kind's answer is unchanged. A known kind keeps its slot; a new kind is appended. |
| AnnotatedTypes.FromSeq | src/main/java/io/leangen/geantyref/AnnotatedTypeImpl.java:28-31 | The map built from an annotation array has pairwise distinct kinds and is no longer than the array. |
| AnnotatedTypes.LastWins | src/main/java/io/leangen/geantyref/AnnotatedTypeImpl.java:28-31 | `getAnnotation(k)` on the built map is the last annotation of kind `k` in the array, or none if there is none. |
| AnnotatedTypes.FirstInsertionOrder | src/main/java/io/leangen/geantyref/AnnotatedTypeImpl.java:28-31 | The map holds exactly the kinds of the array, ordered by each kind's first appearance. |
| AnnotatedTypes.FromSeqOfMap | src/main/java/io/leangen/geantyref/AnnotatedTypeImpl.java:28-31 | Rebuilding a map from its own values gives the same map, so a copy made from `getAnnotations()` keeps the annotations and their order. |
| AnnotatedTypes.BuildAnnotationMap | src/main/java/io/leangen/geantyref/AnnotatedTypeImpl.java:28-31 | The constructor's loop, one `put` per annotation, yields the map `FromSeq` specifies. |
| AnnotatedTypes.NewAnnotatedType | src/main/java/io/leangen/geantyref/AnnotatedTypeImpl.java:26-32 | It fails with a null-pointer error exactly when the type is missing. Otherwise it holds that raw type and the last-wins ordered annotation map. |
| AnnotatedTypes.GetAnnotation | src/main/java/io/leangen/geantyref/AnnotatedTypeImpl.java:54-56 | `getAnnotation(k)` answers null exactly when kind `k` is not stored. Otherwise it answers a stored annotation of kind `k`. |
| AnnotatedTypes.GetAnnotations | src/main/java/io/leangen/geantyref/AnnotatedTypeImpl.java:59-67 | Every annotation `getAnnotation` can answer is listed. When kinds are distinct, as in every constructed map, each listed annotation is what `getAnnotation` answers for its kind. |
| AnnotatedTypes.Equals | src/main/java/io/leangen/geantyref/AnnotatedTypeImpl.java:70-79 | A type equals itself. If `equals` holds, the other object is an annotated type that answers `getAnnotation` the same for every kind. |
| AnnotatedTypes.HashCode | src/main/java/io/leangen/geantyref/AnnotatedTypeImpl.java:82-84 | The hash is a function of the raw type's hash and the annotations' hashes alone. |
| AnnotatedTypes.LastOfKind | src/main/java/io/leangen/geantyref/AnnotatedTypeImpl.java:28-31 | The last annotation of a kind exists exactly when the kind occurs, and is then one of the supplied annotations, of that kind. |
| AnnotatedTypes.EqualsReflexive | src/main/java/io/leangen/geantyref/AnnotatedTypeImpl.java:70-79 | `equals` holds of a type and itself. It is false for any object that is not an annotated type. |
| AnnotatedTypes.HashConsistent | src/main/java/io/leangen/geantyref/AnnotatedTypeImpl.java:82-84 | Types that are base-`equals` give equal values of the base `hashCode` formula under any element hashes. For two plain types that is their Java `hashCode`. A parameterized type overrides it, and across the two classes the agreement fails (see Findings). |
| AnnotatedTypes.BaseEqualsIgnoresArguments | src/main/java/io/leangen/geantyref/AnnotatedTypeImpl.java:77-78 | The base `equals` compares only raw types and annotations. Two parameterized usages with any arguments are equal under it. |
| AnnotatedTypes.EqualsIsOrderSensitive | src/main/java/io/leangen/geantyref/AnnotatedTypeImpl.java:78 | The same two distinct annotations in the other order make two types unequal. |
| AnnotatedParameterizedTypes.NewAnnotatedParameterizedType | src/main/java/io/leangen/geantyref/AnnotatedParameterizedTypeImpl.java:14-17 | It has the base constructor's null check and last-wins ordered annotations. `getAnnotatedActualTypeArguments` then returns exactly the given argument array. |
| AnnotatedParameterizedTypes.GetAnnotatedActualTypeArguments | src/main/java/io/leangen/geantyref/AnnotatedParameterizedTypeImpl.java:20-22 | The returned array, with the raw type and annotations, rebuilds the type: nothing else is stored. |
| AnnotatedParameterizedTypes.Equals | src/main/java/io/leangen/geantyref/AnnotatedParameterizedTypeImpl.java:25-30 | If `equals` holds, the other object is parameterized and `typeArraysEqual` holds of the argument arrays. Base equality then holds in both directions. |
| AnnotatedParameterizedTypes.HashCode | src/main/java/io/leangen/geantyref/AnnotatedParameterizedTypeImpl.java:33-35 | The hash is a function of the base hash and the argument-array hash alone. |
| AnnotatedParameterizedTypes.EqualsCases | src/main/java/io/leangen/geantyref/AnnotatedParameterizedTypeImpl.java:25-30 | `equals` is false for a non-parameterized object and whenever base equality fails. Otherwise it is exactly `typeArraysEqual` of the argument arrays. |
| AnnotatedParameterizedTypes.HashConsistent | src/main/java/io/leangen/geantyref/AnnotatedParameterizedTypeImpl.java:33-35 | When the argument hash agrees with `typeArraysEqual`, `equals` implies equal `hashCode`s. |
| AnnotatedParameterizedTypes.EqualsHashMismatch | src/main/java/io/leangen/geantyref/AnnotatedParameterizedTypeImpl.java:33-35 | As written, a plain type equals a parameterized one with the same raw type and no annotations, yet with the raw hash 1 and the argument hash 0 their hash codes are 126 and 3906. |
| AnnotatedParameterizedTypes.CorrectedHashConsistent | src/main/java/io/leangen/geantyref/AnnotatedTypeImpl.java:70-84 | With a class check in `equals`, so that a plain type never equals a parameterized one, equal objects hash alike whichever class each is. This assumes the argument hash agrees with `typeArraysEqual`. |
| AnnotatedParameterizedTypes.EqualsIsOneSided | src/main/java/io/leangen/geantyref/AnnotatedParameterizedTypeImpl.java:25-30 | A plain type equals a parameterized one with the same raw type and annotations. The parameterized one does not equal the plain one. |
| TypeVariables.MinOf | src/main/java/io/leangen/geantyref/TypeVariableImpl.java:78-80 | It is the least element of a non-empty set of kinds (used to fix the iteration order). |
| TypeVariables.SortedKeys | src/main/java/io/leangen/geantyref/TypeVariableImpl.java:78-80 | The iteration order of the annotation `HashMap` lists each key exactly once, in ascending order. |
| TypeVariables.LastWinsMap | src/main/java/io/leangen/geantyref/TypeVariableImpl.java:34-37 | The constructor's `HashMap` has exactly the kinds of the array, each value stored under its own kind. |
| TypeVariables.BuildAnnotationHashMap | src/main/java/io/leangen/geantyref/TypeVariableImpl.java:34-37 | The constructor's loop, one `put` per annotation, yields `LastWinsMap` of the array. |
| TypeVariables.NewTypeVariable | src/main/java/io/leangen/geantyref/TypeVariableImpl.java:30-42 | A missing variable is a null-pointer error. Missing or empty bounds are an invalid-argument error. Otherwise name and declaration are copied, the bounds are stored as given and the annotations are last-wins. Every constructed instance has at least one bound. |
| TypeVariables.NewTypeVariableOf | src/main/java/io/leangen/geantyref/TypeVariableImpl.java:26-28 | It is the same as `NewTypeVariable`, with the source variable's own annotations. |
| TypeVariables.AnnotateBounds | src/main/java/io/leangen/geantyref/TypeVariableImpl.java:44-49 | A missing or empty bound array is an invalid-argument error. Otherwise the result is `annotate` of each bound, same length and order. |
| TypeVariables.GetBounds | src/main/java/io/leangen/geantyref/TypeVariableImpl.java:52-54 | It returns the raw type of each annotated bound, same length, position by position. |
| TypeVariables.GetAnnotation | src/main/java/io/leangen/geantyref/TypeVariableImpl.java:73-75 | `getAnnotation(k)` answers null exactly when kind `k` is not stored. Otherwise it answers an annotation that `getAnnotations()` lists and, on a constructed variable, is of kind `k`. |
| TypeVariables.GetAnnotations | src/main/java/io/leangen/geantyref/TypeVariableImpl.java:78-86 | One stored annotation per key, each taken from the map. On a constructed variable no two listed annotations share a kind. |
| TypeVariables.Equals | src/main/java/io/leangen/geantyref/TypeVariableImpl.java:95-105 | If `equals` holds, the other object is a `TypeVariableImpl` with the same name and declaration. For constructed variables the annotation maps are then equal. |
| TypeVariables.EqualArraysEqualMaps | src/main/java/io/leangen/geantyref/TypeVariableImpl.java:103 | Under the model's ascending iteration order, equal `getAnnotations()` arrays come from equal annotation maps. |
| TypeVariables.EqualListingsEqualMaps | src/main/java/io/leangen/geantyref/TypeVariableImpl.java:103 | Whatever the iteration order: if one annotation array lists exactly the values of two annotation maps, the maps are the same. So equal `getAnnotations()` arrays mean equal maps. |
| TypeVariables.HashCode | src/main/java/io/leangen/geantyref/TypeVariableImpl.java:89-92 | The hash is a function of the name, the raw bounds, the declaration and the annotations alone. |
| TypeVariables.ValuesInOrder | src/main/java/io/leangen/geantyref/TypeVariableImpl.java:78-80 | `getAnnotations()` lists the value under each key in iteration order. |
| TypeVariables.GetAnnotationLastWins | src/main/java/io/leangen/geantyref/TypeVariableImpl.java:34-37 | On a constructed variable, `getAnnotation(k)` is the last annotation of kind `k` supplied, or none. |
| TypeVariables.AnnotationsDetermineMap | src/main/java/io/leangen/geantyref/TypeVariableImpl.java:103 | Two annotation maps give equal `getAnnotations()` arrays exactly when they are the same map. |
| TypeVariables.EqualsIffFields | src/main/java/io/leangen/geantyref/TypeVariableImpl.java:95-105 | `equals` holds exactly when name, annotation map, raw bounds and declaration agree. It is reflexive and false for a non-`TypeVariableImpl`. |
| TypeVariables.HashConsistent | src/main/java/io/leangen/geantyref/TypeVariableImpl.java:89-92 | Variables that are `equals` have equal `hashCode`s. |
| Visitors.SizeAll | src/main/java/io/leangen/geantyref/TypeVisitor.java:24-28 | The size of a list of usages bounds the size of each member, which gives the visits their termination measure. |
| Visitors.RenamedGrows | src/main/java/io/leangen/geantyref/TypeVisitor.java:21 | A rewrite that holds against the cache still holds after the cache gains entries, because entries are never replaced. |
| Visitors.TypeVisitor.constructor | src/main/java/io/leangen/geantyref/TypeVisitor.java:21 | A new visitor has an empty variable cache and no placeholders. |
| Visitors.TypeVisitor.Transform | src/main/java/io/leangen/geantyref/TypeVisitor.java:25 | Dispatch to the visit method for the node's kind. The result is the rewrite of the input against the final cache, and the cache only grows. Started with no placeholder awaiting `init`, it leaves none awaiting. Its new cache keys lie within any set of variables that the input and those variables' bounds never leave. In particular, an input that meets no uncached variable leaves the cache, the cells and the next placeholder identity unchanged. |
| Visitors.TypeVisitor.TransformAll | src/main/java/io/leangen/geantyref/TypeVisitor.java:24-28 | Each element is transformed in order. The count is kept, and each result is that element's rewrite. New cache keys are confined in the same way as for `Transform`, and elements that meet no uncached variable leave the visitor unchanged. |
| Visitors.TypeVisitor.VisitParameterizedType | src/main/java/io/leangen/geantyref/TypeVisitor.java:23-29 | Annotations are kept and arguments are transformed in order, with their count kept. The raw type is rebuilt from the old raw type and the new arguments' raw types. Its new cache keys lie within any set of variables that the input and those variables' bounds never leave. In particular, an input that meets no uncached variable leaves the cache, the cells and the next placeholder identity unchanged. |
| Visitors.TypeVisitor.VisitWildcardType | src/main/java/io/leangen/geantyref/TypeVisitor.java:31-43 | Lower and upper bounds are transformed separately, in order. The new raw wildcard is built from the raw upper and lower bounds, and annotations are kept. Its new cache keys lie within any set of variables that the input and those variables' bounds never leave. In particular, an input that meets no uncached variable leaves the cache, the cells and the next placeholder identity unchanged. |
| Visitors.TypeVisitor.VisitVariable | src/main/java/io/leangen/geantyref/TypeVisitor.java:45-57 | On a cache hit it returns the cached placeholder and changes nothing. Otherwise it returns a fresh placeholder with the usage's annotations, cached under the variable. The placeholder's cell then holds the transformed bounds. Its new cache keys lie within any set of variables that the variable and those variables' bounds never leave. |
| Visitors.TypeVisitor.CachePlaceholder | src/main/java/io/leangen/geantyref/TypeVisitor.java:50-51 | A fresh placeholder with an empty cell is cached under the variable before any bound is visited. |
| Visitors.TypeVisitor.Init | src/main/java/io/leangen/geantyref/TypeVisitor.java:55 | It sets a placeholder's still-empty cell once, to the transformed bounds. |
| Visitors.TypeVisitor.VisitArray | src/main/java/io/leangen/geantyref/TypeVisitor.java:59-62 | The component is transformed and the annotations are kept. The raw array type is built from the new component's raw type. Its new cache keys lie within any set of variables that the input and those variables' bounds never leave. In particular, an input that meets no uncached variable leaves the cache, the cells and the next placeholder identity unchanged. |
| Visitors.TypeVisitor.VisitCaptureType | src/main/java/io/leangen/geantyref/TypeVisitor.java:64-66 | It returns its argument unchanged. |
| Visitors.TypeVisitor.VisitClass | src/main/java/io/leangen/geantyref/TypeVisitor.java:68-70 | It returns its argument unchanged. |
| Visitors.TypeVisitor.VisitUnmatched | src/main/java/io/leangen/geantyref/TypeVisitor.java:72-74 | It returns its argument unchanged. |
| Visitors.SelfBoundedVariable | src/main/java/io/leangen/geantyref/TypeVisitor.java:45-57 | Visiting `T extends Comparable<T>` terminates. The placeholder's bound refers back to the placeholder itself. |
| Visitors.EqualVariablesDistinctPlaceholders | src/main/java/io/leangen/geantyref/TypeVisitor.java:21 | The cache is keyed by identity, not `equals`. Two distinct variable objects that are equal, whose usages are equal annotated types, get distinct placeholders even with the same bounds. |
| Visitors.UnreachedVariableStaysUncached | src/main/java/io/leangen/geantyref/TypeVisitor.java:45-57 | Transforming a variable bounded by a class caches that variable alone, not another variable of the graph. A class usage transformed afterwards leaves the cache as it is. |
| TypeMaps.CollectCanonical | src/main/java/io/leangen/geantyref/AnnotatedTypeMap.java:117-119 | It fails with a duplicate-key error exactly when two source keys share a canonical form. Otherwise its keys are the canonical forms and each holds its source value. |
| TypeMaps.NewAnnotatedTypeMap | src/main/java/io/leangen/geantyref/AnnotatedTypeMap.java:48-54 | A missing backing map is a null-pointer error. A non-empty one is an invalid-argument error. Otherwise the wrapper starts empty. |
| TypeMaps.AnnotatedTypeMap.constructor | src/main/java/io/leangen/geantyref/AnnotatedTypeMap.java:39-41 | The default constructor starts with an empty backing map. |
| TypeMaps.AnnotatedTypeMap.Size | src/main/java/io/leangen/geantyref/AnnotatedTypeMap.java:60-62 | The number of distinct canonical keys stored. |
| TypeMaps.AnnotatedTypeMap.IsEmpty | src/main/java/io/leangen/geantyref/AnnotatedTypeMap.java:68-70 | True exactly when the backing map is empty. |
| TypeMaps.AnnotatedTypeMap.ContainsKey | src/main/java/io/leangen/geantyref/AnnotatedTypeMap.java:76-78 | True exactly when the key is an annotated type whose canonical form is stored. |
| TypeMaps.AnnotatedTypeMap.ContainsValue | src/main/java/io/leangen/geantyref/AnnotatedTypeMap.java:84-86 | Always false, whatever the map holds. This departs from the `Map` contract the method inherits (see Findings). |
| TypeMaps.AnnotatedTypeMap.CorrectedContainsValue | src/main/java/io/leangen/geantyref/AnnotatedTypeMap.java:80-86 | As the inherited `Map` contract describes it: true exactly when some stored entry holds the value. |
| TypeMaps.AnnotatedTypeMap.Get | src/main/java/io/leangen/geantyref/AnnotatedTypeMap.java:92-94 | It returns the value under the canonical form, or null for a non-annotated-type key or an absent one. |
| TypeMaps.AnnotatedTypeMap.GetOrDefault | src/main/java/io/leangen/geantyref/AnnotatedTypeMap.java:176-178 | It returns the stored value under the canonical form, otherwise the default. |
| TypeMaps.AnnotatedTypeMap.Put | src/main/java/io/leangen/geantyref/AnnotatedTypeMap.java:100-102 | It stores the value under the canonical form and returns the previous value there. |
| TypeMaps.AnnotatedTypeMap.Remove | src/main/java/io/leangen/geantyref/AnnotatedTypeMap.java:108-110 | A non-annotated-type key returns null and changes nothing. Otherwise the canonical entry is removed and its value returned. |
| TypeMaps.AnnotatedTypeMap.PutAll | src/main/java/io/leangen/geantyref/AnnotatedTypeMap.java:116-121 | It fails, changing nothing, exactly when two source keys share a canonical form. Otherwise every source value is stored under its key's canonical form and other entries are untouched. |
| TypeMaps.AnnotatedTypeMap.Clear | src/main/java/io/leangen/geantyref/AnnotatedTypeMap.java:127-129 | The backing map becomes empty. |
| TypeMaps.AnnotatedTypeMap.PutIfAbsent | src/main/java/io/leangen/geantyref/AnnotatedTypeMap.java:200-202 | An existing value under the canonical form is returned and kept. Otherwise the new one is stored. |
| TypeMaps.AnnotatedTypeMap.RemoveEntry | src/main/java/io/leangen/geantyref/AnnotatedTypeMap.java:208-210 | The entry is removed, answering true, exactly when the key is an annotated type whose canonical entry maps to the value. Otherwise nothing changes. |
| TypeMaps.AnnotatedTypeMap.ReplaceIf | src/main/java/io/leangen/geantyref/AnnotatedTypeMap.java:216-218 | The value is updated, answering true, exactly when the canonical entry maps to the old value. Otherwise nothing changes. |
| TypeMaps.AnnotatedTypeMap.Replace | src/main/java/io/leangen/geantyref/AnnotatedTypeMap.java:224-226 | Only an existing canonical entry is updated, and its previous value is returned. |
| TypeMaps.PutEachKeys | src/main/java/io/leangen/geantyref/AnnotatedTypeMap.java:100-102 | After a series of `put`s the keys are the old keys plus the canonical forms put. Under each canonical form put, the value is that of the last entry with that form. Every other entry keeps its old value. |
| TypeMaps.SameCanonicalFormSharesEntry | src/main/java/io/leangen/geantyref/AnnotatedTypeMap.java:60-102 | Two distinct keys with the same canonical form share one entry. After both are put the size is 1 and the first key finds the second value. |
| TypeMaps.ContainsValueAfterPut | src/main/java/io/leangen/geantyref/AnnotatedTypeMap.java:84-86 | Right after `put(k, v)`, `containsKey(k)` holds and `containsValue(v)` answers false as written. The corrected method answers true. |

## Left out

- `toString`, `annotationsString` and `typesString`: these only join opaque
  `Annotation.toString()` results.
- `getAnnotatedOwnerType`: it needs reflection on the enclosing class.
  `getDeclaredAnnotations` equals `getAnnotations` in both node classes, so it
  has no member of its own.
- The trivial getters `getType`, `getName`, `getGenericDeclaration` and
  `getAnnotatedBounds`: they are the datatypes' fields.
- `AnnotatedTypeMap.keySet`, `values`, `entrySet`, `equals` and `hashCode`: live
  views and delegations to the backing map.
- `AnnotatedTypeMap.forEach`, `replaceAll`, `computeIfAbsent`, `computeIfPresent`,
  `compute` and `merge`: they run caller-supplied functions. Beyond key
  canonicalisation they are pure pass-through.
- `TypeMaps.NewAnnotatedTypeMap`: the wrapper gets its own backing map. Aliasing
  with the map the caller passed in, and later changes made through that alias,
  are not modelled.
- Null keys and null values are not modelled. A stored value is never `null`,
  so `getOrDefault` and `putIfAbsent` never meet a present-but-null entry.
- Thread safety of the backing map and of a shared visitor is not modelled.
  Use is single-threaded.
- Reference identity (`this == other`) in `equals` is not modelled. The model
  compares values, and the structural conjunction already holds for identical objects.
- `TypeVariables.SortedKeys`: Java's `HashMap` iteration order depends on the
  annotation classes' hash codes and, for keys in the same bucket, on the order
  of insertion. The model fixes it as ascending annotation kind, so
  `getAnnotations()` order is a function of the map alone.
- `TypeVariables.AnnotationsDetermineMap`: only the direction from equal
  `getAnnotations()` arrays to equal maps holds in Java (`EqualListingsEqualMaps`).
  Two equal maps filled in different orders, with kinds sharing a bucket, may
  list their values in different orders.
- `TypeVariables.EqualsIffFields`: for the same reason, Java may answer `equals`
  false for two variables whose maps are equal but were filled in different
  orders. The model answers true.
- `Visitors.TypeVisitor.Transform`: `GenericTypeReflector.transform` is not part
  of this model. It is modelled as dispatch on the node's kind, and a plain usage
  goes to `visitClass` only when its raw type is a class.
- `Visitors.TypeVisitor.VisitParameterizedType`: `replaceParameters` is not part of
  this model. It is modelled as a new parameterized usage with the original
  annotations, the new arguments, and a raw type built by an abstract function.
- `Visitors.TypeVisitor.VisitVariable`: the bounds of a type variable come from an
  input graph keyed by the variable's identity (`bounds`). The bounds therefore
  belong to the variable, not to the particular annotated usage. A placeholder is a
  fresh variable identity, and its bound array lives in a write-once cell.
- `Visitors.TypeVisitor.VisitVariable`: as in the source, a second usage of a cached
  variable gets the first usage's placeholder, with the first usage's annotations.
- `AnnotatedTypes.NewAnnotatedType`, `TypeVariables.NewTypeVariable` and
  `AnnotatedParameterizedTypes.NewAnnotatedParameterizedType`: the annotation
  array is a value, so a null array or a null element, which makes the
  constructor loop throw `NullPointerException`, is not modelled.
- `AnnotatedParameterizedTypes.NewAnnotatedParameterizedType` and
  `TypeVariables.NewTypeVariable`: the argument and bound arrays are stored by
  reference and handed back by the getters. A caller can mutate them later;
  the model treats them as values.
- `Visitors.TypeVisitor.VisitVariable`: every usage of one variable identity is
  assumed to carry the same equality key. The input is not checked for this,
  and on a cache hit the first usage's key is the one returned.
- `Visitors.TypeVisitor.CachePlaceholder`: the placeholder's constructor is not
  part of this model. Its raw type is taken to be equal to the source
  variable's, so it keeps the source's equality key.
- Raw `Type` equality other than a variable's equality key, and all element
  `hashCode`s, are opaque. `typeArraysEqual` and the argument-array hash are
  parameters with no properties, except the consistency that
  `AnnotatedParameterizedTypes.HashConsistent` requires.
- `TypeMaps.AnnotatedTypeMap.ContainsValue` and `TypeMaps.AnnotatedTypeMap.RemoveEntry`
  take a value of type `V` rather than any `Object`. For a value that is not a
  `V` the answer is false either way.
- Types: nothing ties the equality key of a variable usage (`AVar`) to a
  `Types.TypeVariableImpl` record. The key is an abstraction, and the
  model does not derive it from a variable's name, annotations, bounds and
  declaration.

## Findings

| source | as written | input that shows it | evidently intended | confidence | as-written member | corrected member |
|---|---|---|---|---|---|---|
| src/main/java/io/leangen/geantyref/AnnotatedTypeImpl.java:78 and 83 against src/main/java/io/leangen/geantyref/AnnotatedParameterizedTypeImpl.java:34 | The base `equals` accepts any annotated type with an equal raw type and equal annotations, including a parameterized one. The parameterized class mixes its argument hash into `hashCode`. So `a.equals(b)` can hold while `a.hashCode() != b.hashCode()`. | Take a plain type and a parameterized type with the same raw type, no annotations and no arguments. With the raw type's hash 1 and the empty argument array's hash 0, `equals` holds from the plain side, but the hash codes are 126 and 3906. | `equals` and `hashCode` agree across classes, for example because the base `equals` also requires the other object to be of the same class. | medium, not executed | AnnotatedParameterizedTypes.EqualsHashMismatch | AnnotatedParameterizedTypes.CorrectedHashConsistent |
| src/main/java/io/leangen/geantyref/AnnotatedTypeMap.java:80-86 | `containsValue` returns false whatever the map holds. Its documentation inherits the `Map` contract, under which it is true when some key maps to the value. | Put any key `k` with value `v`, then ask `containsValue(v)`: the entry is there (`containsKey(k)` holds), but the answer is false. | `containsValue(v)` is true exactly when some stored entry holds `v`, by delegating to the backing map. | medium, not executed | TypeMaps.ContainsValueAfterPut | TypeMaps.AnnotatedTypeMap.CorrectedContainsValue |
