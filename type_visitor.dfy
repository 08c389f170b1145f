/** `TypeVisitor`: rewrites an annotated type one node kind at a time, through
    one visitor instance, breaking cycles through type-variable bounds with an
    identity-keyed cache of placeholder variables.

    The input graph is closed: `bounds` gives the annotated bounds of every type
    variable the input mentions, keyed by the variable's identity, and every
    variable occurring in those bounds has an entry too. A variable usage
    carries both the identity the cache is keyed by and the key its `equals`
    compares. A placeholder is a fresh identity with the source variable's
    equality key; its bounds live in a write-once cell, `None` until `init`. */
module Visitors {
  import opened Types
  import AnnotatedTypes

  /** Constructors of the rebuilt nodes' raw types, which are not part of this model:
      - paramRaw: the raw `ParameterizedType` `replaceParameters` builds from the
        old raw type and the raw types of the new arguments;
      - wildcardRaw: `new WildcardTypeImpl(upperBounds, lowerBounds)`;
      - arrayRaw: `GenericArrayTypeImpl.createArrayType(componentType)`. */
  datatype Builders = Builders(
    paramRaw: (RawType, seq<RawType>) -> RawType,
    wildcardRaw: (seq<RawType>, seq<RawType>) -> RawType,
    arrayRaw: RawType -> RawType)

  /** A measure of a usage: the number of its nodes, not following variables. */
  function Size(t: AType): nat
    decreases t, 1
  {
    match t
    case AParam(_, _, args) => 1 + SizeAll(args)
    case AWildcard(_, _, lower, upper) => 1 + SizeAll(lower) + SizeAll(upper)
    case AArray(_, _, comp) => 1 + Size(comp)
    case _ => 1
  }

  function SizeAll(ts: seq<AType>): (n: nat)
    ensures forall i :: 0 <= i < |ts| ==> Size(ts[i]) <= n
    decreases ts, 0
  {
    if |ts| == 0 then 0
    else
      assert forall i :: 0 < i < |ts| ==> ts[i] == ts[1..][i - 1];
      Size(ts[0]) + SizeAll(ts[1..])
  }

  /** Every type variable occurring in `t` is one of `vars`. */
  ghost predicate Closed(t: AType, vars: set<VarRef>)
  {
    match t
    case AVar(v, _, _) => v in vars
    case AParam(_, _, args) => forall i :: 0 <= i < |args| ==> Closed(args[i], vars)
    case AWildcard(_, _, lower, upper) =>
      (forall i :: 0 <= i < |lower| ==> Closed(lower[i], vars))
      && (forall i :: 0 <= i < |upper| ==> Closed(upper[i], vars))
    case AArray(_, _, comp) => Closed(comp, vars)
    case _ => true
  }

  /** `r` is what the default visitor makes of `t` once every variable has an
      entry in `cache`: same kinds, same annotations, same number and order of
      children, each child rewritten the same way; raw types rebuilt from the
      children's raw types; every variable replaced by its cached placeholder;
      classes, captures and unmatched usages kept as they are. */
  ghost predicate Renamed(b: Builders, t: AType, r: AType, cache: map<VarRef, AType>)
  {
    match t
    case APlain(_, _) => r == t
    case ACapture(_, _) => r == t
    case AVar(v, _, _) => v in cache && r == cache[v]
    case AParam(raw, anns, args) =>
      r.AParam? && r.anns == anns && AllRenamed(b, args, r.args, cache)
      && r.raw == b.paramRaw(raw, RawsOf(r.args))
    case AWildcard(_, anns, lower, upper) =>
      r.AWildcard? && r.anns == anns
      && AllRenamed(b, lower, r.lower, cache) && AllRenamed(b, upper, r.upper, cache)
      && r.raw == b.wildcardRaw(RawsOf(r.upper), RawsOf(r.lower))
    case AArray(_, anns, comp) =>
      r.AArray? && r.anns == anns && Renamed(b, comp, r.comp, cache)
      && r.raw == b.arrayRaw(RawOf(r.comp))
  }

  /** `rs` rewrites `ts` position by position. */
  ghost predicate AllRenamed(b: Builders, ts: seq<AType>, rs: seq<AType>, cache: map<VarRef, AType>)
  {
    |rs| == |ts| && forall i :: 0 <= i < |ts| ==> Renamed(b, ts[i], rs[i], cache)
  }

  /** Every entry of `small` is in `big` with the same value. */
  ghost predicate SubMap(small: map<VarRef, AType>, big: map<VarRef, AType>)
  {
    forall v :: v in small ==> v in big && big[v] == small[v]
  }

  /** A rewriting stays valid when the cache gains entries. */
  lemma {:induction false} RenamedGrows(b: Builders, t: AType, r: AType, c1: map<VarRef, AType>, c2: map<VarRef, AType>)
    requires Renamed(b, t, r, c1) && SubMap(c1, c2)
    ensures Renamed(b, t, r, c2)
    decreases t
  {
    match t
    case AParam(_, _, args) =>
      forall i | 0 <= i < |args| ensures Renamed(b, args[i], r.args[i], c2) {
        RenamedGrows(b, args[i], r.args[i], c1, c2);
      }
    case AWildcard(_, _, lower, upper) =>
      forall i | 0 <= i < |lower| ensures Renamed(b, lower[i], r.lower[i], c2) {
        RenamedGrows(b, lower[i], r.lower[i], c1, c2);
      }
      forall i | 0 <= i < |upper| ensures Renamed(b, upper[i], r.upper[i], c2) {
        RenamedGrows(b, upper[i], r.upper[i], c1, c2);
      }
    case AArray(_, _, comp) =>
      RenamedGrows(b, comp, r.comp, c1, c2);
    case _ =>
  }

  lemma AllRenamedGrows(b: Builders, ts: seq<AType>, rs: seq<AType>, c1: map<VarRef, AType>, c2: map<VarRef, AType>)
    requires AllRenamed(b, ts, rs, c1) && SubMap(c1, c2)
    ensures AllRenamed(b, ts, rs, c2)
  {
    forall i | 0 <= i < |ts| ensures Renamed(b, ts[i], rs[i], c2) {
      RenamedGrows(b, ts[i], rs[i], c1, c2);
    }
  }

  class TypeVisitor {
    /** The input graph: the annotated bounds of each type variable, by identity. */
    const bounds: map<VarRef, seq<AType>>
    const build: Builders
    /** Placeholder identities are at least `base`, above every input variable. */
    const base: VarRef

    /** `varCache`, an `IdentityHashMap` from a source variable to its placeholder. */
    var varCache: map<VarRef, AType>
    /** The bounds cell of each placeholder: `None` until `init`. */
    var cells: map<VarRef, Option<seq<AType>>>
    /** The next fresh placeholder identity. */
    var next: VarRef

    ghost predicate Valid()
      reads this
    {
      && (forall v :: v in bounds ==> v < base)
      && (forall v, i :: v in bounds && 0 <= i < |bounds[v]| ==> Closed(bounds[v][i], bounds.Keys))
      && base <= next
      && (forall p :: p in cells ==> base <= p < next)
      && varCache.Keys <= bounds.Keys
      && (forall v :: v in varCache ==> varCache[v].AVar? && varCache[v].v in cells)
      && (forall v, w :: v in varCache && w in varCache && v != w ==> varCache[v].v != varCache[w].v)
      && (forall v :: v in varCache && cells[varCache[v].v].Some? ==>
            AllRenamed(build, bounds[v], cells[varCache[v].v].value, varCache))
    }

    /** The placeholders whose bounds are not yet set. */
    ghost function Pending(): set<VarRef>
      reads this
    {
      set p | p in cells && cells[p].None?
    }

    /** What a visit may do to the visitor: add cache entries, allocate
        placeholders and set the bounds of the ones it allocated; a cache entry
        or a bounds cell once set never changes. */
    twostate predicate Extends()
      reads this
    {
      && SubMap(old(varCache), varCache)
      && old(next) <= next
      && (forall p :: p in old(cells) ==> p in cells && (old(cells)[p].Some? ==> cells[p] == old(cells)[p]))
      && (forall p :: p in cells && p !in old(cells) ==> cells[p].Some?)
      && (forall p :: p in old(cells) && old(cells)[p].None? ==> cells[p].None?)
      && (varCache.Keys == old(varCache).Keys ==>
            varCache == old(varCache) && cells == old(cells) && next == old(next))
    }

    /** Every variable of `S` has its bounds closed in `known + S`. */
    ghost predicate BoundsWithin(S: set<VarRef>, known: set<VarRef>)
    {
      forall v :: v in S ==> v in bounds && forall i :: 0 <= i < |bounds[v]| ==> Closed(bounds[v][i], known + S)
    }

    /** Starting from the cached variables `known`, a traversal of `t` through
        the bounds of the variables it meets stays within `known + S`. */
    ghost predicate Confines(t: AType, known: set<VarRef>, S: set<VarRef>)
    {
      Closed(t, known + S) && BoundsWithin(S, known)
    }

    /** The same, for every element of `ts`. */
    ghost predicate ConfinesAll(ts: seq<AType>, known: set<VarRef>, S: set<VarRef>)
    {
      (forall i :: 0 <= i < |ts| ==> Closed(ts[i], known + S)) && BoundsWithin(S, known)
    }

    /** A visitor with an empty cache over a closed input graph. */
    constructor (bounds: map<VarRef, seq<AType>>, build: Builders, base: VarRef)
      requires forall v :: v in bounds ==> v < base
      requires forall v, i :: v in bounds && 0 <= i < |bounds[v]| ==> Closed(bounds[v][i], bounds.Keys)
      ensures Valid()
      ensures this.bounds == bounds && this.build == build && this.base == base
      ensures varCache == map[] && cells == map[] && next == base
    {
      this.bounds := bounds;
      this.build := build;
      this.base := base;
      varCache := map[];
      cells := map[];
      next := base;
    }

    /** `GenericTypeReflector.transform(type, this)`: dispatch on the node kind. */
    method Transform(t: AType) returns (r: AType)
      requires Valid() && Closed(t, bounds.Keys)
      modifies this
      ensures Valid() && Extends()
      ensures Renamed(build, t, r, varCache)
      ensures old(Pending()) == {} ==> Pending() == {}
      ensures forall S :: Confines(t, old(varCache).Keys, S) ==> varCache.Keys <= old(varCache).Keys + S
      ensures Closed(t, old(varCache).Keys) ==>
        varCache == old(varCache) && cells == old(cells) && next == old(next)
      decreases bounds.Keys - varCache.Keys, Size(t), 2
    {
      assert old(varCache).Keys + {} == old(varCache).Keys;
      assert Closed(t, old(varCache).Keys) ==> Confines(t, old(varCache).Keys, {});
      match t
      case AParam(_, _, _) => r := VisitParameterizedType(t);
      case AWildcard(_, _, _, _) => r := VisitWildcardType(t);
      case AVar(_, _, _) => r := VisitVariable(t);
      case AArray(_, _, _) => r := VisitArray(t);
      case ACapture(_, _) => r := VisitCaptureType(t);
      case APlain(raw, _) =>
        if raw.RClass? {
          r := VisitClass(t);
        } else {
          r := VisitUnmatched(t);
        }
    }

    /** An array of usages streamed through `transform` with this visitor:
        each element transformed in order. */
    method TransformAll(ts: seq<AType>) returns (rs: seq<AType>)
      requires Valid() && forall i :: 0 <= i < |ts| ==> Closed(ts[i], bounds.Keys)
      modifies this
      ensures Valid() && Extends()
      ensures AllRenamed(build, ts, rs, varCache)
      ensures forall S :: ConfinesAll(ts, old(varCache).Keys, S) ==> varCache.Keys <= old(varCache).Keys + S
      ensures (forall i :: 0 <= i < |ts| ==> Closed(ts[i], old(varCache).Keys)) ==>
        varCache == old(varCache) && cells == old(cells) && next == old(next)
      decreases bounds.Keys - varCache.Keys, SizeAll(ts), 3
    {
      assert old(varCache).Keys + {} == old(varCache).Keys;
      assert (forall i :: 0 <= i < |ts| ==> Closed(ts[i], old(varCache).Keys)) ==>
        ConfinesAll(ts, old(varCache).Keys, {});
      rs := [];
      var i := 0;
      while i < |ts|
        invariant 0 <= i <= |ts|
        invariant Valid() && Extends()
        invariant AllRenamed(build, ts[..i], rs, varCache)
        invariant forall S :: ConfinesAll(ts, old(varCache).Keys, S) ==> varCache.Keys <= old(varCache).Keys + S
      {
        ghost var before := varCache;
        var x := Transform(ts[i]);
        forall S | ConfinesAll(ts, old(varCache).Keys, S)
          ensures varCache.Keys <= old(varCache).Keys + S
        {
          assert before.Keys + S == old(varCache).Keys + S;
          assert Confines(ts[i], before.Keys, S);
        }
        AllRenamedGrows(build, ts[..i], rs, before, varCache);
        assert ts[..i + 1] == ts[..i] + [ts[i]];
        rs := rs + [x];
        i := i + 1;
      }
      assert ts[..i] == ts;
    }

    /** `visitParameterizedType`: every argument transformed, in order, then
        `replaceParameters` with the same annotations. */
    method VisitParameterizedType(t: AType) returns (r: AType)
      requires Valid() && t.AParam? && Closed(t, bounds.Keys)
      modifies this
      ensures Valid() && Extends()
      ensures r.AParam? && r.anns == t.anns && AllRenamed(build, t.args, r.args, varCache)
      ensures r.raw == build.paramRaw(t.raw, RawsOf(r.args))
      ensures forall S :: Confines(t, old(varCache).Keys, S) ==> varCache.Keys <= old(varCache).Keys + S
      ensures Closed(t, old(varCache).Keys) ==>
        varCache == old(varCache) && cells == old(cells) && next == old(next)
      decreases bounds.Keys - varCache.Keys, Size(t), 1
    {
      assert forall S :: Confines(t, varCache.Keys, S) ==> ConfinesAll(t.args, varCache.Keys, S);
      var params := TransformAll(t.args);
      r := AParam(build.paramRaw(t.raw, RawsOf(params)), t.anns, params);
    }

    /** `visitWildcardType`: lower bounds, then upper bounds, transformed in order;
        the new raw wildcard is built from their raw types; annotations kept. */
    method VisitWildcardType(t: AType) returns (r: AType)
      requires Valid() && t.AWildcard? && Closed(t, bounds.Keys)
      modifies this
      ensures Valid() && Extends()
      ensures r.AWildcard? && r.anns == t.anns
      ensures AllRenamed(build, t.lower, r.lower, varCache) && AllRenamed(build, t.upper, r.upper, varCache)
      ensures r.raw == build.wildcardRaw(RawsOf(r.upper), RawsOf(r.lower))
      ensures forall S :: Confines(t, old(varCache).Keys, S) ==> varCache.Keys <= old(varCache).Keys + S
      ensures Closed(t, old(varCache).Keys) ==>
        varCache == old(varCache) && cells == old(cells) && next == old(next)
      decreases bounds.Keys - varCache.Keys, Size(t), 1
    {
      var lowerBounds := TransformAll(t.lower);
      ghost var afterLower := varCache;
      var upperBounds := TransformAll(t.upper);
      forall S | Confines(t, old(varCache).Keys, S)
        ensures varCache.Keys <= old(varCache).Keys + S
      {
        assert ConfinesAll(t.lower, old(varCache).Keys, S);
        assert afterLower.Keys + S == old(varCache).Keys + S;
        assert ConfinesAll(t.upper, afterLower.Keys, S);
      }
      AllRenamedGrows(build, t.lower, lowerBounds, afterLower, varCache);
      var inner := build.wildcardRaw(RawsOf(upperBounds), RawsOf(lowerBounds));
      r := AWildcard(inner, t.anns, lowerBounds, upperBounds);
    }

    /** `visitVariable`: a cached variable gives its placeholder back and nothing
        changes; otherwise a fresh placeholder is cached first, the bounds are
        transformed (a re-visit of the variable meets the cache), and the
        placeholder's bounds are set once. */
    method VisitVariable(t: AType) returns (r: AType)
      requires Valid() && t.AVar? && t.v in bounds
      modifies this
      ensures Valid() && Extends()
      ensures t.v in varCache && r == varCache[t.v]
      ensures t.v in old(varCache) ==>
        r == old(varCache)[t.v] && varCache == old(varCache) && cells == old(cells) && next == old(next)
      ensures t.v !in old(varCache) ==>
        && r == AVar(old(next), t.key, t.anns) && old(next) !in old(cells)
        && cells[old(next)].Some? && AllRenamed(build, bounds[t.v], cells[old(next)].value, varCache)
      ensures forall S :: Confines(t, old(varCache).Keys, S) ==> varCache.Keys <= old(varCache).Keys + S
      decreases bounds.Keys - varCache.Keys, Size(t), 1
    {
      var v := t.v;
      if v in varCache {
        return varCache[v];
      }
      var p := next;
      var variable := CachePlaceholder(t);
      assert bounds.Keys - varCache.Keys == (bounds.Keys - old(varCache).Keys) - {v};
      ghost var cached := varCache;
      var bs := TransformAll(bounds[v]);
      forall S | Confines(t, old(varCache).Keys, S)
        ensures varCache.Keys <= old(varCache).Keys + S
      {
        assert v in S;
        assert cached.Keys + S == old(varCache).Keys + S;
        assert ConfinesAll(bounds[v], cached.Keys, S);
      }
      Init(v, p, bs);
      r := variable;
    }

    /** The first half of a cache miss: a new placeholder carrying the usage's
        annotations, with its bounds not yet set, is cached under the source
        variable before any bound is visited. */
    method CachePlaceholder(t: AType) returns (variable: AType)
      requires Valid() && t.AVar? && t.v in bounds && t.v !in varCache
      modifies this
      ensures Valid()
      ensures variable == AVar(old(next), t.key, t.anns) && old(next) !in old(cells)
      ensures varCache == old(varCache)[t.v := variable]
      ensures cells == old(cells)[old(next) := None] && next == old(next) + 1
    {
      var p := next;
      variable := AVar(p, t.key, t.anns);
      next := next + 1;
      cells := cells[p := None];
      varCache := varCache[t.v := variable];
      forall w | w in varCache && w != t.v && cells[varCache[w].v].Some?
        ensures AllRenamed(build, bounds[w], cells[varCache[w].v].value, varCache)
      {
        AllRenamedGrows(build, bounds[w], cells[varCache[w].v].value, old(varCache), varCache);
      }
    }

    /** `AnnotatedTypeVariableImpl.init(bounds)` on the placeholder cached for
        `v`: its bounds cell, empty until now, is set to the transformed bounds. */
    method Init(ghost v: VarRef, p: VarRef, bs: seq<AType>)
      requires Valid() && v in varCache && varCache[v].v == p && cells[p].None?
      requires AllRenamed(build, bounds[v], bs, varCache)
      modifies this`cells
      ensures Valid()
      ensures cells == old(cells)[p := Some(bs)]
    {
      cells := cells[p := Some(bs)];
    }

    /** `visitArray`: the component transformed, the raw array type rebuilt from
        its raw type, the annotations kept. */
    method VisitArray(t: AType) returns (r: AType)
      requires Valid() && t.AArray? && Closed(t, bounds.Keys)
      modifies this
      ensures Valid() && Extends()
      ensures r.AArray? && r.anns == t.anns && Renamed(build, t.comp, r.comp, varCache)
      ensures r.raw == build.arrayRaw(RawOf(r.comp))
      ensures forall S :: Confines(t, old(varCache).Keys, S) ==> varCache.Keys <= old(varCache).Keys + S
      ensures Closed(t, old(varCache).Keys) ==>
        varCache == old(varCache) && cells == old(cells) && next == old(next)
      decreases bounds.Keys - varCache.Keys, Size(t), 1
    {
      assert forall S :: Confines(t, varCache.Keys, S) ==> Confines(t.comp, varCache.Keys, S);
      var componentType := Transform(t.comp);
      r := AArray(build.arrayRaw(RawOf(componentType)), t.anns, componentType);
    }

    /** `visitCaptureType`: the capture is returned as it is. */
    method VisitCaptureType(t: AType) returns (r: AType)
      requires t.ACapture?
      ensures r == t
    {
      r := t;
    }

    /** `visitClass`: the usage is returned as it is. */
    method VisitClass(t: AType) returns (r: AType)
      ensures r == t
    {
      r := t;
    }

    /** `visitUnmatched`: the usage is returned as it is. */
    method VisitUnmatched(t: AType) returns (r: AType)
      ensures r == t
    {
      r := t;
    }
  }

  /** A variable `T` bounded by `Comparable<T>`: transforming it terminates, and
      the placeholder's one bound is `Comparable` of the placeholder itself. */
  method SelfBoundedVariable(b: Builders, key: nat) returns (r: AType, bs: seq<AType>)
    ensures r == AVar(1, key, [])
    ensures bs == [AParam(b.paramRaw(ROther(7), [RVar(key)]), [], [r])]
  {
    var comparableOfT := AParam(ROther(7), [], [AVar(0, key, [])]);
    var visitor := new TypeVisitor(map[0 := [comparableOfT]], b, 1);
    r := visitor.VisitVariable(AVar(0, key, []));
    bs := visitor.cells[1].value;
    assert |bs| == 1 && Renamed(b, comparableOfT, bs[0], visitor.varCache);
    assert AllRenamed(b, [AVar(0, key, [])], bs[0].args, visitor.varCache);
    assert Renamed(b, AVar(0, key, []), bs[0].args[0], visitor.varCache);
    assert bs[0].args == [r];
    assert RawsOf(bs[0].args) == [RVar(key)];
  }

  /** The cache is keyed by identity, not by `equals`: two distinct variable
      objects that are equal (same declaration and name, so their usages are
      equal annotated types) and have the same bounds still get distinct
      placeholders. */
  method EqualVariablesDistinctPlaceholders(b: Builders, key: nat, bound: AType) returns (r1: AType, r2: AType)
    requires Closed(bound, {0, 1})
    ensures AnnotatedTypes.Equals(AVar(0, key, []), AnnotatedTypeObj(AVar(1, key, [])))
    ensures r1 == AVar(2, key, []) && r2.AVar? && r1.v != r2.v
  {
    var bounds := map[0 := [bound], 1 := [bound]];
    assert bounds.Keys == {0, 1};
    assert forall v, i :: v in bounds && 0 <= i < |bounds[v]| ==> bounds[v][i] == bound;
    var visitor := new TypeVisitor(bounds, b, 2);
    r1 := visitor.VisitVariable(AVar(0, key, []));
    r2 := visitor.VisitVariable(AVar(1, key, []));
    assert visitor.varCache[0] == r1 && visitor.varCache[1] == r2;
  }

  /** Only the variables a traversal reaches are cached: transforming `T`,
      bounded by a class, caches `T` alone, although the graph also holds `U`;
      a class usage afterwards leaves the visitor as it is. */
  method UnreachedVariableStaysUncached(b: Builders, key: nat) returns (cache: map<VarRef, AType>, after: map<VarRef, AType>)
    ensures cache.Keys == {0} && cache[0].AVar? && cache[0].v !in {0, 1}
    ensures after == cache
  {
    var top := APlain(RClass(1), []);
    var visitor := new TypeVisitor(map[0 := [top], 1 := [top]], b, 2);
    assert visitor.BoundsWithin({0}, visitor.varCache.Keys);
    assert visitor.Confines(AVar(0, key, []), visitor.varCache.Keys, {0});
    var r := visitor.Transform(AVar(0, key, []));
    cache := visitor.varCache;
    var s := visitor.Transform(top);
    after := visitor.varCache;
  }
}
