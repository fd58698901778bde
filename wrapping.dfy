/**
 * Conversion between plain value trees (what callers assign to a document
 * field) and proxy trees (dicts wrapped as ProxiedMap, lists as ProxiedList),
 * as done by `_wrap_value` and `_unwrap_value`.
 *
 * Every node of a proxy tree remembers the TOP-LEVEL field it belongs to and
 * its nesting depth; wrapping validates the depth of every node and the name
 * of every map key.
 */
module Wrapping {
  import opened Outcomes
  import opened FirestoreConstraints

  /** The non-container values a field may hold. */
  datatype Atom = Null | Bool(b: bool) | Int(i: int) | Str(s: string)

  /** A plain value tree: a scalar, a dict or a list. */
  datatype Value =
    | Scalar(atom: Atom)
    | Map(entries: map<string, Value>)
    | List(items: seq<Value>)

  /**
   * A wrapped value tree. Scalars stay as they are; a dict becomes a
   * ProxiedMap and a list a ProxiedList, each carrying the top-level field
   * path it reports to and its own depth.
   */
  datatype Proxy =
    | Plain(atom: Atom)
    | MapProxy(data: map<string, Proxy>, fieldPath: string, depth: int)
    | ListProxy(items: seq<Proxy>, fieldPath: string, depth: int)

  // ---------------------------------------------------------------------------
  // When wrapping succeeds, and what it yields
  // ---------------------------------------------------------------------------

  /** `_wrap_value(v, ..., depth)` raises nothing. */
  predicate Wrappable(v: Value, depth: int)
    decreases v, 1
  {
    depth < MAX_NESTING_DEPTH && ChildrenWrappable(v, depth)
  }

  /**
   * The container's own constructor raises nothing: every key of a dict is a
   * valid field name and every child wraps at `depth + 1`. (The constructors
   * do not check their own depth; `_wrap_value` does that before calling them.)
   */
  predicate ChildrenWrappable(v: Value, depth: int)
    decreases v, 0
  {
    match v
    case Scalar(_) => true
    case Map(m) => forall k :: k in m ==> IsValidFieldName(k) && Wrappable(m[k], depth + 1)
    case List(l) => forall i :: 0 <= i < |l| ==> Wrappable(l[i], depth + 1)
  }

  /** The result of a successful `_wrap_value(v, parent, path, depth)`. */
  function Wrap(v: Value, path: string, depth: int): Proxy
    requires Wrappable(v, depth)
    decreases v
  {
    assert ChildrenWrappable(v, depth);
    match v
    case Scalar(a) => Plain(a)
    case Map(m) => MapProxy(map k | k in m :: Wrap(m[k], path, depth + 1), path, depth)
    case List(l) => ListProxy(seq(|l|, i requires 0 <= i < |l| => Wrap(l[i], path, depth + 1)), path, depth)
  }

  /** What a ProxiedMap constructor stores for `data` at `depth`. */
  function WrappedEntries(m: map<string, Value>, path: string, depth: int): map<string, Proxy>
    requires ChildrenWrappable(Map(m), depth)
  {
    map k | k in m :: Wrap(m[k], path, depth + 1)
  }

  /** What a ProxiedList constructor stores for `data` at `depth`. */
  function WrappedItems(l: seq<Value>, path: string, depth: int): seq<Proxy>
    requires ChildrenWrappable(List(l), depth)
  {
    seq(|l|, i requires 0 <= i < |l| => Wrap(l[i], path, depth + 1))
  }

  /** `_unwrap_value`: strips every proxy, leaving plain dicts and lists. */
  function Unwrap(p: Proxy): Value
    decreases p
  {
    match p
    case Plain(a) => Scalar(a)
    case MapProxy(m, _, _) => Map(map k | k in m :: Unwrap(m[k]))
    case ListProxy(l, _, _) => List(seq(|l|, i requires 0 <= i < |l| => Unwrap(l[i])))
  }

  /** Unwrapping every value of a ProxiedMap's storage. */
  function UnwrapEntries(m: map<string, Proxy>): map<string, Value>
  {
    map k | k in m :: Unwrap(m[k])
  }

  /** Unwrapping every item of a ProxiedList's storage. */
  function UnwrapItems(l: seq<Proxy>): seq<Value>
  {
    seq(|l|, i requires 0 <= i < |l| => Unwrap(l[i]))
  }

  /**
   * The shape every wrapped tree has: each container node carries the
   * top-level `path` and the depth of its position (children one deeper),
   * each depth is below the limit, and each map key is a valid name.
   */
  predicate WellFormed(p: Proxy, path: string, depth: int)
    decreases p, 1
  {
    depth < MAX_NESTING_DEPTH && ChildrenWellFormed(p, path, depth)
  }

  /** The children of `p` are well formed one level deeper (the container invariant). */
  predicate ChildrenWellFormed(p: Proxy, path: string, depth: int)
    decreases p, 0
  {
    match p
    case Plain(_) => true
    case MapProxy(m, fp, d) =>
      fp == path && d == depth
      && forall k :: k in m ==> IsValidFieldName(k) && WellFormed(m[k], path, depth + 1)
    case ListProxy(l, fp, d) =>
      fp == path && d == depth
      && forall i :: 0 <= i < |l| ==> WellFormed(l[i], path, depth + 1)
  }

  /**
   * `e` is an error `_wrap_value(v, ..., depth)` can raise: the depth error
   * of a node at or beyond the limit, or the name error of some key, found
   * at some node of the tree (which one depends on dict insertion order).
   */
  ghost predicate IsViolation(v: Value, depth: int, e: ConstraintError)
    decreases v, 1
  {
    if depth >= MAX_NESTING_DEPTH then e == DepthExceeded(depth)
    else IsChildViolation(v, depth, e)
  }

  /** `e` is an error a container constructor for `v` at `depth` can raise. */
  ghost predicate IsChildViolation(v: Value, depth: int, e: ConstraintError)
    decreases v, 0
  {
    match v
    case Scalar(_) => false
    case Map(m) =>
      exists k :: k in m
        && (ValidateFieldName(k, depth) == Fail(e) || (IsValidFieldName(k) && IsViolation(m[k], depth + 1, e)))
    case List(l) => exists i :: 0 <= i < |l| && IsViolation(l[i], depth + 1, e)
  }

  // ---------------------------------------------------------------------------
  // The wrapping code
  // ---------------------------------------------------------------------------

  /**
   * `_wrap_value`: checks the depth first (so even a scalar is rejected at
   * depth 20), then hands a dict or list to its container constructor at the
   * same depth; any other value comes back unchanged.
   */
  method WrapValue(v: Value, path: string, depth: int) returns (r: Result<Proxy, ConstraintError>)
    ensures r.Ok? <==> Wrappable(v, depth)
    ensures r.Ok? ==> r.value == Wrap(v, path, depth)
    ensures r.Err? ==> IsViolation(v, depth, r.error)
    ensures depth >= MAX_NESTING_DEPTH ==> r == Err(DepthExceeded(depth))
    decreases v, 1
  {
    var check := ValidateNestingDepth(depth);
    if check.Fail? {
      return Err(check.error);
    }
    match v
    case Scalar(a) =>
      r := Ok(Plain(a));
    case Map(m) =>
      var data := WrapMapData(m, path, depth);
      r := if data.Ok? then Ok(MapProxy(data.value, path, depth)) else Err(data.error);
    case List(l) =>
      var items := WrapListData(l, path, depth);
      r := if items.Ok? then Ok(ListProxy(items.value, path, depth)) else Err(items.error);
  }

  /**
   * The loop of `ProxiedMap.__init__`: each key is name-checked at the map's
   * depth and its value wrapped one level deeper; the first failure aborts.
   */
  method WrapMapData(m: map<string, Value>, path: string, depth: int)
    returns (r: Result<map<string, Proxy>, ConstraintError>)
    ensures r.Ok? <==> ChildrenWrappable(Map(m), depth)
    ensures r.Ok? ==> r.value == WrappedEntries(m, path, depth)
    ensures r.Err? ==> IsChildViolation(Map(m), depth, r.error)
    decreases Map(m), 0
  {
    var data: map<string, Proxy> := map[];
    var rest := m.Keys;
    while rest != {}
      invariant rest <= m.Keys
      invariant data.Keys == m.Keys - rest
      invariant forall k :: k in data ==>
                  IsValidFieldName(k) && Wrappable(m[k], depth + 1) && data[k] == Wrap(m[k], path, depth + 1)
      decreases rest
    {
      var key :| key in rest;
      var nameCheck := ValidateFieldName(key, depth);
      if nameCheck.Fail? {
        return Err(nameCheck.error);
      }
      var wrapped := WrapValue(m[key], path, depth + 1);
      if wrapped.Err? {
        return Err(wrapped.error);
      }
      data := data[key := wrapped.value];
      rest := rest - {key};
    }
    assert data == WrappedEntries(m, path, depth);
    r := Ok(data);
  }

  /**
   * The loop of `ProxiedList.__init__`: every item is wrapped one level
   * deeper, in order; the first failure aborts.
   */
  method WrapListData(l: seq<Value>, path: string, depth: int)
    returns (r: Result<seq<Proxy>, ConstraintError>)
    ensures r.Ok? <==> ChildrenWrappable(List(l), depth)
    ensures r.Ok? ==> r.value == WrappedItems(l, path, depth)
    ensures r.Err? ==> IsChildViolation(List(l), depth, r.error)
    decreases List(l), 0
  {
    var items: seq<Proxy> := [];
    for i := 0 to |l|
      invariant |items| == i
      invariant forall j :: 0 <= j < i ==> Wrappable(l[j], depth + 1) && items[j] == Wrap(l[j], path, depth + 1)
    {
      var wrapped := WrapValue(l[i], path, depth + 1);
      if wrapped.Err? {
        return Err(wrapped.error);
      }
      items := items + [wrapped.value];
    }
    r := Ok(items);
  }

  // ---------------------------------------------------------------------------
  // Properties
  // ---------------------------------------------------------------------------

  /** Unwrapping what was wrapped gives back the original plain tree. */
  lemma {:induction false} UnwrapWrap(v: Value, path: string, depth: int)
    requires Wrappable(v, depth)
    ensures Unwrap(Wrap(v, path, depth)) == v
    decreases v
  {
    match v
    case Scalar(_) =>
    case Map(m) =>
      var w := Wrap(v, path, depth);
      forall k | k in m ensures Unwrap(w.data[k]) == m[k] {
        UnwrapWrap(m[k], path, depth + 1);
      }
      assert Unwrap(w).entries == m;
    case List(l) =>
      var w := Wrap(v, path, depth);
      forall i | 0 <= i < |l| ensures Unwrap(w.items[i]) == l[i] {
        UnwrapWrap(l[i], path, depth + 1);
      }
      assert Unwrap(w).items == l;
  }

  /**
   * Wrapping yields a well-formed tree: every nested container keeps the
   * same top-level field path and sits exactly one level below its parent.
   */
  lemma {:induction false} WrapWellFormed(v: Value, path: string, depth: int)
    requires Wrappable(v, depth)
    ensures WellFormed(Wrap(v, path, depth), path, depth)
    decreases v
  {
    match v
    case Scalar(_) =>
    case Map(m) =>
      forall k | k in m ensures WellFormed(Wrap(m[k], path, depth + 1), path, depth + 1) {
        WrapWellFormed(m[k], path, depth + 1);
      }
    case List(l) =>
      forall i | 0 <= i < |l| ensures WellFormed(Wrap(l[i], path, depth + 1), path, depth + 1) {
        WrapWellFormed(l[i], path, depth + 1);
      }
  }

  /** Every well-formed proxy tree is what wrapping its unwrapped form produces. */
  lemma {:induction false} WrapUnwrap(p: Proxy, path: string, depth: int)
    requires WellFormed(p, path, depth)
    ensures Wrappable(Unwrap(p), depth)
    ensures Wrap(Unwrap(p), path, depth) == p
    decreases p
  {
    match p
    case Plain(_) =>
    case MapProxy(m, _, _) =>
      var v := Unwrap(p);
      forall k | k in m
        ensures Wrappable(v.entries[k], depth + 1) && Wrap(v.entries[k], path, depth + 1) == m[k]
      {
        WrapUnwrap(m[k], path, depth + 1);
      }
      assert Wrap(v, path, depth).data == m;
    case ListProxy(l, _, _) =>
      var v := Unwrap(p);
      forall i | 0 <= i < |l|
        ensures Wrappable(v.items[i], depth + 1) && Wrap(v.items[i], path, depth + 1) == l[i]
      {
        WrapUnwrap(l[i], path, depth + 1);
      }
      assert Wrap(v, path, depth).items == l;
  }

  /** A tree that wraps at some depth also wraps at any shallower depth. */
  lemma {:induction false} WrappableAtShallowerDepth(v: Value, depth: int, shallower: int)
    requires Wrappable(v, depth) && shallower <= depth
    ensures Wrappable(v, shallower)
    decreases v
  {
    match v
    case Scalar(_) =>
    case Map(m) =>
      forall k | k in m ensures Wrappable(m[k], shallower + 1) {
        WrappableAtShallowerDepth(m[k], depth + 1, shallower + 1);
      }
    case List(l) =>
      forall i | 0 <= i < |l| ensures Wrappable(l[i], shallower + 1) {
        WrappableAtShallowerDepth(l[i], depth + 1, shallower + 1);
      }
  }

  /** `n` dicts nested one inside the other under the key "nested", around a string. */
  function Nested(n: nat): Value
  {
    if n == 0 then Scalar(Str("value")) else Map(map["nested" := Nested(n - 1)])
  }

  /**
   * The depth boundary: `n` levels of nesting wrap at `depth` exactly when
   * the innermost value still sits below depth 20.
   */
  lemma {:induction false} NestedWrappableIff(n: nat, depth: int)
    ensures Wrappable(Nested(n), depth) <==> depth + n < MAX_NESTING_DEPTH
    decreases n
  {
    if n > 0 {
      NestedWrappableIff(n - 1, depth + 1);
      assert "nested"[..2][1] == 'e';
      AsciiUtf8Length("nested");
      assert IsValidFieldName("nested");
      assert Nested(n).entries.Keys == {"nested"};
    }
  }

  /** `{'nested': 'value'}` wraps at depth 18 but not at depth 19. */
  lemma OneLevelDictDepthBoundary()
    ensures Wrappable(Map(map["nested" := Scalar(Str("value"))]), 18)
    ensures !Wrappable(Map(map["nested" := Scalar(Str("value"))]), 19)
  {
    NestedWrappableIff(1, 18);
    NestedWrappableIff(1, 19);
  }

  /** The plain items of a wrapped list are the items it was built from. */
  lemma UnwrapWrappedItems(l: seq<Value>, path: string, depth: int)
    requires ChildrenWrappable(List(l), depth)
    ensures UnwrapItems(WrappedItems(l, path, depth)) == l
  {
    forall i | 0 <= i < |l| ensures Unwrap(WrappedItems(l, path, depth)[i]) == l[i] {
      UnwrapWrap(l[i], path, depth + 1);
    }
  }

  /** The plain entries of a wrapped map are the entries it was built from. */
  lemma UnwrapWrappedEntries(m: map<string, Value>, path: string, depth: int)
    requires ChildrenWrappable(Map(m), depth)
    ensures UnwrapEntries(WrappedEntries(m, path, depth)) == m
  {
    forall k | k in m ensures Unwrap(WrappedEntries(m, path, depth)[k]) == m[k] {
      UnwrapWrap(m[k], path, depth + 1);
    }
  }

  /** Storing a wrapped value under a key stores its unwrapped form in the plain view. */
  lemma UnwrapEntriesAssign(m: map<string, Proxy>, key: string, p: Proxy)
    ensures UnwrapEntries(m[key := p]) == UnwrapEntries(m)[key := Unwrap(p)]
  {
    var l, r := UnwrapEntries(m[key := p]), UnwrapEntries(m)[key := Unwrap(p)];
    assert l.Keys == r.Keys;
    forall k | k in l ensures l[k] == r[k] {
    }
  }

  /** A constructor's storage satisfies the container invariant. */
  lemma WrappedEntriesWellFormed(m: map<string, Value>, path: string, depth: int)
    requires ChildrenWrappable(Map(m), depth)
    ensures ChildrenWellFormed(MapProxy(WrappedEntries(m, path, depth), path, depth), path, depth)
  {
    forall k | k in m ensures WellFormed(Wrap(m[k], path, depth + 1), path, depth + 1) {
      WrapWellFormed(m[k], path, depth + 1);
    }
  }

  /** A constructor's storage satisfies the container invariant. */
  lemma WrappedItemsWellFormed(l: seq<Value>, path: string, depth: int)
    requires ChildrenWrappable(List(l), depth)
    ensures ChildrenWellFormed(ListProxy(WrappedItems(l, path, depth), path, depth), path, depth)
  {
    forall i | 0 <= i < |l| ensures WellFormed(Wrap(l[i], path, depth + 1), path, depth + 1) {
      WrapWellFormed(l[i], path, depth + 1);
    }
  }

  // ---------------------------------------------------------------------------
  // Equality
  // ---------------------------------------------------------------------------

  /**
   * Python `==` between two stored values: scalars compare by value; two
   * ProxiedMaps compare their `_data` dicts, two ProxiedLists their `_data`
   * lists (so path and depth play no part); a map, a list and a scalar
   * never compare equal to one another.
   */
  predicate ProxyEq(p: Proxy, q: Proxy)
    decreases p
  {
    match p
    case Plain(a) => q.Plain? && q.atom == a
    case MapProxy(m, _, _) =>
      q.MapProxy? && m.Keys == q.data.Keys && forall k :: k in m ==> ProxyEq(m[k], q.data[k])
    case ListProxy(l, _, _) =>
      q.ListProxy? && |l| == |q.items| && forall i :: 0 <= i < |l| ==> ProxyEq(l[i], q.items[i])
  }

  /**
   * Python `==` between a stored value and a plain one: a ProxiedMap
   * compares its `_data` with a dict, a ProxiedList with a list.
   */
  predicate ProxyMatches(p: Proxy, v: Value)
    decreases p
  {
    match p
    case Plain(a) => v == Scalar(a)
    case MapProxy(m, _, _) =>
      v.Map? && m.Keys == v.entries.Keys && forall k :: k in m ==> ProxyMatches(m[k], v.entries[k])
    case ListProxy(l, _, _) =>
      v.List? && |l| == |v.items| && forall i :: 0 <= i < |l| ==> ProxyMatches(l[i], v.items[i])
  }

  /** A stored value equals a plain one exactly when it unwraps to it. */
  lemma {:induction false} ProxyMatchesIff(p: Proxy, v: Value)
    ensures ProxyMatches(p, v) <==> Unwrap(p) == v
    decreases p
  {
    match p
    case Plain(_) =>
    case MapProxy(m, _, _) =>
      if v.Map? && m.Keys == v.entries.Keys {
        forall k | k in m ensures ProxyMatches(m[k], v.entries[k]) <==> Unwrap(m[k]) == v.entries[k] {
          ProxyMatchesIff(m[k], v.entries[k]);
        }
        if Unwrap(p) == v {
          assert forall k :: k in m ==> Unwrap(p).entries[k] == Unwrap(m[k]);
        }
      }
    case ListProxy(l, _, _) =>
      if v.List? && |l| == |v.items| {
        forall i | 0 <= i < |l| ensures ProxyMatches(l[i], v.items[i]) <==> Unwrap(l[i]) == v.items[i] {
          ProxyMatchesIff(l[i], v.items[i]);
        }
        if Unwrap(p) == v {
          assert forall i :: 0 <= i < |l| ==> Unwrap(p).items[i] == Unwrap(l[i]);
        }
      }
  }

  /** Two stored values are equal exactly when they unwrap to the same plain tree. */
  lemma {:induction false} ProxyEqIff(p: Proxy, q: Proxy)
    ensures ProxyEq(p, q) <==> Unwrap(p) == Unwrap(q)
    decreases p
  {
    match p
    case Plain(_) =>
      assert Unwrap(q).Scalar? ==> q.Plain?;
    case MapProxy(m, _, _) =>
      assert Unwrap(q).Map? ==> q.MapProxy?;
      assert Unwrap(p).entries.Keys == m.Keys;
      assert q.MapProxy? ==> Unwrap(q).entries.Keys == q.data.Keys;
      if q.MapProxy? && m.Keys == q.data.Keys {
        forall k | k in m ensures ProxyEq(m[k], q.data[k]) <==> Unwrap(m[k]) == Unwrap(q.data[k]) {
          ProxyEqIff(m[k], q.data[k]);
        }
        if Unwrap(p) == Unwrap(q) {
          assert forall k :: k in m ==> Unwrap(p).entries[k] == Unwrap(m[k]);
        }
      }
    case ListProxy(l, _, _) =>
      assert Unwrap(q).List? ==> q.ListProxy?;
      if q.ListProxy? && |l| == |q.items| {
        forall i | 0 <= i < |l| ensures ProxyEq(l[i], q.items[i]) <==> Unwrap(l[i]) == Unwrap(q.items[i]) {
          ProxyEqIff(l[i], q.items[i]);
        }
        if Unwrap(p) == Unwrap(q) {
          assert forall i :: 0 <= i < |l| ==> Unwrap(p).items[i] == Unwrap(l[i]);
        }
      }
  }
}
