/**
 * `ProxiedList`: a list whose items are stored wrapped, which reports its
 * top-level field to the parent after every mutation that goes through.
 * Indices are non-negative; slice bounds are clamped as Python clamps them.
 */
module ProxiedLists {
  import opened Outcomes
  import opened FirestoreConstraints
  import opened Wrapping
  import opened DirtyRecording
  import opened Sorting

  /** A slice bound clamped to a list of length `n`. */
  function Clamp(i: nat, n: nat): nat
  {
    if i <= n then i else n
  }

  /** The end of the slice `[lo:hi]` of a list of length `n`: never before its start. */
  function SliceEnd(lo: nat, hi: nat, n: nat): nat
  {
    if Clamp(hi, n) < Clamp(lo, n) then Clamp(lo, n) else Clamp(hi, n)
  }

  /** `list(reversed(s))`. */
  function Reversed<T>(s: seq<T>): (r: seq<T>)
    ensures |r| == |s|
    ensures forall i :: 0 <= i < |s| ==> r[i] == s[|s| - 1 - i]
    decreases |s|
  {
    if s == [] then [] else Reversed(s[1..]) + [s[0]]
  }

  /** Reversing twice gives the list back. */
  lemma ReversedTwice<T>(s: seq<T>)
    ensures Reversed(Reversed(s)) == s
  {
    var r := Reversed(Reversed(s));
    assert forall i :: 0 <= i < |s| ==> r[i] == s[i];
  }

  /** Reversing keeps every item, as often as it occurred. */
  lemma {:induction false} ReversedPermutation<T>(s: seq<T>)
    ensures multiset(Reversed(s)) == multiset(s)
    decreases |s|
  {
    if s != [] {
      ReversedPermutation(s[1..]);
      assert s == [s[0]] + s[1..];
    }
  }

  /** The index `list.index(x)` finds: the first position holding `x`, or none. */
  function FirstIndexOf<T(==)>(s: seq<T>, x: T): (r: Option<nat>)
    ensures r.None? <==> x !in s
    ensures r.Some? ==> r.value < |s| && s[r.value] == x && x !in s[..r.value]
    decreases |s|
  {
    if s == [] then None
    else if s[0] == x then Some(0)
    else
      match FirstIndexOf(s[1..], x)
      case None => None
      case Some(j) =>
        assert s[..j + 1] == [s[0]] + s[1..][..j];
        Some(j + 1)
  }

  /** Unwrapping commutes with replacing a slice. */
  lemma UnwrapSplice(s: seq<Proxy>, a: nat, b: nat, w: seq<Proxy>)
    requires a <= b <= |s|
    ensures UnwrapItems(s[..a] + w + s[b..]) == UnwrapItems(s)[..a] + UnwrapItems(w) + UnwrapItems(s)[b..]
  {
    var l := UnwrapItems(s[..a] + w + s[b..]);
    var rr := UnwrapItems(s)[..a] + UnwrapItems(w) + UnwrapItems(s)[b..];
    assert |l| == |rr|;
    forall i | 0 <= i < |l| ensures l[i] == rr[i] {
      if i < a {
      } else if i < a + |w| {
      } else {
        assert (s[..a] + w + s[b..])[i] == s[b + (i - a - |w|)];
      }
    }
  }

  class ProxiedList {
    /** `_data`: the stored (wrapped) items. */
    var items: seq<Proxy>
    /** `_parent`, `_field_path`, `_depth`: fixed at construction. */
    const parent: DirtyRecorder
    const fieldPath: string
    const depth: int

    /** Every item is wrapped one level deeper under the same field. */
    ghost predicate Valid()
      reads this
    {
      ChildrenWellFormed(ListProxy(items, fieldPath, depth), fieldPath, depth)
    }

    /** The plain list the proxy stands for (what `_unwrap_value` returns for it). */
    function Contents(): seq<Value>
      reads this
    {
      UnwrapItems(items)
    }

    /** Sets the fixed attributes and the already wrapped storage. */
    constructor (parent: DirtyRecorder, fieldPath: string, depth: int, items: seq<Proxy>)
      ensures this.parent == parent && this.fieldPath == fieldPath && this.depth == depth
      ensures this.items == items
    {
      this.parent := parent;
      this.fieldPath := fieldPath;
      this.depth := depth;
      this.items := items;
    }

    /**
     * `ProxiedList(data, parent, field_path, depth)`: wraps every item at
     * `depth + 1`, in order; raises on the first failure. Nothing is reported.
     */
    static method New(l: seq<Value>, parent: DirtyRecorder, fieldPath: string, depth: int)
      returns (r: Result<ProxiedList, ProxyError>)
      ensures r.Ok? <==> ChildrenWrappable(List(l), depth)
      ensures r.Err? ==> r.error.Constraint? && IsChildViolation(List(l), depth, r.error.e)
      ensures r.Ok? ==> fresh(r.value) && r.value.Valid()
                        && r.value.parent == parent && r.value.fieldPath == fieldPath && r.value.depth == depth
                        && r.value.items == WrappedItems(l, fieldPath, depth)
                        && r.value.Contents() == l
    {
      var wrapped := WrapListData(l, fieldPath, depth);
      if wrapped.Err? {
        return Err(Constraint(wrapped.error));
      }
      WrappedItemsWellFormed(l, fieldPath, depth);
      var pl := new ProxiedList(parent, fieldPath, depth, wrapped.value);
      UnwrapWrappedItems(l, fieldPath, depth);
      r := Ok(pl);
    }

    /** `lst[i]`: the stored (wrapped) item; IndexError when out of range. Reports nothing. */
    method GetItem(i: nat) returns (r: Result<Proxy, ProxyError>)
      ensures r.Ok? <==> i < |Contents()|
      ensures r.Ok? ==> r.value == items[i] && Unwrap(r.value) == Contents()[i]
      ensures r.Err? ==> r.error == IndexError
    {
      if i >= |items| {
        return Err(IndexError);
      }
      r := Ok(items[i]);
    }

    /** `len(lst)`. Reports nothing. */
    method Len() returns (n: nat)
      ensures n == |Contents()|
    {
      n := |items|;
    }

    /**
     * `lst[i] = v`: wraps `v` first (so a wrapping error wins over a bad
     * index), then replaces item `i` and reports.
     */
    method SetItem(i: nat, v: Value) returns (r: Outcome<ProxyError>)
      requires Valid()
      modifies this, parent
      ensures Valid()
      ensures r.Pass? <==> Wrappable(v, depth + 1) && i < |old(Contents())|
      ensures !Wrappable(v, depth + 1) ==> r.Fail? && r.error.Constraint? && IsViolation(v, depth + 1, r.error.e)
      ensures Wrappable(v, depth + 1) && i >= |old(Contents())| ==> r == Fail(IndexError)
      ensures r.Fail? ==> items == old(items) && parent.reported == old(parent.reported)
      ensures r.Pass? ==> items == old(items)[i := Wrap(v, fieldPath, depth + 1)]
                          && Contents() == old(Contents())[i := v]
                          && parent.reported == old(parent.reported) + [fieldPath]
    {
      var wrapped := WrapValue(v, fieldPath, depth + 1);
      if wrapped.Err? {
        return Fail(Constraint(wrapped.error));
      }
      if i >= |items| {
        return Fail(IndexError);
      }
      WrapWellFormed(v, fieldPath, depth + 1);
      UnwrapWrap(v, fieldPath, depth + 1);
      items := items[i := wrapped.value];
      parent.MarkFieldDirty(fieldPath);
      r := Pass;
    }

    /**
     * `lst[lo:hi] = vs`: wraps every new value first; on success replaces the
     * clamped slice by them (the length may change) and reports.
     */
    method SetSlice(lo: nat, hi: nat, vs: seq<Value>) returns (r: Outcome<ProxyError>)
      requires Valid()
      modifies this, parent
      ensures Valid()
      ensures r.Pass? <==> ChildrenWrappable(List(vs), depth)
      ensures r.Fail? ==> r.error.Constraint? && IsChildViolation(List(vs), depth, r.error.e)
                          && items == old(items) && parent.reported == old(parent.reported)
      ensures r.Pass? ==>
                var a, b := Clamp(lo, |old(items)|), SliceEnd(lo, hi, |old(items)|);
                items == old(items)[..a] + WrappedItems(vs, fieldPath, depth) + old(items)[b..]
                && Contents() == old(Contents())[..a] + vs + old(Contents())[b..]
                && parent.reported == old(parent.reported) + [fieldPath]
    {
      var wrapped := WrapListData(vs, fieldPath, depth);
      if wrapped.Err? {
        return Fail(Constraint(wrapped.error));
      }
      var a, b := Clamp(lo, |items|), SliceEnd(lo, hi, |items|);
      WrappedItemsWellFormed(vs, fieldPath, depth);
      UnwrapWrappedItems(vs, fieldPath, depth);
      UnwrapSplice(items, a, b, wrapped.value);
      items := items[..a] + wrapped.value + items[b..];
      parent.MarkFieldDirty(fieldPath);
      r := Pass;
    }

    /** `del lst[i]`: IndexError (and no report) when out of range; otherwise removes item `i` and reports. */
    method DelItem(i: nat) returns (r: Outcome<ProxyError>)
      requires Valid()
      modifies this, parent
      ensures Valid()
      ensures r.Pass? <==> i < |old(Contents())|
      ensures r.Fail? ==> r.error == IndexError && items == old(items) && parent.reported == old(parent.reported)
      ensures r.Pass? ==> items == old(items)[..i] + old(items)[i + 1..]
                          && Contents() == old(Contents())[..i] + old(Contents())[i + 1..]
                          && parent.reported == old(parent.reported) + [fieldPath]
    {
      if i >= |items| {
        return Fail(IndexError);
      }
      UnwrapSplice(items, i, i + 1, []);
      items := items[..i] + items[i + 1..];
      parent.MarkFieldDirty(fieldPath);
      r := Pass;
    }

    /** `del lst[lo:hi]`: removes the clamped slice (possibly nothing) and always reports. */
    method DelSlice(lo: nat, hi: nat)
      requires Valid()
      modifies this, parent
      ensures Valid()
      ensures var a, b := Clamp(lo, |old(items)|), SliceEnd(lo, hi, |old(items)|);
              items == old(items)[..a] + old(items)[b..]
              && Contents() == old(Contents())[..a] + old(Contents())[b..]
      ensures parent.reported == old(parent.reported) + [fieldPath]
    {
      var a, b := Clamp(lo, |items|), SliceEnd(lo, hi, |items|);
      UnwrapSplice(items, a, b, []);
      items := items[..a] + items[b..];
      parent.MarkFieldDirty(fieldPath);
    }

    /**
     * `lst.insert(i, v)`: wraps `v`, then inserts it before position `i`
     * (at the end when `i` is past it) and reports.
     */
    method Insert(i: nat, v: Value) returns (r: Outcome<ProxyError>)
      requires Valid()
      modifies this, parent
      ensures Valid()
      ensures r.Pass? <==> Wrappable(v, depth + 1)
      ensures r.Fail? ==> r.error.Constraint? && IsViolation(v, depth + 1, r.error.e)
                          && items == old(items) && parent.reported == old(parent.reported)
      ensures r.Pass? ==>
                var a := Clamp(i, |old(items)|);
                items == old(items)[..a] + [Wrap(v, fieldPath, depth + 1)] + old(items)[a..]
                && Contents() == old(Contents())[..a] + [v] + old(Contents())[a..]
                && parent.reported == old(parent.reported) + [fieldPath]
    {
      var wrapped := WrapValue(v, fieldPath, depth + 1);
      if wrapped.Err? {
        return Fail(Constraint(wrapped.error));
      }
      var a := Clamp(i, |items|);
      WrapWellFormed(v, fieldPath, depth + 1);
      UnwrapWrap(v, fieldPath, depth + 1);
      UnwrapSplice(items, a, a, [wrapped.value]);
      items := items[..a] + [wrapped.value] + items[a..];
      parent.MarkFieldDirty(fieldPath);
      r := Pass;
    }

    /** `lst.append(v)`: wraps `v`, adds it at the end and reports. */
    method Append(v: Value) returns (r: Outcome<ProxyError>)
      requires Valid()
      modifies this, parent
      ensures Valid()
      ensures r.Pass? <==> Wrappable(v, depth + 1)
      ensures r.Fail? ==> r.error.Constraint? && IsViolation(v, depth + 1, r.error.e)
                          && items == old(items) && parent.reported == old(parent.reported)
      ensures r.Pass? ==> items == old(items) + [Wrap(v, fieldPath, depth + 1)]
                          && Contents() == old(Contents()) + [v]
                          && parent.reported == old(parent.reported) + [fieldPath]
    {
      var wrapped := WrapValue(v, fieldPath, depth + 1);
      if wrapped.Err? {
        return Fail(Constraint(wrapped.error));
      }
      WrapWellFormed(v, fieldPath, depth + 1);
      UnwrapWrap(v, fieldPath, depth + 1);
      UnwrapSplice(items, |items|, |items|, [wrapped.value]);
      items := items + [wrapped.value];
      parent.MarkFieldDirty(fieldPath);
      r := Pass;
    }

    /**
     * `lst.extend(vs)`: wraps all the new values before touching the list,
     * so a rejected value leaves it unchanged; on success appends them and
     * reports once.
     */
    method Extend(vs: seq<Value>) returns (r: Outcome<ProxyError>)
      requires Valid()
      modifies this, parent
      ensures Valid()
      ensures r.Pass? <==> ChildrenWrappable(List(vs), depth)
      ensures r.Fail? ==> r.error.Constraint? && IsChildViolation(List(vs), depth, r.error.e)
                          && items == old(items) && parent.reported == old(parent.reported)
      ensures r.Pass? ==> items == old(items) + WrappedItems(vs, fieldPath, depth)
                          && Contents() == old(Contents()) + vs
                          && parent.reported == old(parent.reported) + [fieldPath]
    {
      var wrapped := WrapListData(vs, fieldPath, depth);
      if wrapped.Err? {
        return Fail(Constraint(wrapped.error));
      }
      WrappedItemsWellFormed(vs, fieldPath, depth);
      UnwrapWrappedItems(vs, fieldPath, depth);
      UnwrapSplice(items, |items|, |items|, wrapped.value);
      items := items + wrapped.value;
      parent.MarkFieldDirty(fieldPath);
      r := Pass;
    }

    /** `lst.pop()`: IndexError (and no report) on an empty list; otherwise removes the last item and returns it unwrapped. */
    method Pop() returns (r: Result<Value, ProxyError>)
      requires Valid()
      modifies this, parent
      ensures Valid()
      ensures r.Ok? <==> old(Contents()) != []
      ensures r.Err? ==> r.error == IndexError && items == old(items) && parent.reported == old(parent.reported)
      ensures r.Ok? ==> r.value == old(Contents())[|old(Contents())| - 1]
                        && items == old(items)[..|old(items)| - 1]
                        && Contents() == old(Contents())[..|old(Contents())| - 1]
                        && parent.reported == old(parent.reported) + [fieldPath]
    {
      if items == [] {
        return Err(IndexError);
      }
      var last := |items| - 1;
      var result := items[last];
      UnwrapSplice(items, last, last + 1, []);
      items := items[..last];
      parent.MarkFieldDirty(fieldPath);
      r := Ok(Unwrap(result));
    }

    /** `lst.pop(i)`: IndexError (and no report) when out of range; otherwise removes item `i` and returns it unwrapped. */
    method PopAt(i: nat) returns (r: Result<Value, ProxyError>)
      requires Valid()
      modifies this, parent
      ensures Valid()
      ensures r.Ok? <==> i < |old(Contents())|
      ensures r.Err? ==> r.error == IndexError && items == old(items) && parent.reported == old(parent.reported)
      ensures r.Ok? ==> r.value == old(Contents())[i]
                        && items == old(items)[..i] + old(items)[i + 1..]
                        && Contents() == old(Contents())[..i] + old(Contents())[i + 1..]
                        && parent.reported == old(parent.reported) + [fieldPath]
    {
      if i >= |items| {
        return Err(IndexError);
      }
      var result := items[i];
      UnwrapSplice(items, i, i + 1, []);
      items := items[..i] + items[i + 1..];
      parent.MarkFieldDirty(fieldPath);
      r := Ok(Unwrap(result));
    }

    /**
     * `lst.remove(v)`: ValueError (and no report) when no item equals `v`;
     * otherwise removes only the first such item and reports. A stored item
     * equals `v` exactly when it unwraps to `v` (lemma ProxyMatchesIff).
     */
    method Remove(v: Value) returns (r: Outcome<ProxyError>)
      requires Valid()
      modifies this, parent
      ensures Valid()
      ensures r.Pass? <==> v in old(Contents())
      ensures r.Fail? ==> r.error == ValueError && items == old(items) && parent.reported == old(parent.reported)
      ensures r.Pass? ==> exists k :: 0 <= k < |old(items)| && old(Contents())[k] == v && v !in old(Contents())[..k]
                                      && items == old(items)[..k] + old(items)[k + 1..]
                                      && Contents() == old(Contents())[..k] + old(Contents())[k + 1..]
      ensures r.Pass? ==> parent.reported == old(parent.reported) + [fieldPath]
    {
      var found := FirstIndexOf(Contents(), v);
      if found.None? {
        return Fail(ValueError);
      }
      var k := found.value;
      UnwrapSplice(items, k, k + 1, []);
      items := items[..k] + items[k + 1..];
      parent.MarkFieldDirty(fieldPath);
      r := Pass;
    }

    /** `lst.clear()`: empties the list and always reports. */
    method Clear()
      modifies this, parent
      ensures Valid()
      ensures items == [] && Contents() == []
      ensures parent.reported == old(parent.reported) + [fieldPath]
    {
      items := [];
      parent.MarkFieldDirty(fieldPath);
    }

    /** `lst.reverse()`: reverses the items in place and always reports. */
    method Reverse()
      requires Valid()
      modifies this, parent
      ensures Valid()
      ensures items == Reversed(old(items)) && Contents() == Reversed(old(Contents()))
      ensures parent.reported == old(parent.reported) + [fieldPath]
    {
      items := Reversed(items);
      parent.MarkFieldDirty(fieldPath);
    }

    /**
     * `lst.sort()`: TypeError (and no report) when two items cannot be
     * compared; otherwise leaves a sorted permutation of the items and reports.
     */
    method Sort() returns (r: Outcome<ProxyError>)
      requires Valid()
      modifies this, parent
      ensures Valid()
      ensures r.Pass? <==> Sortable(old(items))
      ensures r.Fail? ==> r.error == TypeError && multiset(items) == multiset(old(items))
                          && parent.reported == old(parent.reported)
      ensures r.Pass? ==> multiset(items) == multiset(old(items)) && SortedItems(items)
                          && parent.reported == old(parent.reported) + [fieldPath]
    {
      if |items| <= 1 {
      } else if AllOfKind(items, true) {
        assert WellFormed(items[0], fieldPath, depth + 1);
        items := SortItems(items, true);
      } else if AllOfKind(items, false) {
        assert WellFormed(items[0], fieldPath, depth + 1);
        items := SortItems(items, false);
      } else {
        return Fail(TypeError);
      }
      assert forall i :: 0 <= i < |items| ==> WellFormed(items[i], fieldPath, depth + 1);
      parent.MarkFieldDirty(fieldPath);
      r := Pass;
    }

    /** `lst == other` for a plain value: true exactly for the list the proxy stands for. */
    function Equals(other: Value): (r: bool)
      reads this
      ensures r <==> other == List(Contents())
    {
      ProxyMatchesIff(ListProxy(items, fieldPath, depth), other);
      other.List? && |items| == |other.items|
      && forall i :: 0 <= i < |items| ==> ProxyMatches(items[i], other.items[i])
    }

    /** `lst == other` for another ProxiedList: compares contents, whatever the fields and depths. */
    function EqualsList(other: ProxiedList): (r: bool)
      reads this, other
      ensures r <==> Contents() == other.Contents()
    {
      ProxyEqIff(ListProxy(items, fieldPath, depth), ListProxy(other.items, other.fieldPath, other.depth));
      |items| == |other.items| && forall i :: 0 <= i < |items| ==> ProxyEq(items[i], other.items[i])
    }
  }
}
