/**
 * `ProxiedMap`: a dict whose values are stored wrapped, which validates every
 * key it stores and reports its top-level field to the parent after every
 * successful mutation.
 */
module ProxiedMaps {
  import opened Outcomes
  import opened FirestoreConstraints
  import opened Wrapping
  import opened DirtyRecording

  /** Entry-by-entry assignment, as a run of `d[k] = v` statements does it. */
  function AssignAll(m: map<string, Value>, pairs: seq<(string, Value)>): map<string, Value>
    decreases |pairs|
  {
    if pairs == [] then m else AssignAll(m[pairs[0].0 := pairs[0].1], pairs[1..])
  }

  /** `n` reports of the same field path. */
  function Reports(fieldPath: string, n: nat): seq<string>
  {
    seq(n, _ => fieldPath)
  }

  /** `__setitem__` accepts the pair. */
  predicate Assignable(pair: (string, Value), depth: int)
  {
    IsValidFieldName(pair.0) && Wrappable(pair.1, depth + 1)
  }

  /** Every pair is accepted. */
  predicate AllAssignable(pairs: seq<(string, Value)>, depth: int)
  {
    forall i :: 0 <= i < |pairs| ==> Assignable(pairs[i], depth)
  }

  /** A run of assignments stops at pair `n`: the first one rejected. */
  predicate StopsAt(pairs: seq<(string, Value)>, n: int, depth: int)
  {
    0 <= n < |pairs| && !Assignable(pairs[n], depth) && AllAssignable(pairs[..n], depth)
  }

  lemma AllAssignableStep(pairs: seq<(string, Value)>, n: nat, depth: int)
    requires n < |pairs| && AllAssignable(pairs[..n], depth) && Assignable(pairs[n], depth)
    ensures AllAssignable(pairs[..n + 1], depth)
  {
    assert pairs[..n + 1] == pairs[..n] + [pairs[n]];
  }

  lemma ReportsStep(fieldPath: string, n: nat)
    ensures Reports(fieldPath, n + 1) == Reports(fieldPath, n) + [fieldPath]
  {
  }

  /** Storing a well-formed child under a valid name keeps the container invariant. */
  lemma StoreKeepsWellFormed(data: map<string, Proxy>, key: string, w: Proxy, fieldPath: string, depth: int)
    requires ChildrenWellFormed(MapProxy(data, fieldPath, depth), fieldPath, depth)
    requires IsValidFieldName(key) && WellFormed(w, fieldPath, depth + 1)
    ensures ChildrenWellFormed(MapProxy(data[key := w], fieldPath, depth), fieldPath, depth)
  {
  }

  /**
   * The two checks `m[key] = v` makes before storing: the key at `depth`,
   * then `_wrap_value(v, ...)` at `depth + 1`.
   */
  method ValidateAndWrap(key: string, v: Value, fieldPath: string, depth: int)
    returns (r: Result<Proxy, ConstraintError>)
    ensures r.Ok? <==> Assignable((key, v), depth)
    ensures !IsValidFieldName(key) ==> r == Err(ValidateFieldName(key, depth).error)
    ensures r.Err? && IsValidFieldName(key) ==> IsViolation(v, depth + 1, r.error)
    ensures r.Ok? ==> r.value == Wrap(v, fieldPath, depth + 1)
                      && WellFormed(r.value, fieldPath, depth + 1) && Unwrap(r.value) == v
  {
    var nameCheck := ValidateFieldName(key, depth);
    if nameCheck.Fail? {
      return Err(nameCheck.error);
    }
    r := WrapValue(v, fieldPath, depth + 1);
    if r.Ok? {
      WrapWellFormed(v, fieldPath, depth + 1);
      UnwrapWrap(v, fieldPath, depth + 1);
    }
  }

  class ProxiedMap {
    /** `_data`: the stored (wrapped) values. */
    var data: map<string, Proxy>
    /** `_parent`, `_field_path`, `_depth`: fixed at construction. */
    const parent: DirtyRecorder
    const fieldPath: string
    const depth: int

    /** Every key is a valid name and every value is wrapped one level deeper under the same field. */
    ghost predicate Valid()
      reads this
    {
      ChildrenWellFormed(MapProxy(data, fieldPath, depth), fieldPath, depth)
    }

    /** The plain dict the proxy stands for (what `_unwrap_value` returns for it). */
    function Contents(): map<string, Value>
      reads this
    {
      UnwrapEntries(data)
    }

    /** Sets the fixed attributes and the already wrapped storage. */
    constructor (parent: DirtyRecorder, fieldPath: string, depth: int, data: map<string, Proxy>)
      ensures this.parent == parent && this.fieldPath == fieldPath && this.depth == depth
      ensures this.data == data
    {
      this.parent := parent;
      this.fieldPath := fieldPath;
      this.depth := depth;
      this.data := data;
    }

    /**
     * `ProxiedMap(data, parent, field_path, depth)`: validates every key at
     * `depth` and wraps every value at `depth + 1`; raises on the first
     * failure. Nothing is reported to the parent.
     */
    static method New(m: map<string, Value>, parent: DirtyRecorder, fieldPath: string, depth: int)
      returns (r: Result<ProxiedMap, ProxyError>)
      ensures r.Ok? <==> ChildrenWrappable(Map(m), depth)
      ensures r.Err? ==> r.error.Constraint? && IsChildViolation(Map(m), depth, r.error.e)
      ensures r.Ok? ==> fresh(r.value) && r.value.Valid()
                        && r.value.parent == parent && r.value.fieldPath == fieldPath && r.value.depth == depth
                        && r.value.data == WrappedEntries(m, fieldPath, depth)
                        && r.value.Contents() == m
    {
      var wrapped := WrapMapData(m, fieldPath, depth);
      if wrapped.Err? {
        return Err(Constraint(wrapped.error));
      }
      WrappedEntriesWellFormed(m, fieldPath, depth);
      var pm := new ProxiedMap(parent, fieldPath, depth, wrapped.value);
      UnwrapWrappedEntries(m, fieldPath, depth);
      r := Ok(pm);
    }

    /** `m[key]`: the stored (wrapped) value; KeyError when absent. Reports nothing. */
    method GetItem(key: string) returns (r: Result<Proxy, ProxyError>)
      ensures r.Ok? <==> key in Contents()
      ensures r.Ok? ==> r.value == data[key] && Unwrap(r.value) == Contents()[key]
      ensures r.Err? ==> r.error == KeyError
    {
      if key !in data {
        return Err(KeyError);
      }
      r := Ok(data[key]);
    }

    /** `len(m)`. Reports nothing. */
    method Len() returns (n: nat)
      ensures n == |Contents()|
    {
      assert Contents().Keys == data.Keys;
      n := |data|;
    }

    /**
     * `m[key] = v`: validates the key at the map's depth, then wraps `v` one
     * level deeper; on success stores it and reports the field once; on
     * failure nothing changes and nothing is reported.
     */
    method SetItem(key: string, v: Value) returns (r: Outcome<ProxyError>)
      requires Valid()
      modifies this, parent
      ensures Valid()
      ensures r.Pass? <==> Assignable((key, v), depth)
      ensures !IsValidFieldName(key) ==> r == Fail(Constraint(ValidateFieldName(key, depth).error))
      ensures r.Fail? && IsValidFieldName(key) ==> r.error.Constraint? && IsViolation(v, depth + 1, r.error.e)
      ensures r.Fail? ==> data == old(data) && parent.reported == old(parent.reported)
      ensures r.Pass? ==> data == old(data)[key := Wrap(v, fieldPath, depth + 1)]
                          && Contents() == old(Contents())[key := v]
                          && parent.reported == old(parent.reported) + [fieldPath]
    {
      var wrapped := ValidateAndWrap(key, v, fieldPath, depth);
      if wrapped.Err? {
        return Fail(Constraint(wrapped.error));
      }
      UnwrapEntriesAssign(data, key, wrapped.value);
      StoreKeepsWellFormed(data, key, wrapped.value, fieldPath, depth);
      data := data[key := wrapped.value];
      parent.MarkFieldDirty(fieldPath);
      r := Pass;
    }

    /** `del m[key]`: KeyError (and no report) when absent; otherwise removes only that key and reports. */
    method DelItem(key: string) returns (r: Outcome<ProxyError>)
      requires Valid()
      modifies this, parent
      ensures Valid()
      ensures r.Pass? <==> key in old(Contents())
      ensures r.Fail? ==> r.error == KeyError && data == old(data) && parent.reported == old(parent.reported)
      ensures r.Pass? ==> data == old(data) - {key} && Contents() == old(Contents()) - {key}
                          && parent.reported == old(parent.reported) + [fieldPath]
    {
      if key !in data {
        return Fail(KeyError);
      }
      data := data - {key};
      parent.MarkFieldDirty(fieldPath);
      r := Pass;
    }

    /** `m.clear()`: empties the map and always reports. */
    method Clear()
      modifies this, parent
      ensures Valid()
      ensures data == map[] && Contents() == map[]
      ensures parent.reported == old(parent.reported) + [fieldPath]
    {
      data := map[];
      parent.MarkFieldDirty(fieldPath);
    }

    /**
     * `m.pop(key)`: KeyError (and no report) when absent; otherwise removes
     * the key, reports, and returns the removed value unwrapped.
     */
    method Pop(key: string) returns (r: Result<Value, ProxyError>)
      requires Valid()
      modifies this, parent
      ensures Valid()
      ensures r.Ok? <==> key in old(Contents())
      ensures r.Err? ==> r.error == KeyError && data == old(data) && parent.reported == old(parent.reported)
      ensures r.Ok? ==> r.value == old(Contents())[key]
                        && data == old(data) - {key} && Contents() == old(Contents()) - {key}
                        && parent.reported == old(parent.reported) + [fieldPath]
    {
      if key !in data {
        return Err(KeyError);
      }
      var result := data[key];
      data := data - {key};
      parent.MarkFieldDirty(fieldPath);
      r := Ok(Unwrap(result));
    }

    /**
     * `m.pop(key, default)`: removes and returns the unwrapped value when
     * present, returns `default` otherwise; reports in both cases.
     */
    method PopDefault(key: string, default: Value) returns (r: Value)
      requires Valid()
      modifies this, parent
      ensures Valid()
      ensures key in old(Contents()) ==> r == old(Contents())[key] && data == old(data) - {key}
      ensures key !in old(Contents()) ==> r == default && data == old(data)
      ensures Contents() == old(Contents()) - {key}
      ensures parent.reported == old(parent.reported) + [fieldPath]
    {
      if key in data {
        r := Unwrap(data[key]);
        data := data - {key};
      } else {
        r := default;
      }
      parent.MarkFieldDirty(fieldPath);
    }

    /**
     * `m.popitem()`: KeyError (and no report) on an empty map; otherwise
     * removes some entry, reports, and returns its key and unwrapped value.
     */
    method PopItem() returns (r: Result<(string, Value), ProxyError>)
      requires Valid()
      modifies this, parent
      ensures Valid()
      ensures r.Ok? <==> old(Contents()) != map[]
      ensures r.Err? ==> r.error == KeyError && data == old(data) && parent.reported == old(parent.reported)
      ensures r.Ok? ==> r.value.0 in old(Contents()) && r.value.1 == old(Contents())[r.value.0]
                        && data == old(data) - {r.value.0} && Contents() == old(Contents()) - {r.value.0}
                        && parent.reported == old(parent.reported) + [fieldPath]
    {
      if data == map[] {
        assert Contents() == map[];
        return Err(KeyError);
      }
      var key :| key in data;
      var value := data[key];
      data := data - {key};
      parent.MarkFieldDirty(fieldPath);
      r := Ok((key, Unwrap(value)));
    }

    /**
     * `m.setdefault(key, default)`: a present key returns its stored value
     * and changes and reports nothing; an absent key is validated, the
     * default wrapped and stored, the field reported, and the wrapped
     * default returned.
     */
    method SetDefault(key: string, default: Value) returns (r: Result<Proxy, ProxyError>)
      requires Valid()
      modifies this, parent
      ensures Valid()
      ensures key in old(data) ==> r == Ok(old(data)[key]) && data == old(data)
                                   && parent.reported == old(parent.reported)
      ensures key !in old(data) ==> (r.Ok? <==> Assignable((key, default), depth))
      ensures key !in old(data) && r.Ok? ==>
                r.value == Wrap(default, fieldPath, depth + 1)
                && data == old(data)[key := r.value] && Contents() == old(Contents())[key := default]
                && parent.reported == old(parent.reported) + [fieldPath]
      ensures r.Err? ==> r.error.Constraint? && data == old(data) && parent.reported == old(parent.reported)
    {
      if key in data {
        return Ok(data[key]);
      }
      // The same validation, wrapping and report as `m[key] = default`.
      var stored := SetItem(key, default);
      if stored.Fail? {
        return Err(stored.error);
      }
      r := Ok(data[key]);
    }

    /**
     * `m.update(positional, **keywords)`: one `m[k] = v` per pair, the
     * positional pairs first. Not atomic: a rejected pair stops the run but
     * keeps the assignments (and reports) made before it.
     */
    method Update(positional: seq<(string, Value)>, keywords: seq<(string, Value)>)
      returns (r: Outcome<ProxyError>)
      requires Valid()
      modifies this, parent
      ensures Valid()
      ensures r.Pass? <==> AllAssignable(positional + keywords, depth)
      ensures r.Pass? ==> Contents() == AssignAll(old(Contents()), positional + keywords)
                          && parent.reported == old(parent.reported) + Reports(fieldPath, |positional + keywords|)
      ensures r.Fail? ==> exists n :: StopsAt(positional + keywords, n, depth)
                            && Contents() == AssignAll(old(Contents()), (positional + keywords)[..n])
                            && parent.reported == old(parent.reported) + Reports(fieldPath, n)
    {
      var pairs := positional + keywords;
      ghost var start, startReported := Contents(), parent.reported;
      for n := 0 to |pairs|
        invariant Valid()
        invariant AllAssignable(pairs[..n], depth)
        invariant Contents() == AssignAll(start, pairs[..n])
        invariant parent.reported == startReported + Reports(fieldPath, n)
      {
        r := SetItem(pairs[n].0, pairs[n].1);
        if r.Fail? {
          assert StopsAt(pairs, n, depth);
          return;
        }
        AssignAllStep(start, pairs, n);
        AllAssignableStep(pairs, n, depth);
        ReportsStep(fieldPath, n);
      }
      assert pairs[..|pairs|] == pairs;
      r := Pass;
    }

    /** `m == other` for a plain value: true exactly for the dict the proxy stands for. */
    function Equals(other: Value): (r: bool)
      reads this
      ensures r <==> other == Map(Contents())
    {
      ProxyMatchesIff(MapProxy(data, fieldPath, depth), other);
      other.Map? && data.Keys == other.entries.Keys
      && forall k :: k in data ==> ProxyMatches(data[k], other.entries[k])
    }

    /** `m == other` for another ProxiedMap: compares contents, whatever the fields and depths. */
    function EqualsMap(other: ProxiedMap): (r: bool)
      reads this, other
      ensures r <==> Contents() == other.Contents()
    {
      ProxyEqIff(MapProxy(data, fieldPath, depth), MapProxy(other.data, other.fieldPath, other.depth));
      data.Keys == other.data.Keys && forall k :: k in data ==> ProxyEq(data[k], other.data[k])
    }
  }

  /** One more assignment extends the run by one pair. */
  lemma AssignAllStep(m: map<string, Value>, pairs: seq<(string, Value)>, n: nat)
    requires n < |pairs|
    ensures AssignAll(m, pairs[..n + 1]) == AssignAll(m, pairs[..n])[pairs[n].0 := pairs[n].1]
  {
    AssignAllSnoc(m, pairs[..n], pairs[n]);
    assert pairs[..n] + [pairs[n]] == pairs[..n + 1];
  }

  /** Assigning a run followed by one pair is assigning the run, then the pair. */
  lemma {:induction false} AssignAllSnoc(m: map<string, Value>, pairs: seq<(string, Value)>, last: (string, Value))
    ensures AssignAll(m, pairs + [last]) == AssignAll(m, pairs)[last.0 := last.1]
    decreases |pairs|
  {
    if pairs != [] {
      assert (pairs + [last])[1..] == pairs[1..] + [last];
      AssignAllSnoc(m[pairs[0].0 := pairs[0].1], pairs[1..], last);
    }
  }
}
