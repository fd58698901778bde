/**
 * The ordering `list.sort()` applies to the items of a ProxiedList, and a
 * sort that yields a sorted permutation. Python orders numbers (bool counts
 * as the integer 0 or 1) against numbers and strings against strings; any
 * other pair, and any pair involving None, a dict or a list, cannot be
 * compared and makes the sort raise TypeError.
 */
module Sorting {
  import opened Wrapping

  /** An integer or a bool, which Python compares as integers. */
  predicate Numeric(a: Atom)
  {
    a.Int? || a.Bool?
  }

  /** The integer value of a numeric scalar: False is 0, True is 1. */
  function NumValue(a: Atom): int
    requires Numeric(a)
  {
    if a.Int? then a.i else if a.b then 1 else 0
  }

  /** Python `s <= t` on strings: lexicographic by code point. */
  predicate StrLe(s: string, t: string)
    decreases |s|
  {
    s == [] || (t != [] && (s[0] < t[0] || (s[0] == t[0] && StrLe(s[1..], t[1..]))))
  }

  lemma {:induction false} StrLeTotal(s: string, t: string)
    ensures StrLe(s, t) || StrLe(t, s)
    decreases |s|
  {
    if s != [] && t != [] && s[0] == t[0] {
      StrLeTotal(s[1..], t[1..]);
    }
  }

  lemma {:induction false} StrLeTransitive(s: string, t: string, u: string)
    requires StrLe(s, t) && StrLe(t, u)
    ensures StrLe(s, u)
    decreases |s|
  {
    if s != [] && t != [] && u != [] && s[0] == t[0] && t[0] == u[0] {
      StrLeTransitive(s[1..], t[1..], u[1..]);
    }
  }

  /** A stored item of one comparable kind: a numeric scalar (`numeric`) or a string scalar. */
  predicate OfKind(p: Proxy, numeric: bool)
  {
    p.Plain? && (if numeric then Numeric(p.atom) else p.atom.Str?)
  }

  predicate AllOfKind(s: seq<Proxy>, numeric: bool)
  {
    forall i :: 0 <= i < |s| ==> OfKind(s[i], numeric)
  }

  /** Python `p <= q` between two stored items; false when they cannot be compared. */
  predicate ItemLe(p: Proxy, q: Proxy)
  {
    p.Plain? && q.Plain?
    && ((Numeric(p.atom) && Numeric(q.atom) && NumValue(p.atom) <= NumValue(q.atom))
        || (p.atom.Str? && q.atom.Str? && StrLe(p.atom.s, q.atom.s)))
  }

  predicate SortedItems(s: seq<Proxy>)
  {
    forall i, j :: 0 <= i < j < |s| ==> ItemLe(s[i], s[j])
  }

  /**
   * `list.sort()` completes: nothing needs comparing (at most one item), or
   * all items are numbers, or all are strings.
   */
  predicate Sortable(s: seq<Proxy>)
  {
    |s| <= 1 || AllOfKind(s, true) || AllOfKind(s, false)
  }

  /** Items of one kind are always comparable one way or the other. */
  lemma ItemLeTotal(p: Proxy, q: Proxy, numeric: bool)
    requires OfKind(p, numeric) && OfKind(q, numeric)
    ensures ItemLe(p, q) || ItemLe(q, p)
  {
    if !numeric {
      StrLeTotal(p.atom.s, q.atom.s);
    }
  }

  lemma ItemLeTransitive(p: Proxy, q: Proxy, r: Proxy)
    requires ItemLe(p, q) && ItemLe(q, r)
    ensures ItemLe(p, r)
  {
    if p.atom.Str? && q.atom.Str? && r.atom.Str? {
      StrLeTransitive(p.atom.s, q.atom.s, r.atom.s);
    }
  }

  /** Every item of `s` is at least `y`. */
  predicate Above(y: Proxy, s: seq<Proxy>)
  {
    forall j :: 0 <= j < |s| ==> ItemLe(y, s[j])
  }

  /** A lower bound of two runs' items is a lower bound of any rearrangement of them. */
  lemma AboveKept(y: Proxy, s: seq<Proxy>, x: Proxy, r: seq<Proxy>)
    requires Above(y, s) && ItemLe(y, x)
    requires multiset(r) == multiset(s) + multiset{x}
    ensures Above(y, r)
  {
    forall j | 0 <= j < |r| ensures ItemLe(y, r[j]) {
      assert r[j] in multiset(r);
      if r[j] != x {
        assert r[j] in multiset(s);
        var k :| 0 <= k < |s| && s[k] == r[j];
      }
    }
  }

  /** Prefixing a sorted run with a lower bound keeps it sorted. */
  lemma SortedCons(y: Proxy, s: seq<Proxy>)
    requires SortedItems(s) && Above(y, s)
    ensures SortedItems([y] + s)
  {
    var t := [y] + s;
    forall i, j | 0 <= i < j < |t| ensures ItemLe(t[i], t[j]) {
      if i > 0 {
        assert t[i] == s[i - 1] && t[j] == s[j - 1];
      } else {
        assert t[j] == s[j - 1];
      }
    }
  }

  /** An item that does not stay at or below the head of a sorted run is a lower bound of the run. */
  lemma BelowHead(x: Proxy, s: seq<Proxy>, numeric: bool)
    requires OfKind(x, numeric) && s != [] && OfKind(s[0], numeric)
    requires SortedItems(s) && !ItemLe(s[0], x)
    ensures Above(x, s)
  {
    ItemLeTotal(s[0], x, numeric);
    forall j | 0 <= j < |s| ensures ItemLe(x, s[j]) {
      if j > 0 {
        ItemLeTransitive(x, s[0], s[j]);
      }
    }
  }

  /** Prefixing an item of the run's kind keeps the run of one kind. */
  lemma OfKindCons(y: Proxy, s: seq<Proxy>, numeric: bool)
    requires OfKind(y, numeric) && AllOfKind(s, numeric)
    ensures AllOfKind([y] + s, numeric)
  {
    var t := [y] + s;
    forall i | 0 <= i < |t| ensures OfKind(t[i], numeric) {
      if i > 0 {
        assert t[i] == s[i - 1];
      }
    }
  }

  /** The tail of a sorted run of one kind is again a sorted run of that kind. */
  lemma TailSorted(s: seq<Proxy>, numeric: bool)
    requires s != [] && AllOfKind(s, numeric) && SortedItems(s)
    ensures AllOfKind(s[1..], numeric) && SortedItems(s[1..])
  {
    var t := s[1..];
    forall i, j | 0 <= i < j < |t| ensures ItemLe(t[i], t[j]) {
      assert t[i] == s[i + 1] && t[j] == s[j + 1];
    }
  }

  /** Keeping the head in front of `x` inserted into the tail. */
  lemma InsertAfterHead(x: Proxy, s: seq<Proxy>, rest: seq<Proxy>, numeric: bool)
    requires s != [] && AllOfKind(s, numeric) && SortedItems(s) && ItemLe(s[0], x)
    requires multiset(rest) == multiset(s[1..]) + multiset{x}
    requires AllOfKind(rest, numeric) && SortedItems(rest)
    ensures multiset([s[0]] + rest) == multiset(s) + multiset{x}
    ensures AllOfKind([s[0]] + rest, numeric) && SortedItems([s[0]] + rest)
  {
    assert s == [s[0]] + s[1..];
    AboveKept(s[0], s[1..], x, rest);
    SortedCons(s[0], rest);
    OfKindCons(s[0], rest, numeric);
  }

  /** Putting `x` in front of a run whose head is greater. */
  lemma InsertBeforeHead(x: Proxy, s: seq<Proxy>, numeric: bool)
    requires OfKind(x, numeric) && s != [] && AllOfKind(s, numeric)
    requires SortedItems(s) && !ItemLe(s[0], x)
    ensures AllOfKind([x] + s, numeric) && SortedItems([x] + s)
  {
    BelowHead(x, s, numeric);
    SortedCons(x, s);
    OfKindCons(x, s, numeric);
  }

  /** Inserts `x` into a sorted run, after every item not greater than it. */
  function InsertItem(x: Proxy, s: seq<Proxy>, numeric: bool): (r: seq<Proxy>)
    requires OfKind(x, numeric) && AllOfKind(s, numeric) && SortedItems(s)
    ensures multiset(r) == multiset(s) + multiset{x}
    ensures AllOfKind(r, numeric) && SortedItems(r)
    decreases |s|
  {
    if s == [] then [x]
    else if ItemLe(s[0], x) then
      TailSorted(s, numeric);
      var rest := InsertItem(x, s[1..], numeric);
      InsertAfterHead(x, s, rest, numeric);
      [s[0]] + rest
    else
      InsertBeforeHead(x, s, numeric);
      [x] + s
  }

  /** Insertion sort of a run of one kind: a sorted permutation of it. */
  function SortItems(s: seq<Proxy>, numeric: bool): (r: seq<Proxy>)
    requires AllOfKind(s, numeric)
    ensures multiset(r) == multiset(s)
    ensures AllOfKind(r, numeric) && SortedItems(r)
    decreases |s|
  {
    if s == [] then []
    else
      assert s == s[..|s| - 1] + [s[|s| - 1]];
      InsertItem(s[|s| - 1], SortItems(s[..|s| - 1], numeric), numeric)
  }
}
