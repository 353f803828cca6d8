/** Small shared vocabulary: optional values, the outcome of a call that may throw,
    values that may or may not be arrays, JavaScript truthiness, `Array.prototype.slice`
    and a stable sort in descending order of a numeric key (`sort((a, b) => key(b) - key(a))`). */
module Common {

  datatype Option<+T> = None | Some(value: T) {
    /** `x ?? d` for a value that is either present or null/undefined. */
    function GetOr(default: T): T
    {
      match this
      case Some(v) => v
      case None => default
    }
  }

  /** The result of an awaited call inside `try`: it returned a value or it threw. */
  datatype Outcome<+T> = Failed | Succeeded(value: T)

  /** A value that `Array.isArray` accepts, or any other value. */
  datatype MaybeArray<+T> = IsArray(items: seq<T>) | NotArray

  /** `Array.isArray(v) ? v : []`. */
  function ArrayOrEmpty<T>(v: MaybeArray<T>): (r: seq<T>)
    ensures v.IsArray? ==> r == v.items
    ensures v.NotArray? ==> r == []
  {
    match v
    case IsArray(items) => items
    case NotArray => []
  }

  /** A string that JavaScript treats as true: present and not empty. */
  predicate Truthy(s: Option<string>)
  {
    s.Some? && s.value != ""
  }

  /** A number that JavaScript treats as true: present and not 0. */
  predicate TruthyInt(n: Option<int>)
  {
    n.Some? && n.value != 0
  }

  /** `s || fallback` for an optional string. */
  function OrElse(s: Option<string>, fallback: string): (r: string)
    ensures Truthy(s) ==> r == s.value
    ensures !Truthy(s) ==> r == fallback
  {
    if Truthy(s) then s.value else fallback
  }

  /** `s || undefined` for an optional string: the empty string becomes absent. */
  function NonEmpty(s: Option<string>): (r: Option<string>)
    ensures r.Some? <==> Truthy(s)
    ensures r.Some? ==> r == s
  {
    if Truthy(s) then s else None
  }

  // ---------------------------------------------------------------------------
  // Array.prototype.slice

  /** How `slice` normalises one index: negative counts from the end, clamped to [0, n]. */
  function SliceIndex(i: int, n: nat): (r: nat)
    ensures r <= n
    ensures 0 <= i <= n ==> r == i
  {
    if i < 0 then (if n + i < 0 then 0 else n + i) else if i > n then n else i
  }

  /** `s.slice(start, end)`. */
  function JsSlice<T>(s: seq<T>, start: int, end: int): (r: seq<T>)
    ensures |r| <= |s|
    ensures var a, b := SliceIndex(start, |s|), SliceIndex(end, |s|);
            r == if a < b then s[a..b] else []
  {
    var a, b := SliceIndex(start, |s|), SliceIndex(end, |s|);
    if a < b then s[a..b] else []
  }

  // ---------------------------------------------------------------------------
  // Array.prototype.filter

  /** `s.filter(p)`: the elements p accepts, in their order. */
  function Filter<T>(s: seq<T>, p: T -> bool): (kept: seq<T>)
    ensures |kept| <= |s|
  {
    if s == [] then []
    else
      var rest := Filter(s[1..], p);
      if p(s[0]) then [s[0]] + rest else rest
  }

  /** The filter keeps each accepted element as often as it occurs, and no other. */
  lemma {:induction false} FilterCounts<T(!new)>(s: seq<T>, p: T -> bool)
    ensures forall x :: x in Filter(s, p) <==> x in s && p(x)
    ensures forall x :: multiset(Filter(s, p))[x] == if p(x) then multiset(s)[x] else 0
  {
    if s != [] {
      FilterCounts(s[1..], p);
      assert s == [s[0]] + s[1..];
    }
  }

  /** Filtering a concatenation filters each part and keeps them in order. */
  lemma {:induction false} FilterAppend<T(!new)>(a: seq<T>, b: seq<T>, p: T -> bool)
    ensures Filter(a + b, p) == Filter(a, p) + Filter(b, p)
  {
    if a == [] {
      assert a + b == b;
    } else {
      var c := a + b;
      assert c[0] == a[0] && c[1..] == a[1..] + b;
      FilterAppend(a[1..], b, p);
      FilterCons(c, p);
      FilterCons(a, p);
    }
  }

  lemma FilterCons<T(!new)>(s: seq<T>, p: T -> bool)
    requires s != []
    ensures Filter(s, p) == (if p(s[0]) then [s[0]] else []) + Filter(s[1..], p)
  {
  }

  /** A single element is kept exactly when p accepts it. */
  lemma FilterOne<T(!new)>(x: T, p: T -> bool)
    ensures Filter([x], p) == if p(x) then [x] else []
  {
    assert [x][1..] == [];
  }

  /** A filter that accepts every element keeps the whole sequence. */
  lemma {:induction false} FilterKeepsAll<T(!new)>(s: seq<T>, p: T -> bool)
    requires forall i :: 0 <= i < |s| ==> p(s[i])
    ensures Filter(s, p) == s
  {
    if s != [] {
      FilterKeepsAll(s[1..], p);
      assert [s[0]] + s[1..] == s;
    }
  }

  // ---------------------------------------------------------------------------
  // Stable sort in descending key order

  predicate SortedDesc<T>(s: seq<T>, key: T -> int)
  {
    forall i, j :: 0 <= i < j < |s| ==> key(s[i]) >= key(s[j])
  }

  /** Puts x in front of the first element whose key is not larger than x's, so that
      x comes before the elements of equal key that followed it. */
  function InsertDesc<T>(x: T, s: seq<T>, key: T -> int): (r: seq<T>)
    requires SortedDesc(s, key)
    ensures SortedDesc(r, key)
    ensures multiset(r) == multiset(s) + multiset{x}
    ensures |r| == |s| + 1
    ensures r[0] == if s != [] && key(s[0]) > key(x) then s[0] else x
  {
    if s == [] || key(s[0]) <= key(x) then [x] + s
    else
      var rest := InsertDesc(x, s[1..], key);
      assert s == [s[0]] + s[1..];
      [s[0]] + rest
  }

  /** A stable sort by descending key, as JavaScript's `Array.prototype.sort` is. */
  function SortDesc<T>(s: seq<T>, key: T -> int): (r: seq<T>)
    ensures SortedDesc(r, key)
    ensures multiset(r) == multiset(s)
    ensures |r| == |s|
  {
    if s == [] then []
    else
      assert s == [s[0]] + s[1..];
      InsertDesc(s[0], SortDesc(s[1..], key), key)
  }

  /** Taking the first n elements of a sorted sequence with `slice(0, n)`: a sorted
      prefix, with the rest of the elements after it. */
  lemma TakeFacts<T>(s: seq<T>, n: nat, key: T -> int)
    requires SortedDesc(s, key)
    ensures var m := if |s| < n then |s| else n;
            JsSlice(s, 0, n) == s[..m] && SortedDesc(s[..m], key) &&
            multiset(s) == multiset(s[..m]) + multiset(s[m..])
  {
    var m := if |s| < n then |s| else n;
    assert s == s[..m] + s[m..];
  }

  /** An element of a sorted sequence that is not in its first m elements has no
      larger key than any of them. */
  lemma LeftOutOfSortedPrefix<T>(s: seq<T>, m: nat, x: T, k: nat, key: T -> int)
    requires SortedDesc(s, key) && k < m <= |s|
    requires multiset(s) == multiset(s[..m]) + multiset(s[m..])
    requires x in multiset(s) - multiset(s[..m])
    ensures key(x) <= key(s[k])
  {
    assert x in multiset(s[m..]);
    var i :| 0 <= i < |s[m..]| && s[m..][i] == x;
    assert s[m + i] == x;
  }

  /** The first element whose key is maximal: the earliest of the tied maxima. */
  predicate IsFirstMax<T>(s: seq<T>, k: nat, key: T -> int)
  {
    k < |s| &&
    (forall j :: 0 <= j < |s| ==> key(s[j]) <= key(s[k])) &&
    (forall j :: 0 <= j < k ==> key(s[j]) < key(s[k]))
  }

  /** Index of the earliest element of maximal key. */
  function FirstMaxIndex<T>(s: seq<T>, key: T -> int): (k: nat)
    requires s != []
    ensures IsFirstMax(s, k, key)
  {
    if |s| == 1 then 0
    else
      var k' := FirstMaxIndex(s[1..], key);
      assert forall j :: 1 <= j < |s| ==> s[j] == s[1..][j - 1];
      if key(s[1..][k']) > key(s[0]) then k' + 1 else 0
  }

  /** After a stable descending sort, the head is the earliest element of maximal key. */
  lemma {:induction false} SortDescHead<T>(s: seq<T>, key: T -> int)
    requires s != []
    ensures SortDesc(s, key)[0] == s[FirstMaxIndex(s, key)]
  {
    if |s| > 1 {
      SortDescHead(s[1..], key);
    }
  }
}
