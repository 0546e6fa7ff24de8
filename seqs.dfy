/** The array idioms the client code is built from: `filter`, de-duplication
    through a `Set`, and filling a lookup table (`new Map(entries)` or a
    `forEach` that assigns `m[key] = value`). */
module Seqs {
  import opened Wrappers
  import opened Text

  /** a is obtained from b by leaving elements out, keeping the order. */
  ghost predicate IsSubsequence<T>(a: seq<T>, b: seq<T>)
    decreases |b|
  {
    a == [] || (b != [] && ((a[0] == b[0] && IsSubsequence(a[1..], b[1..])) || IsSubsequence(a, b[1..])))
  }

  lemma {:induction false} SubsequenceRefl<T>(s: seq<T>)
    ensures IsSubsequence(s, s)
  {
    if s != [] {
      SubsequenceRefl(s[1..]);
    }
  }

  /** `s.filter(p)`: exactly the elements satisfying p, each as often as in
      s, in their original order. */
  function Filter<T>(s: seq<T>, p: T -> bool): (r: seq<T>)
    ensures |r| <= |s|
    ensures forall x :: x in r ==> x in s && p(x)
    ensures forall x :: x in s && p(x) ==> x in r
    decreases |s|
  {
    if s == [] then []
    else if p(s[0]) then [s[0]] + Filter(s[1..], p)
    else Filter(s[1..], p)
  }

  /** What `filter` keeps: every element satisfying p, as often as it occurs
      in s, in the original order, and nothing else. */
  lemma {:induction false} FilterSpec<T>(s: seq<T>, p: T -> bool)
    ensures multiset(Filter(s, p)) <= multiset(s)
    ensures forall x :: x in s && p(x) ==> multiset(Filter(s, p))[x] == multiset(s)[x]
    ensures IsSubsequence(Filter(s, p), s)
  {
    if s != [] {
      FilterSpec(s[1..], p);
      var rest := Filter(s[1..], p);
      assert s == [s[0]] + s[1..];
      if p(s[0]) {
        assert ([s[0]] + rest)[1..] == rest;
      }
    }
  }

  /** How often filter keeps an element: as often as it occurs when it
      passes, never otherwise. */
  lemma FilterCount<T>(s: seq<T>, p: T -> bool, x: T)
    ensures multiset(Filter(s, p))[x] == if p(x) then multiset(s)[x] else 0
  {
    FilterSpec(s, p);
    if !p(x) {
      assert x !in Filter(s, p);
    }
  }

  /** Being a subsequence is transitive. */
  lemma {:induction false} SubsequenceTrans<T>(a: seq<T>, b: seq<T>, c: seq<T>)
    requires IsSubsequence(a, b) && IsSubsequence(b, c)
    ensures IsSubsequence(a, c)
    decreases |c|
  {
    if a != [] {
      if IsSubsequence(b, c[1..]) {
        SubsequenceTrans(a, b, c[1..]);
      } else if a[0] == b[0] && IsSubsequence(a[1..], b[1..]) {
        SubsequenceTrans(a[1..], b[1..], c[1..]);
      } else {
        SubsequenceTrans(a, b[1..], c[1..]);
      }
    }
  }

  /** A filter that every element passes keeps the whole sequence. */
  lemma {:induction false} FilterAll<T>(s: seq<T>, p: T -> bool)
    requires forall x :: x in s ==> p(x)
    ensures Filter(s, p) == s
  {
    if s != [] {
      FilterAll(s[1..], p);
    }
  }

  /** A filter keeps its input's length exactly when every element passes. */
  lemma {:induction false} FilterFull<T>(s: seq<T>, p: T -> bool)
    ensures |Filter(s, p)| == |s| <==> forall i :: 0 <= i < |s| ==> p(s[i])
  {
    if s != [] {
      FilterFull(s[1..], p);
      assert forall i :: 0 < i < |s| ==> s[i] == s[1..][i - 1];
    }
  }

  /** Filtering distributes over concatenation. */
  lemma {:induction false} FilterConcat<T>(a: seq<T>, b: seq<T>, p: T -> bool)
    ensures Filter(a + b, p) == Filter(a, p) + Filter(b, p)
  {
    if a == [] {
      assert a + b == b;
    } else {
      var x, t := a[0], a[1..];
      var ft, fb := Filter(t, p), Filter(b, p);
      calc {
        Filter(a + b, p);
        { assert a + b == [x] + (t + b); }
        Filter([x] + (t + b), p);
        { FilterCons(x, t + b, p); FilterConcat(t, b, p); }
        if p(x) then [x] + (ft + fb) else ft + fb;
        { assert [x] + (ft + fb) == ([x] + ft) + fb; }
        (if p(x) then [x] + ft else ft) + fb;
        { assert a == [x] + t; FilterCons(x, t, p); }
        Filter(a, p) + fb;
      }
    }
  }

  /** Filtering a sequence with x in front. */
  lemma FilterCons<T>(x: T, s: seq<T>, p: T -> bool)
    ensures Filter([x] + s, p) == if p(x) then [x] + Filter(s, p) else Filter(s, p)
  {
    assert ([x] + s)[1..] == s;
  }

  /** No element occurs twice. */
  ghost predicate NoDuplicates<T>(s: seq<T>) {
    forall i, j :: 0 <= i < j < |s| ==> s[i] != s[j]
  }

  /** The first position of x in s. */
  function IndexOf<T(==)>(s: seq<T>, x: T): (k: nat)
    requires x in s
    ensures k < |s| && s[k] == x && x !in s[..k]
  {
    if s[0] == x then 0
    else
      var k := IndexOf(s[1..], x);
      assert s[..k + 1] == [s[0]] + s[1..][..k];
      k + 1
  }

  lemma IndexOfUnique<T>(s: seq<T>, x: T, k: nat)
    requires k < |s| && s[k] == x && x !in s[..k]
    ensures IndexOf(s, x) == k
  {
    var m := IndexOf(s, x);
  }

  /** `[...new Set(s)]`: every element of s once, in the order in which it
      first occurs (a Set iterates in insertion order). */
  function Distinct<T(==)>(s: seq<T>): (r: seq<T>)
    ensures forall x :: x in r ==> x in s
    ensures forall x :: x in s ==> x in r
    ensures NoDuplicates(r)
    decreases |s|
  {
    if s == [] then []
    else
      var front := Distinct(s[..|s| - 1]);
      assert s == s[..|s| - 1] + [s[|s| - 1]];
      if s[|s| - 1] in front then front else front + [s[|s| - 1]]
  }

  /** `[...new Set(xs.map(key))]`: each key of the elements once, and no
      other value. */
  function DistinctBy<T, K(==)>(xs: seq<T>, key: T -> K): (ks: seq<K>)
    ensures NoDuplicates(ks)
    ensures forall i :: 0 <= i < |xs| ==> key(xs[i]) in ks
    ensures forall k | k in ks :: exists i :: 0 <= i < |xs| && key(xs[i]) == k
  {
    var all := seq(|xs|, i requires 0 <= i < |xs| => key(xs[i]));
    assert forall i :: 0 <= i < |xs| ==> all[i] == key(xs[i]) && all[i] in all;
    Distinct(all)
  }

  /** The elements of `Distinct(s)` come in order of their first occurrence
      in s. */
  lemma {:induction false} DistinctFirstOccurrenceOrder<T>(s: seq<T>)
    ensures forall i, j :: 0 <= i < j < |Distinct(s)| ==>
              IndexOf(s, Distinct(s)[i]) < IndexOf(s, Distinct(s)[j])
  {
    if s != [] {
      var n := |s|;
      var front, y := s[..n - 1], s[n - 1];
      assert s == front + [y];
      DistinctFirstOccurrenceOrder(front);
      var f := Distinct(front);
      var r := Distinct(s);
      forall x | x in front ensures IndexOf(s, x) == IndexOf(front, x) {
        var k := IndexOf(front, x);
        assert s[..k] == front[..k];
        IndexOfUnique(s, x, k);
      }
      if y !in f {
        assert s[..n - 1] == front;
        IndexOfUnique(s, y, n - 1);
        assert r == f + [y];
      }
      forall i, j | 0 <= i < j < |r| ensures IndexOf(s, r[i]) < IndexOf(s, r[j]) {
        assert r[i] == f[i];
        assert r[i] in front;
        if j < |f| {
          assert r[j] == f[j];
        }
      }
    }
  }

  /** `xs.map(field).filter(Boolean)` on a nullable string field: the
      non-empty values, in the order of the elements. */
  function TruthyValues<T>(xs: seq<T>, field: T -> Option<string>): (r: seq<string>)
    ensures |r| <= |xs|
    ensures forall v :: v in r <==> exists i :: 0 <= i < |xs| && field(xs[i]) == Some(v) && v != ""
    decreases |xs|
  {
    if xs == [] then []
    else
      var rest := TruthyValues(xs[1..], field);
      assert forall i :: 0 < i < |xs| ==> xs[i] == xs[1..][i - 1];
      if Truthy(field(xs[0])) then [field(xs[0]).value] + rest else rest
  }

  /** The element's field is truthy. */
  function HasTruthy<T>(field: T -> Option<string>): T -> bool {
    (x: T) => Truthy(field(x))
  }

  /** The values are, in order, those of the elements whose field is
      truthy: `TruthyValues` is that filter followed by that projection. */
  lemma {:induction false} TruthyValuesAreFiltered<T>(xs: seq<T>, field: T -> Option<string>)
    ensures var kept := Filter(xs, HasTruthy(field));
            |TruthyValues(xs, field)| == |kept|
            && forall i :: 0 <= i < |kept| ==> field(kept[i]).Some? && TruthyValues(xs, field)[i] == field(kept[i]).value
    decreases |xs|
  {
    var p := HasTruthy(field);
    if xs != [] {
      TruthyValuesAreFiltered(xs[1..], field);
      var rest := Filter(xs[1..], p);
      var vals := TruthyValues(xs[1..], field);
      if p(xs[0]) {
        assert Filter(xs, p) == [xs[0]] + rest;
        assert TruthyValues(xs, field) == [field(xs[0]).value] + vals;
        ProjectCons(xs[0], rest, vals, field);
      } else {
        assert Filter(xs, p) == rest;
        assert TruthyValues(xs, field) == vals;
      }
    }
  }

  /** One step of `TruthyValuesAreFiltered`: putting an element with a
      truthy field in front of the kept elements puts its value in front of
      their values. */
  lemma ProjectCons<T>(x: T, kept: seq<T>, vals: seq<string>, field: T -> Option<string>)
    requires Truthy(field(x))
    requires |vals| == |kept|
    requires forall i :: 0 <= i < |kept| ==> field(kept[i]).Some? && vals[i] == field(kept[i]).value
    ensures var k := [x] + kept;
            var v := [field(x).value] + vals;
            |v| == |k| && forall i :: 0 <= i < |k| ==> field(k[i]).Some? && v[i] == field(k[i]).value
  {
    var k := [x] + kept;
    var v := [field(x).value] + vals;
    forall i | 0 <= i < |k| ensures field(k[i]).Some? && v[i] == field(k[i]).value {
      if i > 0 {
        assert k[i] == kept[i - 1] && v[i] == vals[i - 1];
      }
    }
  }

  /** `[...new Set(xs.map(field).filter(Boolean))]`, the option lists of
      the filter menus. */
  function DistinctValues<T>(xs: seq<T>, field: T -> Option<string>): seq<string> {
    Distinct(TruthyValues(xs, field))
  }

  /** Every non-empty value of the field occurs once, in the order of its
      first occurrence, and nothing else does. */
  lemma DistinctValuesSpec<T>(xs: seq<T>, field: T -> Option<string>)
    ensures NoDuplicates(DistinctValues(xs, field))
    ensures forall v :: v in DistinctValues(xs, field) <==> exists i :: 0 <= i < |xs| && field(xs[i]) == Some(v) && v != ""
    ensures forall i, j :: 0 <= i < j < |DistinctValues(xs, field)| ==>
              IndexOf(TruthyValues(xs, field), DistinctValues(xs, field)[i]) < IndexOf(TruthyValues(xs, field), DistinctValues(xs, field)[j])
  {
    DistinctFirstOccurrenceOrder(TruthyValues(xs, field));
  }

  /** The table that `rows.forEach(x => m[key(x)] = val(x))` or
      `new Map(rows.map(x => [key(x), val(x)]))` builds. */
  function Indexed<T, K, V>(rows: seq<T>, key: T -> K, val: T -> V): map<K, V>
    decreases |rows|
  {
    if rows == [] then map[]
    else Indexed(rows[..|rows| - 1], key, val)[key(rows[|rows| - 1]) := val(rows[|rows| - 1])]
  }

  lemma IndexedSnoc<T, K, V>(rows: seq<T>, x: T, key: T -> K, val: T -> V)
    ensures Indexed(rows + [x], key, val) == Indexed(rows, key, val)[key(x) := val(x)]
  {
    assert (rows + [x])[..|rows|] == rows;
  }

  /** A key is in the table exactly when some row has it. */
  lemma {:induction false} IndexedKeys<T, K, V>(rows: seq<T>, key: T -> K, val: T -> V, k: K)
    ensures k in Indexed(rows, key, val) <==> exists i :: 0 <= i < |rows| && key(rows[i]) == k
  {
    if rows != [] {
      var front := rows[..|rows| - 1];
      IndexedKeys(front, key, val, k);
      if k in Indexed(rows, key, val) && k != key(rows[|rows| - 1]) {
        var i :| 0 <= i < |front| && key(front[i]) == k;
        assert key(rows[i]) == k;
      }
      if exists i :: 0 <= i < |rows| && key(rows[i]) == k {
        var i :| 0 <= i < |rows| && key(rows[i]) == k;
        if i < |rows| - 1 {
          assert key(front[i]) == k;
        }
      }
    }
  }

  /** The last row with a given key decides that key's value: a later row
      overwrites an earlier one. */
  lemma {:induction false} IndexedLastWins<T, K, V>(rows: seq<T>, key: T -> K, val: T -> V, j: int)
    requires 0 <= j < |rows|
    requires forall i :: j < i < |rows| ==> key(rows[i]) != key(rows[j])
    ensures key(rows[j]) in Indexed(rows, key, val)
    ensures Indexed(rows, key, val)[key(rows[j])] == val(rows[j])
  {
    if j < |rows| - 1 {
      var front := rows[..|rows| - 1];
      assert front[j] == rows[j];
      forall i | j < i < |front| ensures key(front[i]) != key(front[j]) {
        assert front[i] == rows[i];
      }
      IndexedLastWins(front, key, val, j);
    }
  }

  /** `rows.forEach(x => { m[key(x)] = val(x); })`, starting from an empty
      table. */
  method IndexInto<T, K, V>(rows: seq<T>, key: T -> K, val: T -> V) returns (m: map<K, V>)
    ensures m == Indexed(rows, key, val)
  {
    m := map[];
    var i := 0;
    while i < |rows|
      invariant 0 <= i <= |rows|
      invariant m == Indexed(rows[..i], key, val)
    {
      IndexedSnoc(rows[..i], rows[i], key, val);
      assert rows[..i + 1] == rows[..i] + [rows[i]];
      m := m[key(rows[i]) := val(rows[i])];
      i := i + 1;
    }
    assert rows[..|rows|] == rows;
  }
}
