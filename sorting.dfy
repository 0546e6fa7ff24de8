/** `[...xs].sort(compare)` for the comparators the pages pass: a number
    compared as `b - a` (largest first) or a string compared with
    `a.localeCompare(b)` (alphabetical). */
module Sorting {
  import opened Text
  import Seqs

  /** The key a comparator looks at. */
  datatype Rank = Desc(n: real) | Asc(s: string)

  /** an element keyed a may stand before one keyed b. */
  predicate RankLe(a: Rank, b: Rank) {
    match a
    case Desc(x) => (match b case Desc(y) => x >= y case Asc(_) => true)
    case Asc(x) => (match b case Desc(_) => false case Asc(y) => LexLe(x, y))
  }

  lemma RankLeTotal(a: Rank, b: Rank)
    ensures RankLe(a, b) || RankLe(b, a)
  {
    if a.Asc? && b.Asc? {
      LexLeTotal(a.s, b.s);
    }
  }

  lemma RankLeTransitive(a: Rank, b: Rank, c: Rank)
    requires RankLe(a, b) && RankLe(b, c)
    ensures RankLe(a, c)
  {
    if a.Asc? && b.Asc? && c.Asc? {
      LexLeTransitive(a.s, b.s, c.s);
    }
  }

  ghost predicate SortedBy<T>(s: seq<T>, key: T -> Rank) {
    forall i, j :: 0 <= i < j < |s| ==> RankLe(key(s[i]), key(s[j]))
  }

  /** Places x in front of the first element it may precede. */
  function Insert<T>(x: T, s: seq<T>, key: T -> Rank): (r: seq<T>)
    ensures |r| == |s| + 1
    ensures x in r && (forall y :: y in s ==> y in r)
    ensures forall y :: y in r ==> y == x || y in s
    decreases |s|
  {
    if s == [] then [x]
    else if RankLe(key(x), key(s[0])) then [x] + s
    else [s[0]] + Insert(x, s[1..], key)
  }

  /** The sort the pages call, as a stable insertion sort: elements with
      equal keys keep their relative order, as `Array.prototype.sort` does. */
  function Sort<T>(s: seq<T>, key: T -> Rank): (r: seq<T>)
    ensures |r| == |s|
    ensures forall y :: y in r ==> y in s
    ensures forall y :: y in s ==> y in r
    decreases |s|
  {
    if s == [] then []
    else
      assert s == [s[0]] + s[1..];
      Insert(s[0], Sort(s[1..], key), key)
  }

  lemma {:induction false} InsertPermutes<T>(x: T, s: seq<T>, key: T -> Rank)
    ensures multiset(Insert(x, s, key)) == multiset{x} + multiset(s)
    ensures |Insert(x, s, key)| == |s| + 1
    decreases |s|
  {
    if s != [] && !RankLe(key(x), key(s[0])) {
      InsertPermutes(x, s[1..], key);
      assert s == [s[0]] + s[1..];
    }
  }

  lemma {:induction false} InsertSorted<T>(x: T, s: seq<T>, key: T -> Rank)
    requires SortedBy(s, key)
    ensures SortedBy(Insert(x, s, key), key)
    decreases |s|
  {
    if s == [] {
    } else if RankLe(key(x), key(s[0])) {
      var r := [x] + s;
      forall i, j | 0 <= i < j < |r| ensures RankLe(key(r[i]), key(r[j])) {
        if i == 0 && j > 1 {
          RankLeTransitive(key(x), key(s[0]), key(s[j - 1]));
        }
      }
    } else {
      RankLeTotal(key(x), key(s[0]));
      var tail := s[1..];
      assert SortedBy(tail, key) by {
        forall i, j | 0 <= i < j < |tail| ensures RankLe(key(tail[i]), key(tail[j])) {
          assert tail[i] == s[i + 1] && tail[j] == s[j + 1];
        }
      }
      InsertSorted(x, tail, key);
      InsertPermutes(x, tail, key);
      var t := Insert(x, tail, key);
      var r := [s[0]] + t;
      forall i, j | 0 <= i < j < |r| ensures RankLe(key(r[i]), key(r[j])) {
        if i == 0 {
          var y := r[j];
          assert y == t[j - 1];
          assert y in multiset(t);
          if y != x {
            assert y in multiset(tail);
            var k :| 0 <= k < |tail| && tail[k] == y;
            assert tail[k] == s[k + 1];
          }
        } else {
          assert r[i] == t[i - 1] && r[j] == t[j - 1];
        }
      }
    }
  }

  /** The sorted copy is ordered by its key and holds exactly the elements
      of the input, each as often as there. */
  lemma {:induction false} SortCorrect<T>(s: seq<T>, key: T -> Rank)
    ensures SortedBy(Sort(s, key), key)
    ensures multiset(Sort(s, key)) == multiset(s)
    ensures |Sort(s, key)| == |s|
    decreases |s|
  {
    if s != [] {
      SortCorrect(s[1..], key);
      InsertSorted(s[0], Sort(s[1..], key), key);
      InsertPermutes(s[0], Sort(s[1..], key), key);
      assert s == [s[0]] + s[1..];
    }
  }

  /** A comparator that calls every pair equal (`default: return 0`) leaves
      the order as it was. */
  lemma {:induction false} SortAllTies<T>(s: seq<T>, key: T -> Rank, r: Rank)
    requires forall x :: x in s ==> key(x) == r
    ensures Sort(s, key) == s
    decreases |s|
  {
    if s != [] {
      assert s[0] in s;
      assert forall x :: x in s[1..] ==> x in s;
      SortAllTies(s[1..], key, r);
      RankLeTotal(r, r);
      assert s == [s[0]] + s[1..];
      if s[1..] != [] {
        assert s[1..][0] in s;
      }
    }
  }
  /** Two keys compare as equal: the comparator returns 0. */
  predicate Tied(a: Rank, b: Rank) {
    RankLe(a, b) && RankLe(b, a)
  }

  /** Inserting x keeps the elements tied with a given key in their order,
      with x in front of them when it is tied too. */
  lemma {:induction false} InsertTied<T>(x: T, s: seq<T>, key: T -> Rank, k: Rank, p: T -> bool)
    requires forall y :: p(y) <==> Tied(key(y), k)
    ensures Seqs.Filter(Insert(x, s, key), p) == if p(x) then [x] + Seqs.Filter(s, p) else Seqs.Filter(s, p)
    decreases |s|
  {
    if s == [] {
      Seqs.FilterCons(x, [], p);
    } else if RankLe(key(x), key(s[0])) {
      Seqs.FilterCons(x, s, p);
    } else {
      var y, t := s[0], s[1..];
      assert s == [y] + t;
      InsertTied(x, t, key, k, p);
      Seqs.FilterCons(y, Insert(x, t, key), p);
      Seqs.FilterCons(y, t, p);
      if p(x) && p(y) {
        RankLeTransitive(key(x), k, key(y));
      }
    }
  }

  /** The sort is stable: the elements whose keys compare equal to k come
      out in the order they went in. */
  lemma {:induction false} SortStable<T>(s: seq<T>, key: T -> Rank, k: Rank, p: T -> bool)
    requires forall y :: p(y) <==> Tied(key(y), k)
    ensures Seqs.Filter(Sort(s, key), p) == Seqs.Filter(s, p)
    decreases |s|
  {
    if s != [] {
      SortStable(s[1..], key, k, p);
      InsertTied(s[0], Sort(s[1..], key), key, k, p);
      assert s == [s[0]] + s[1..];
      Seqs.FilterCons(s[0], s[1..], p);
    }
  }
}
