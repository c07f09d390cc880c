/** `Array.prototype.sort` with a comparator, as the core calls it: a stable
    sort in which `cmp(a, b) < 0` puts `a` before `b`, `cmp(a, b) > 0` puts
    `b` before `a`, and 0 keeps the input order. */
module Sorting {
  import Seqs

  /** Places `x`, which came earlier in the input than everything in `r`,
      before the first element it need not follow. */
  function Insert<T>(x: T, r: seq<T>, cmp: (T, T) -> real): (s: seq<T>)
    ensures |s| == |r| + 1
  {
    if r == [] || cmp(x, r[0]) <= 0.0 then [x] + r
    else [r[0]] + Insert(x, r[1..], cmp)
  }

  /** The sorted copy, built by inserting the elements back to front. */
  function Sort<T>(s: seq<T>, cmp: (T, T) -> real): (r: seq<T>)
    ensures |r| == |s|
  {
    if s == [] then [] else Insert(s[0], Sort(s[1..], cmp), cmp)
  }

  /** The comparator `(a, b) => key(b) - key(a)`: largest key first. */
  function ByKeyDesc<T>(key: T -> real): (T, T) -> real {
    (a: T, b: T) => key(b) - key(a)
  }

  predicate SortedDesc<T>(s: seq<T>, key: T -> real) {
    forall i, j :: 0 <= i < j < |s| ==> key(s[i]) >= key(s[j])
  }

  lemma {:induction false} InsertPermutes<T>(x: T, r: seq<T>, cmp: (T, T) -> real)
    ensures multiset(Insert(x, r, cmp)) == multiset(r) + multiset{x}
  {
    if r != [] && cmp(x, r[0]) > 0.0 {
      InsertPermutes(x, r[1..], cmp);
      assert r == [r[0]] + r[1..];
    }
  }

  /** Sorting neither adds nor loses an element. */
  lemma {:induction false} SortPermutes<T>(s: seq<T>, cmp: (T, T) -> real)
    ensures multiset(Sort(s, cmp)) == multiset(s)
  {
    if s != [] {
      SortPermutes(s[1..], cmp);
      InsertPermutes(s[0], Sort(s[1..], cmp), cmp);
      assert s == [s[0]] + s[1..];
    }
  }

  lemma {:induction false} InsertSorted<T>(x: T, r: seq<T>, key: T -> real)
    requires SortedDesc(r, key)
    ensures SortedDesc(Insert(x, r, ByKeyDesc(key)), key)
    ensures forall i :: 0 <= i < |Insert(x, r, ByKeyDesc(key))| ==>
              Insert(x, r, ByKeyDesc(key))[i] == x || Insert(x, r, ByKeyDesc(key))[i] in r
  {
    var cmp := ByKeyDesc(key);
    if r != [] {
      assert cmp(x, r[0]) == key(r[0]) - key(x);
      if cmp(x, r[0]) > 0.0 {
        var t := r[1..];
        assert SortedDesc(t, key) by {
          forall i, j | 0 <= i < j < |t| ensures key(t[i]) >= key(t[j]) {
            assert t[i] == r[i + 1] && t[j] == r[j + 1];
          }
        }
        InsertSorted(x, t, key);
        var u := Insert(x, t, cmp);
        forall i | 0 <= i < |u| ensures key(r[0]) >= key(u[i]) {
          if u[i] != x {
            var k :| 0 <= k < |t| && t[k] == u[i];
            assert t[k] == r[k + 1];
          }
        }
        forall i | 0 <= i < |u| ensures u[i] == x || u[i] in r {
          if u[i] != x {
            assert u[i] in t;
          }
        }
      }
    }
  }

  /** With a key comparator the result is ordered by non-increasing key. */
  lemma {:induction false} SortSorted<T>(s: seq<T>, key: T -> real)
    ensures SortedDesc(Sort(s, ByKeyDesc(key)), key)
  {
    if s != [] {
      SortSorted(s[1..], key);
      InsertSorted(s[0], Sort(s[1..], ByKeyDesc(key)), key);
    }
  }

  /** The test "has key `k`", to pick out the elements sharing one key. */
  function HasKey<T>(key: T -> real, k: real): T -> bool {
    (y: T) => key(y) == k
  }

  lemma {:induction false} InsertStable<T>(x: T, r: seq<T>, key: T -> real, k: real)
    ensures Seqs.Filter(Insert(x, r, ByKeyDesc(key)), HasKey(key, k)) == Seqs.Filter([x] + r, HasKey(key, k))
  {
    var cmp, p := ByKeyDesc(key), HasKey(key, k);
    if r != [] && cmp(x, r[0]) > 0.0 {
      var y, t := r[0], r[1..];
      assert r == [y] + t;
      assert !(p(x) && p(y)) by {
        assert cmp(x, y) == key(y) - key(x);
      }
      InsertStable(x, t, key, k);
      Seqs.FilterCons(y, Insert(x, t, cmp), p);
      Seqs.FilterCons(x, t, p);
      Seqs.FilterCons(y, t, p);
      Seqs.FilterCons(x, r, p);
      if p(x) {
        assert Seqs.Filter(Insert(x, r, cmp), p) == [x] + Seqs.Filter(t, p);
      } else {
        assert Seqs.Filter(Insert(x, t, cmp), p) == Seqs.Filter(t, p);
      }
    }
  }

  /** With a key comparator the sort is stable: the elements sharing a key
      keep their input order. */
  lemma {:induction false} SortStable<T>(s: seq<T>, key: T -> real, k: real)
    ensures Seqs.Filter(Sort(s, ByKeyDesc(key)), HasKey(key, k)) == Seqs.Filter(s, HasKey(key, k))
  {
    if s != [] {
      var p := HasKey(key, k);
      var t := Sort(s[1..], ByKeyDesc(key));
      SortStable(s[1..], key, k);
      InsertStable(s[0], t, key, k);
      Seqs.FilterCons(s[0], t, p);
      Seqs.FilterCons(s[0], s[1..], p);
      assert s == [s[0]] + s[1..];
    }
  }
}
