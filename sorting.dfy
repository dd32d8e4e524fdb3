/** The two orders `file_consolidate` sorts by (dictprocess.py): Python's comparison of
    strings, code point by code point with a proper prefix first, and a stable
    insertion sort standing for `list.sort`, parameterised by the order. */
module Sorting {

  /** Python's `a <= b` on strings. (Dafny's `<` on sequences is the proper-prefix
      relation, so the order is spelled out.) */
  predicate StrLe(a: string, b: string)
    decreases |a|
  {
    a == [] || (b != [] && (a[0] < b[0] || (a[0] == b[0] && StrLe(a[1..], b[1..]))))
  }

  lemma {:induction false} StrLeTotal(a: string, b: string)
    ensures StrLe(a, b) || StrLe(b, a)
    decreases |a|
  {
    if a != [] && b != [] && a[0] == b[0] {
      StrLeTotal(a[1..], b[1..]);
    }
  }

  lemma {:induction false} StrLeTransitive(a: string, b: string, c: string)
    requires StrLe(a, b) && StrLe(b, c)
    ensures StrLe(a, c)
    decreases |a|
  {
    if a != [] && a[0] == b[0] && b[0] == c[0] {
      StrLeTransitive(a[1..], b[1..], c[1..]);
    }
  }

  lemma {:induction false} StrLeAntisymmetric(a: string, b: string)
    requires StrLe(a, b) && StrLe(b, a)
    ensures a == b
    decreases |a|
  {
    if a != [] {
      StrLeAntisymmetric(a[1..], b[1..]);
      assert a == [a[0]] + a[1..] && b == [b[0]] + b[1..];
    }
  }

  /** Strings that share a prefix enclose only strings with that prefix: in a sorted
      list, all lines starting with `key\t` are contiguous. */
  lemma {:induction false} StrLeKeepsPrefix(p: string, a: string, b: string, c: string)
    requires |p| <= |a| && |p| <= |c| && a[..|p|] == p && c[..|p|] == p
    requires StrLe(a, b) && StrLe(b, c)
    ensures |p| <= |b| && b[..|p|] == p
    decreases |p|
  {
    if p != [] {
      assert a[0] == p[0] && c[0] == p[0];
      assert b != [] && b[0] == p[0];
      assert a[1..][..|p| - 1] == p[1..] && c[1..][..|p| - 1] == p[1..];
      StrLeKeepsPrefix(p[1..], a[1..], b[1..], c[1..]);
      assert b[..|p|] == [b[0]] + b[1..][..|p| - 1];
    }
  }

  ghost predicate TotalPreorder<T(!new)>(le: (T, T) -> bool) {
    (forall x, y :: le(x, y) || le(y, x)) &&
    (forall x, y, z :: le(x, y) && le(y, z) ==> le(x, z))
  }

  ghost predicate Sorted<T>(s: seq<T>, le: (T, T) -> bool) {
    forall i, j :: 0 <= i < j < |s| ==> le(s[i], s[j])
  }

  /** Insert `x` before the first element it is `le` to. */
  function Insert<T>(x: T, s: seq<T>, le: (T, T) -> bool): seq<T> {
    if s == [] then [x]
    else if le(x, s[0]) then [x] + s
    else [s[0]] + Insert(x, s[1..], le)
  }

  /** Insertion sort: each element goes in front of every later element it is `le`
      to, so elements that compare both ways keep their order (the sort is stable,
      as Python's is). */
  function Sort<T>(s: seq<T>, le: (T, T) -> bool): seq<T> {
    if s == [] then [] else Insert(s[0], Sort(s[1..], le), le)
  }

  lemma {:induction false} InsertPermutes<T>(x: T, s: seq<T>, le: (T, T) -> bool)
    ensures multiset(Insert(x, s, le)) == multiset(s) + multiset{x}
  {
    if s == [] {
    } else if le(x, s[0]) {
      assert Insert(x, s, le) == [x] + s;
    } else {
      var r := Insert(x, s[1..], le);
      InsertPermutes(x, s[1..], le);
      assert Insert(x, s, le) == [s[0]] + r;
      assert multiset([s[0]] + r) == multiset{s[0]} + multiset(r);
      assert s == [s[0]] + s[1..];
      assert multiset(s) == multiset{s[0]} + multiset(s[1..]);
    }
  }

  lemma {:induction false} InsertLength<T>(x: T, s: seq<T>, le: (T, T) -> bool)
    ensures |Insert(x, s, le)| == |s| + 1
  {
    if s != [] && !le(x, s[0]) {
      InsertLength(x, s[1..], le);
    }
  }

  lemma {:induction false} InsertSorted<T(!new)>(x: T, s: seq<T>, le: (T, T) -> bool)
    requires TotalPreorder(le) && Sorted(s, le)
    ensures Sorted(Insert(x, s, le), le)
  {
    if s != [] && !le(x, s[0]) {
      InsertSorted(x, s[1..], le);
      InsertPermutes(x, s[1..], le);
      var r := Insert(x, s[1..], le);
      assert le(s[0], x);
      forall e | e in r ensures le(s[0], e) {
        assert e in multiset(r);
        assert e == x || e in s[1..];
      }
      assert Insert(x, s, le) == [s[0]] + r;
    }
  }

  /** The sort returns a sorted permutation of its input. */
  lemma {:induction false} SortCorrect<T(!new)>(s: seq<T>, le: (T, T) -> bool)
    requires TotalPreorder(le)
    ensures Sorted(Sort(s, le), le)
    ensures multiset(Sort(s, le)) == multiset(s)
    ensures |Sort(s, le)| == |s|
  {
    if s != [] {
      SortCorrect(s[1..], le);
      InsertSorted(s[0], Sort(s[1..], le), le);
      InsertPermutes(s[0], Sort(s[1..], le), le);
      InsertLength(s[0], Sort(s[1..], le), le);
      assert s == [s[0]] + s[1..];
    }
  }

  /** The elements of `s` that compare both ways with `x`, in their order in `s`. */
  function Ties<T>(s: seq<T>, x: T, le: (T, T) -> bool): seq<T> {
    if s == [] then []
    else (if le(x, s[0]) && le(s[0], x) then [s[0]] else []) + Ties(s[1..], x, le)
  }

  lemma TiesCons<T>(h: T, t: seq<T>, x: T, le: (T, T) -> bool)
    ensures Ties([h] + t, x, le) == (if le(x, h) && le(h, x) then [h] else []) + Ties(t, x, le)
  {
    assert ([h] + t)[0] == h && ([h] + t)[1..] == t;
  }

  /** `y`, a tie of `x` that is `le` to every tie of `x` in `s`, is inserted in front
      of all of them. */
  lemma {:induction false} InsertTie<T>(y: T, s: seq<T>, x: T, le: (T, T) -> bool)
    requires le(x, y) && le(y, x)
    requires forall i :: 0 <= i < |s| && le(x, s[i]) && le(s[i], x) ==> le(y, s[i])
    ensures Ties(Insert(y, s, le), x, le) == [y] + Ties(s, x, le)
  {
    if s == [] {
      TiesCons(y, [], x, le);
    } else if le(y, s[0]) {
      TiesCons(y, s, x, le);
    } else {
      var r := Insert(y, s[1..], le);
      assert Insert(y, s, le) == [s[0]] + r;
      assert !(le(x, s[0]) && le(s[0], x));
      assert forall i :: 0 <= i < |s| - 1 ==> s[1..][i] == s[i + 1];
      InsertTie(y, s[1..], x, le);
      TiesCons(s[0], r, x, le);
      assert Ties(s, x, le) == Ties(s[1..], x, le);
    }
  }

  /** An element that is not a tie of `x` leaves the ties of `x` as they are. */
  lemma {:induction false} InsertOther<T>(y: T, s: seq<T>, x: T, le: (T, T) -> bool)
    requires !(le(x, y) && le(y, x))
    ensures Ties(Insert(y, s, le), x, le) == Ties(s, x, le)
  {
    if s == [] {
      TiesCons(y, [], x, le);
    } else if le(y, s[0]) {
      TiesCons(y, s, x, le);
    } else {
      var r := Insert(y, s[1..], le);
      assert Insert(y, s, le) == [s[0]] + r;
      InsertOther(y, s[1..], x, le);
      TiesCons(s[0], r, x, le);
    }
  }

  /** The sort is stable, as Python's is: the elements that compare both ways with
      any `x` come out in the order they went in. */
  lemma {:induction false} SortStable<T(!new)>(s: seq<T>, x: T, le: (T, T) -> bool)
    requires TotalPreorder(le)
    ensures Ties(Sort(s, le), x, le) == Ties(s, x, le)
  {
    if s != [] {
      SortStable(s[1..], x, le);
      if le(x, s[0]) && le(s[0], x) {
        var t := Sort(s[1..], le);
        forall i | 0 <= i < |t| && le(x, t[i]) && le(t[i], x) ensures le(s[0], t[i]) {
          assert le(s[0], x) && le(x, t[i]);
        }
        InsertTie(s[0], t, x, le);
      } else {
        InsertOther(s[0], Sort(s[1..], le), x, le);
      }
    }
  }
}
