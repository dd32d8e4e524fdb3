/** `file_consolidate` (dictprocess.py:35-92) on one shard file whose lines are given
    as entries: sort the lines as strings so that equal keys sit next to each other,
    merge each run of equal keys into one line carrying the sum of the counts, keep
    the lines that split into two fields, sort those by count (largest first) and
    return how many were written. */
module Consolidate {
  import opened Sorting
  import opened Shard
  import CleanString

  /** The first sort compares the raw lines as Python strings. */
  predicate LineLe(x: Entry, y: Entry) {
    StrLe(LineText(x), LineText(y))
  }

  /** The second sort, `sort(key=value, reverse=True)`: larger counts first; being
      stable, it keeps entries of equal count in their earlier order. */
  predicate CountGe(x: Entry, y: Entry) {
    x.count >= y.count
  }

  /** The merge pass: `k` and `t` are `old_ngram` and `old_total`. On a new key the
      previous group is written only if its key is not empty and its total is
      positive; the group left at the end is always written. */
  function MergeFrom(k: string, t: int, s: seq<Entry>): seq<Entry>
    decreases |s|
  {
    if s == [] then [Entry(k, t)]
    else if s[0].key == k then MergeFrom(k, t + s[0].count, s[1..])
    else Flushed(k, t) + MergeFrom(s[0].key, s[0].count, s[1..])
  }

  /** What is written for a finished group that is not the last one. */
  function Flushed(k: string, t: int): seq<Entry> {
    if k != "" && t > 0 then [Entry(k, t)] else []
  }

  function Merged(s: seq<Entry>): seq<Entry> {
    MergeFrom("", 0, s)
  }

  /** The reread keeps the lines that `split("\t")` cuts into exactly two fields. */
  function TwoFields(s: seq<Entry>): seq<Entry> {
    if s == [] then []
    else TwoFields(s[..|s| - 1]) + (if '\t' !in s[|s| - 1].key then [s[|s| - 1]] else [])
  }

  /** The file contents after `file_consolidate`. */
  function Consolidated(lines: seq<Entry>): seq<Entry> {
    Sort(TwoFields(Merged(Sort(lines, LineLe))), CountGe)
  }

  /** The two passes of `file_consolidate`; `written` is its return value. */
  method FileConsolidate(lines: seq<Entry>) returns (file: seq<Entry>, written: nat)
    ensures file == Consolidated(lines)
    ensures written == |file|
  {
    var out := MergePass(Sort(lines, LineLe));
    var reread := Reread(out);
    file := Sort(reread, CountGe);
    SortCorrect(reread, CountGe);
    written := |file|;
  }

  /** The first pass over the sorted lines, folding runs of equal keys. */
  method MergePass(sortingHat: seq<Entry>) returns (out: seq<Entry>)
    ensures out == Merged(sortingHat)
  {
    var oldNgram := "";
    var oldTotal := 0;
    out := [];
    for i := 0 to |sortingHat|
      invariant out + MergeFrom(oldNgram, oldTotal, sortingHat[i..]) == Merged(sortingHat)
    {
      var line := sortingHat[i];
      assert sortingHat[i..][0] == line && sortingHat[i..][1..] == sortingHat[i + 1..];
      if oldNgram == line.key {
        oldTotal := oldTotal + line.count;
      } else {
        ghost var rest := MergeFrom(line.key, line.count, sortingHat[i + 1..]);
        assert out + MergeFrom(oldNgram, oldTotal, sortingHat[i..]) == (out + Flushed(oldNgram, oldTotal)) + rest;
        if oldNgram != "" && oldTotal > 0 {
          out := out + [Entry(oldNgram, oldTotal)];
        }
        oldNgram := line.key;
        oldTotal := line.count;
      }
    }
    out := out + [Entry(oldNgram, oldTotal)];
  }

  /** The second pass, keeping the lines that split into two fields. */
  method Reread(out: seq<Entry>) returns (reread: seq<Entry>)
    ensures reread == TwoFields(out)
  {
    reread := [];
    for i := 0 to |out|
      invariant reread == TwoFields(out[..i])
    {
      assert out[..i + 1][..i] == out[..i];
      if '\t' !in out[i].key {
        reread := reread + [out[i]];
      }
    }
    assert out[..|out|] == out;
  }

  // ---------------------------------------------------------------------------
  // Vocabulary for the properties

  /** Keys as `clean_string` produces them. */
  predicate ValidLines(s: seq<Entry>) {
    forall e :: e in s ==> CleanString.AllKept(e.key)
  }

  function Keys(s: seq<Entry>): set<string> {
    set e | e in s :: e.key
  }

  /** The sum of the counts of the lines with key `q`. */
  function SumFor(s: seq<Entry>, q: string): int {
    if s == [] then 0 else (if s[0].key == q then s[0].count else 0) + SumFor(s[1..], q)
  }

  predicate DistinctKeys(s: seq<Entry>) {
    forall i, j :: 0 <= i < j < |s| ==> s[i].key != s[j].key
  }

  /** Lines with the same key are adjacent. */
  ghost predicate Grouped(s: seq<Entry>) {
    forall i, j, l :: 0 <= i < j < l < |s| && s[i].key == s[l].key ==> s[j].key == s[i].key
  }

  /** Every line with key `k` comes before every line with another key. */
  ghost predicate LeadsWith(s: seq<Entry>, k: string) {
    forall i, j :: 0 <= i <= j < |s| && s[j].key == k ==> s[i].key == k
  }

  function LastKey(k: string, s: seq<Entry>): string {
    if s == [] then k else s[|s| - 1].key
  }

  /** `q` is a key of `s` and no key of `s` sorts after it. */
  ghost predicate IsLargestKey(s: seq<Entry>, q: string) {
    q in Keys(s) && forall e :: e in s ==> StrLe(e.key, q)
  }

  // ---------------------------------------------------------------------------
  // Small facts about the vocabulary

  lemma KeysCons(s: seq<Entry>)
    requires s != []
    ensures Keys(s) == {s[0].key} + Keys(s[1..])
  {
    assert forall e :: e in s <==> e == s[0] || e in s[1..] by {
      assert s == [s[0]] + s[1..];
    }
  }

  lemma KeysAppend(a: seq<Entry>, b: seq<Entry>)
    ensures Keys(a + b) == Keys(a) + Keys(b)
  {
    assert forall e :: e in a + b <==> e in a || e in b;
  }

  lemma KeysOfSameElements(a: seq<Entry>, b: seq<Entry>)
    requires multiset(a) == multiset(b)
    ensures Keys(a) == Keys(b)
  {
    assert forall e :: e in a <==> e in b by {
      forall e ensures e in a <==> e in b {
        assert e in a <==> e in multiset(a);
        assert e in b <==> e in multiset(b);
      }
    }
  }

  lemma {:induction false} SumForAbsent(s: seq<Entry>, q: string)
    requires q !in Keys(s)
    ensures SumFor(s, q) == 0
  {
    if s != [] {
      KeysCons(s);
      SumForAbsent(s[1..], q);
    }
  }

  lemma DistinctAppend(a: seq<Entry>, b: seq<Entry>)
    requires DistinctKeys(a) && DistinctKeys(b) && Keys(a) !! Keys(b)
    ensures DistinctKeys(a + b)
  {
    forall i, j | 0 <= i < j < |a + b| ensures (a + b)[i].key != (a + b)[j].key {
      if j < |a| {
        assert (a + b)[i] == a[i] && (a + b)[j] == a[j];
      } else if i < |a| {
        assert (a + b)[i] == a[i] && a[i] in a && a[i].key in Keys(a);
        assert (a + b)[j] == b[j - |a|] && b[j - |a|] in b && b[j - |a|].key in Keys(b);
      } else {
        assert (a + b)[i] == b[i - |a|] && (a + b)[j] == b[j - |a|];
      }
    }
  }

  lemma StrLeReflexive(a: string)
    ensures StrLe(a, a)
  {
    StrLeTotal(a, a);
  }

  lemma LineLeTotalPreorder()
    ensures TotalPreorder(LineLe)
  {
    forall x, y ensures LineLe(x, y) || LineLe(y, x) {
      StrLeTotal(LineText(x), LineText(y));
    }
    forall x, y, z | LineLe(x, y) && LineLe(y, z) ensures LineLe(x, z) {
      StrLeTransitive(LineText(x), LineText(y), LineText(z));
    }
  }

  lemma CountGeTotalPreorder()
    ensures TotalPreorder(CountGe)
  {
  }

  // ---------------------------------------------------------------------------
  // The merge pass

  lemma {:induction false} MergeKeys(k: string, t: int, s: seq<Entry>)
    ensures Keys(MergeFrom(k, t, s)) <= {k} + Keys(s)
    decreases |s|
  {
    if s != [] {
      KeysCons(s);
      if s[0].key == k {
        MergeKeys(k, t + s[0].count, s[1..]);
      } else {
        var pre := Flushed(k, t);
        MergeKeys(s[0].key, s[0].count, s[1..]);
        KeysAppend(pre, MergeFrom(s[0].key, s[0].count, s[1..]));
      }
    }
  }

  /** After a change of key the rest is still grouped, leads with its first key, and
      no longer holds the old key. */
  lemma GroupedTail(k: string, s: seq<Entry>)
    requires s != [] && Grouped(s) && LeadsWith(s, k) && s[0].key != k
    ensures Grouped(s[1..]) && LeadsWith(s[1..], s[0].key) && k !in Keys(s)
  {
    forall i, j | 0 <= i <= j < |s[1..]| && s[1..][j].key == s[0].key
      ensures s[1..][i].key == s[0].key
    {
      if i < j {
        assert s[i + 1].key == s[0].key;
      }
    }
    assert forall l :: 0 <= l < |s| ==> s[l].key != k;
  }

  lemma {:induction false} MergeDistinct(k: string, t: int, s: seq<Entry>)
    requires Grouped(s) && LeadsWith(s, k)
    ensures DistinctKeys(MergeFrom(k, t, s))
    decreases |s|
  {
    if s != [] {
      if s[0].key == k {
        MergeDistinct(k, t + s[0].count, s[1..]);
      } else {
        GroupedTail(k, s);
        KeysCons(s);
        var pre := Flushed(k, t);
        var rest := MergeFrom(s[0].key, s[0].count, s[1..]);
        MergeDistinct(s[0].key, s[0].count, s[1..]);
        MergeKeys(s[0].key, s[0].count, s[1..]);
        assert Keys(pre) <= {k};
        DistinctAppend(pre, rest);
      }
    }
  }

  /** Each written count is the total of its key: `t` for the current key plus the
      counts of that key still to come. */
  lemma {:induction false} MergeSums(k: string, t: int, s: seq<Entry>)
    requires Grouped(s) && LeadsWith(s, k)
    ensures forall e :: e in MergeFrom(k, t, s) ==>
              e.count == (if e.key == k then t else 0) + SumFor(s, e.key)
    decreases |s|
  {
    if s != [] {
      if s[0].key == k {
        MergeSums(k, t + s[0].count, s[1..]);
      } else {
        GroupedTail(k, s);
        KeysCons(s);
        var pre := Flushed(k, t);
        var rest := MergeFrom(s[0].key, s[0].count, s[1..]);
        MergeSums(s[0].key, s[0].count, s[1..]);
        MergeKeys(s[0].key, s[0].count, s[1..]);
        SumForAbsent(s, k);
        forall e: Entry | e in pre + rest
          ensures e.count == (if e.key == k then t else 0) + SumFor(s, e.key)
        {
          if e in rest {
            assert e.key in Keys(rest);
          }
        }
      }
    }
  }

  lemma LastKeyIn(k: string, s: seq<Entry>)
    ensures LastKey(k, s) in {k} + Keys(s)
  {
    if s != [] {
      assert s[|s| - 1] in s;
    }
  }

  lemma KeysFlushed(k: string, t: int)
    ensures Keys(Flushed(k, t)) == if k != "" && t > 0 then {k} else {}
  {
    if k != "" && t > 0 {
      assert Flushed(k, t)[0] == Entry(k, t);
    }
  }

  /** On a change of key, the old key is not seen again. */
  lemma OldKeyGone(k: string, s: seq<Entry>)
    requires Grouped(s) && LeadsWith(s, k) && s != [] && s[0].key != k
    ensures k !in Keys(MergeFrom(s[0].key, s[0].count, s[1..]))
    ensures k != LastKey(k, s) && SumFor(s, k) == 0
  {
    GroupedTail(k, s);
    KeysCons(s);
    MergeKeys(s[0].key, s[0].count, s[1..]);
    LastKeyIn(s[0].key, s[1..]);
    assert LastKey(k, s) == LastKey(s[0].key, s[1..]);
    SumForAbsent(s, k);
  }

  /** On a change of key, the old key is written iff it is not empty and its total
      is positive. */
  lemma MergeOldKey(k: string, t: int, s: seq<Entry>)
    requires Grouped(s) && LeadsWith(s, k) && s != [] && s[0].key != k
    ensures k in Keys(MergeFrom(k, t, s)) <==> k != "" && t > 0
    ensures k != LastKey(k, s) && SumFor(s, k) == 0
  {
    OldKeyGone(k, s);
    KeysFlushed(k, t);
    KeysAppend(Flushed(k, t), MergeFrom(s[0].key, s[0].count, s[1..]));
  }

  /** On a change of key, the other keys are written as from the new group on. */
  lemma MergeNewKeys(k: string, t: int, s: seq<Entry>, q: string)
    requires s != [] && s[0].key != k && q != k
    ensures q in Keys(MergeFrom(k, t, s)) <==> q in Keys(MergeFrom(s[0].key, s[0].count, s[1..]))
    ensures LastKey(k, s) == LastKey(s[0].key, s[1..])
  {
    var pre := Flushed(k, t);
    KeysAppend(pre, MergeFrom(s[0].key, s[0].count, s[1..]));
    assert q !in Keys(pre);
  }

  /** Which keys are written: the last group always, any other group iff its key is
      not empty and its total is positive. */
  lemma {:induction false} MergeMembership(k: string, t: int, s: seq<Entry>, q: string)
    requires Grouped(s) && LeadsWith(s, k)
    requires q == k || q in Keys(s)
    ensures q in Keys(MergeFrom(k, t, s)) <==>
              q == LastKey(k, s) || (q != "" && (if q == k then t else 0) + SumFor(s, q) > 0)
    decreases |s|
  {
    if s == [] {
      assert Keys([Entry(k, t)]) == {k};
    } else if s[0].key == k {
      KeysCons(s);
      MergeMembership(k, t + s[0].count, s[1..], q);
      assert MergeFrom(k, t, s) == MergeFrom(k, t + s[0].count, s[1..]);
      assert LastKey(k, s) == LastKey(k, s[1..]);
      assert SumFor(s, q) == (if q == k then s[0].count else 0) + SumFor(s[1..], q);
    } else if q == k {
      MergeOldKey(k, t, s);
    } else {
      GroupedTail(k, s);
      KeysCons(s);
      MergeNewKeys(k, t, s, q);
      MergeMembership(s[0].key, s[0].count, s[1..], q);
      assert SumFor(s, q) == (if q == s[0].key then s[0].count else 0) + SumFor(s[1..], q);
    }
  }

  // ---------------------------------------------------------------------------
  // The first sort

  lemma {:induction false} SumForInsert(x: Entry, s: seq<Entry>, le: (Entry, Entry) -> bool, q: string)
    ensures SumFor(Insert(x, s, le), q) == (if x.key == q then x.count else 0) + SumFor(s, q)
  {
    if s != [] && !le(x, s[0]) {
      SumForInsert(x, s[1..], le, q);
      assert Insert(x, s, le) == [s[0]] + Insert(x, s[1..], le);
    }
  }

  lemma {:induction false} SumForSort(s: seq<Entry>, le: (Entry, Entry) -> bool, q: string)
    ensures SumFor(Sort(s, le), q) == SumFor(s, q)
  {
    if s != [] {
      SumForSort(s[1..], le, q);
      SumForInsert(s[0], Sort(s[1..], le), le, q);
    }
  }

  /** Every character of a clean key sorts after the tab. */
  lemma CleanAboveTab(k: string, i: int)
    requires CleanString.AllKept(k) && 0 <= i < |k|
    ensures k[i] > '\t'
  {
    assert CleanString.Kept(k[i]);
  }

  /** A line that starts with `k<TAB>` has key `k`. */
  lemma KeyFromPrefix(e: Entry, k: string)
    requires CleanString.AllKept(e.key) && CleanString.AllKept(k)
    requires |k| + 1 <= |LineText(e)| && LineText(e)[..|k| + 1] == k + "\t"
    ensures e.key == k
  {
    var line := LineText(e);
    var p := k + "\t";
    var m := if |e.key| < |k| then |e.key| else |k|;
    assert line[m] == p[m];
    if m < |e.key| {
      CleanAboveTab(e.key, m);
    }
    if m < |k| {
      CleanAboveTab(k, m);
    }
    assert |e.key| == |k|;
    assert e.key == line[..|k|] == p[..|k|] == k;
  }

  /** Line order restricted to clean keys is key order. */
  lemma {:induction false} KeyLeFromLineLe(k1: string, r1: string, k2: string, r2: string)
    requires CleanString.AllKept(k1)
    requires StrLe(k1 + "\t" + r1, k2 + "\t" + r2)
    ensures StrLe(k1, k2)
    decreases |k1|
  {
    if k1 != [] {
      var a := k1 + "\t" + r1;
      var b := k2 + "\t" + r2;
      CleanAboveTab(k1, 0);
      assert a[0] == k1[0];
      assert k2 != [] && b[0] == k2[0];
      if k1[0] == k2[0] {
        assert a[1..] == k1[1..] + "\t" + r1 && b[1..] == k2[1..] + "\t" + r2;
        KeyLeFromLineLe(k1[1..], r1, k2[1..], r2);
      }
    }
  }

  lemma LineLeKeys(x: Entry, y: Entry)
    requires CleanString.AllKept(x.key) && LineLe(x, y)
    ensures StrLe(x.key, y.key)
  {
    assert LineText(x) == x.key + "\t" + (IntText(x.count) + "\n");
    assert LineText(y) == y.key + "\t" + (IntText(y.count) + "\n");
    KeyLeFromLineLe(x.key, IntText(x.count) + "\n", y.key, IntText(y.count) + "\n");
  }

  /** Sorting clean lines as strings groups equal keys: the lines starting with
      `key<TAB>` are contiguous. */
  lemma SortedGroups(s: seq<Entry>)
    requires ValidLines(s) && Sorted(s, LineLe)
    ensures Grouped(s)
  {
    forall i, j, l | 0 <= i < j < l < |s| && s[i].key == s[l].key
      ensures s[j].key == s[i].key
    {
      var p := s[i].key + "\t";
      assert s[i] in s && s[j] in s && s[l] in s;
      assert LineText(s[i])[..|p|] == p;
      assert LineText(s[l])[..|p|] == p;
      StrLeKeepsPrefix(p, LineText(s[i]), LineText(s[j]), LineText(s[l]));
      KeyFromPrefix(s[j], s[i].key);
    }
  }

  /** Lines with an empty key start with a tab and so sort before all others. */
  lemma SortedEmptyKeysLead(s: seq<Entry>)
    requires ValidLines(s) && Sorted(s, LineLe)
    ensures LeadsWith(s, "")
  {
    forall i, j | 0 <= i <= j < |s| && s[j].key == "" ensures s[i].key == "" {
      if i < j {
        assert s[i] in s;
        LineLeKeys(s[i], s[j]);
      }
    }
  }

  /** The last sorted line carries the largest key. */
  lemma SortedLastIsLargest(s: seq<Entry>)
    requires ValidLines(s) && Sorted(s, LineLe) && s != []
    ensures forall e :: e in s ==> StrLe(e.key, s[|s| - 1].key)
  {
    forall e | e in s ensures StrLe(e.key, s[|s| - 1].key) {
      var i :| 0 <= i < |s| && s[i] == e;
      if i < |s| - 1 {
        LineLeKeys(e, s[|s| - 1]);
      } else {
        StrLeReflexive(e.key);
      }
    }
  }

  lemma SortedLastKey(s: seq<Entry>, q: string)
    requires ValidLines(s) && Sorted(s, LineLe) && s != []
    requires q in Keys(s)
    ensures IsLargestKey(s, q) <==> q == s[|s| - 1].key
  {
    var last := s[|s| - 1];
    assert last in s;
    SortedLastIsLargest(s);
    if IsLargestKey(s, q) {
      assert StrLe(last.key, q);
      var e :| e in s && e.key == q;
      assert StrLe(q, last.key);
      StrLeAntisymmetric(q, last.key);
    }
  }

  // ---------------------------------------------------------------------------
  // The reread and the second sort

  lemma {:induction false} TwoFieldsKeepsClean(s: seq<Entry>)
    requires forall i :: 0 <= i < |s| ==> '\t' !in s[i].key
    ensures TwoFields(s) == s
  {
    if s != [] {
      var init := s[..|s| - 1];
      assert forall i :: 0 <= i < |init| ==> init[i] == s[i];
      TwoFieldsKeepsClean(init);
      assert s == init + [s[|s| - 1]];
    }
  }

  lemma {:induction false} InsertDistinct(x: Entry, s: seq<Entry>, le: (Entry, Entry) -> bool)
    requires DistinctKeys(s) && x.key !in Keys(s)
    ensures DistinctKeys(Insert(x, s, le))
  {
    if s == [] {
    } else if le(x, s[0]) {
      assert Keys([x]) == {x.key};
      DistinctAppend([x], s);
    } else {
      KeysCons(s);
      InsertDistinct(x, s[1..], le);
      InsertPermutes(x, s[1..], le);
      var r := Insert(x, s[1..], le);
      KeysOfSameElements(r, s[1..] + [x]);
      KeysAppend(s[1..], [x]);
      assert Keys([x]) == {x.key};
      assert Keys([s[0]]) == {s[0].key};
      assert s[0].key !in Keys(s[1..]) by {
        forall e | e in s[1..] ensures e.key != s[0].key {
          var l :| 0 <= l < |s[1..]| && s[1..][l] == e;
          assert s[l + 1] == e;
        }
      }
      DistinctAppend([s[0]], r);
    }
  }

  lemma {:induction false} SortDistinct(s: seq<Entry>, le: (Entry, Entry) -> bool)
    requires DistinctKeys(s)
    ensures DistinctKeys(Sort(s, le))
  {
    if s != [] {
      KeysCons(s);
      assert DistinctKeys(s[1..]);
      SortDistinct(s[1..], le);
      SortCorrectPermutes(s[1..], le);
      KeysOfSameElements(Sort(s[1..], le), s[1..]);
      assert s[0].key !in Keys(s[1..]) by {
        forall e | e in s[1..] ensures e.key != s[0].key {
          var l :| 0 <= l < |s[1..]| && s[1..][l] == e;
          assert s[l + 1] == e;
        }
      }
      InsertDistinct(s[0], Sort(s[1..], le), le);
    }
  }

  /** `Sort` permutes for any order, total or not. */
  lemma {:induction false} SortCorrectPermutes<T>(s: seq<T>, le: (T, T) -> bool)
    ensures multiset(Sort(s, le)) == multiset(s)
  {
    if s != [] {
      SortCorrectPermutes(s[1..], le);
      InsertPermutes(s[0], Sort(s[1..], le), le);
      assert s == [s[0]] + s[1..];
    }
  }

  // ---------------------------------------------------------------------------
  // What `file_consolidate` promises

  /** An empty shard file becomes the single line `<TAB>0` and the count returned is 1. */
  lemma ConsolidatedEmpty()
    ensures Consolidated([]) == [Entry("", 0)]
  {
    assert Merged([]) == [Entry("", 0)];
    assert TwoFields([Entry("", 0)]) == [Entry("", 0)];
  }

  /** The file is ordered by count, largest first, and holds the merged lines. */
  lemma ConsolidatedByCount(lines: seq<Entry>)
    ensures forall i, j :: 0 <= i < j < |Consolidated(lines)| ==>
              Consolidated(lines)[i].count >= Consolidated(lines)[j].count
    ensures multiset(Consolidated(lines)) == multiset(TwoFields(Merged(Sort(lines, LineLe))))
  {
    CountGeTotalPreorder();
    SortCorrect(TwoFields(Merged(Sort(lines, LineLe))), CountGe);
  }

  lemma SameElements(a: seq<Entry>, b: seq<Entry>)
    requires multiset(a) == multiset(b)
    ensures forall e :: e in a <==> e in b
  {
    forall e ensures e in a <==> e in b {
      assert e in a <==> e in multiset(a);
      assert e in b <==> e in multiset(b);
    }
  }

  /** What the first sort gives the merge pass. */
  lemma SortedFacts(lines: seq<Entry>)
    requires ValidLines(lines)
    ensures forall e :: e in Sort(lines, LineLe) <==> e in lines
    ensures ValidLines(Sort(lines, LineLe))
    ensures Grouped(Sort(lines, LineLe)) && LeadsWith(Sort(lines, LineLe), "")
    ensures Sorted(Sort(lines, LineLe), LineLe)
  {
    var sorted := Sort(lines, LineLe);
    LineLeTotalPreorder();
    SortCorrect(lines, LineLe);
    SameElements(sorted, lines);
    SortedGroups(sorted);
    SortedEmptyKeysLead(sorted);
  }

  /** Merged clean lines all split into two fields. */
  lemma MergedTwoFields(s: seq<Entry>)
    requires ValidLines(s)
    ensures TwoFields(Merged(s)) == Merged(s)
  {
    var m := Merged(s);
    MergeKeys("", 0, s);
    forall i | 0 <= i < |m| ensures '\t' !in m[i].key {
      var e := m[i];
      assert e in m && e.key in Keys(m);
      if e.key != "" {
        var x :| x in s && x.key == e.key;
        forall i | 0 <= i < |e.key| ensures e.key[i] != '\t' {
          CleanAboveTab(e.key, i);
        }
      }
    }
    TwoFieldsKeepsClean(m);
  }

  /** The file holds exactly the merged lines, reordered. */
  lemma ConsolidatedElements(lines: seq<Entry>)
    requires ValidLines(lines)
    ensures forall e :: e in Consolidated(lines) <==> e in Merged(Sort(lines, LineLe))
  {
    var m := Merged(Sort(lines, LineLe));
    SortedFacts(lines);
    MergedTwoFields(Sort(lines, LineLe));
    SortCorrectPermutes(m, CountGe);
    SameElements(Consolidated(lines), m);
  }

  /** No key appears twice in the file. */
  lemma ConsolidatedDistinct(lines: seq<Entry>)
    requires ValidLines(lines)
    ensures DistinctKeys(Consolidated(lines))
  {
    var sorted := Sort(lines, LineLe);
    SortedFacts(lines);
    MergedTwoFields(sorted);
    MergeDistinct("", 0, sorted);
    SortDistinct(Merged(sorted), CountGe);
  }

  /** Each count is the total of its key's input counts, and no key is invented except
      the `""` of an empty file. */
  lemma ConsolidatedSums(lines: seq<Entry>)
    requires ValidLines(lines)
    ensures forall e :: e in Consolidated(lines) ==>
              e.count == SumFor(lines, e.key) && (e.key in Keys(lines) || lines == [])
  {
    var sorted := Sort(lines, LineLe);
    var m := Merged(sorted);
    SortedFacts(lines);
    ConsolidatedElements(lines);
    KeysOfSameMembers(sorted, lines);
    MergeSums("", 0, sorted);
    MergeKeys("", 0, sorted);
    MergeMembership("", 0, sorted, "");
    LastKeyIn("", sorted);
    forall e | e in Consolidated(lines)
      ensures e.count == SumFor(lines, e.key) && (e.key in Keys(lines) || lines == [])
    {
      assert e in m && e.key in Keys(m);
      SumForSort(lines, LineLe, e.key);
    }
  }

  lemma KeysOfSameMembers(a: seq<Entry>, b: seq<Entry>)
    requires forall e :: e in a <==> e in b
    ensures Keys(a) == Keys(b)
  {
  }

  /** A key of the input is written iff it is the largest key (its group is the last
      one, always written) or it is not empty and its total is positive. */
  lemma ConsolidatedKeeps(lines: seq<Entry>, q: string)
    requires ValidLines(lines) && q in Keys(lines)
    ensures q in Keys(Consolidated(lines)) <==>
              IsLargestKey(lines, q) || (q != "" && SumFor(lines, q) > 0)
  {
    var sorted := Sort(lines, LineLe);
    assert q in Keys(Consolidated(lines)) <==> q in Keys(Merged(sorted)) by {
      ConsolidatedElements(lines);
      KeysOfSameMembers(Consolidated(lines), Merged(sorted));
    }
    assert q in Keys(Merged(sorted)) <==> IsLargestKey(sorted, q) || (q != "" && SumFor(sorted, q) > 0) by {
      SortedFacts(lines);
      KeysOfSameMembers(sorted, lines);
      MergedKeeps(sorted, q);
    }
    assert IsLargestKey(sorted, q) <==> IsLargestKey(lines, q) by {
      SortedFacts(lines);
      LargestOfSameMembers(sorted, lines, q);
    }
    SumForSort(lines, LineLe, q);
  }

  lemma MergedKeeps(s: seq<Entry>, q: string)
    requires ValidLines(s) && Sorted(s, LineLe) && Grouped(s) && LeadsWith(s, "")
    requires q in Keys(s)
    ensures q in Keys(Merged(s)) <==> IsLargestKey(s, q) || (q != "" && SumFor(s, q) > 0)
  {
    MergeMembership("", 0, s, q);
    SortedLastKey(s, q);
  }

  lemma LargestOfSameMembers(a: seq<Entry>, b: seq<Entry>, q: string)
    requires forall e :: e in a <==> e in b
    ensures IsLargestKey(a, q) <==> IsLargestKey(b, q)
  {
    KeysOfSameMembers(a, b);
  }
}
