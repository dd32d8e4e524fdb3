/** The aggregation pass of `process_dict` (dictprocess.py:119-155): records of one
    source file, in file order, are folded into `key<TAB>total` lines. The fold keeps
    the previous key (`last_pair`), its running total and a publication count, and
    decides whether to write the previous key each time the key changes. The file
    writes themselves are made by `DictBuild.Builder.ProcessDict`; here is the
    sequence of lines the fold writes, in order. */
module Aggregate {
  import opened Shard
  import CleanString

  /** The thresholds of the configuration (`startyear`, `endyear`, `minfreq`,
      `minpubs`). */
  datatype Config = Config(startYear: int, endYear: int, minFreq: int, minPubs: int)

  /** One parsed source line: the phrase, its year, its count and its number of
      publications. */
  datatype Record = Record(phrase: string, year: int, count: int, pubs: int)

  /** A record with its key computed. */
  datatype Keyed = Keyed(key: string, year: int, count: int, pubs: int)

  /** The key a record is filed under is its cleaned phrase. `clean_string` never
      returns `None`, so no record is skipped: rejected phrases all get the key `""`. */
  function KeyRecord(r: Record): Keyed {
    Keyed(CleanString.Clean(r.phrase), r.year, r.count, r.pubs)
  }

  /** The records of a file with their keys, in file order: record i is filed under
      the cleaned form of its own phrase. */
  function KeyAll(rs: seq<Record>): (ks: seq<Keyed>)
    ensures |ks| == |rs|
    ensures forall i {:trigger KeyRecord(rs[i])} :: 0 <= i < |rs| ==> ks[i] == KeyRecord(rs[i])
  {
    if rs == [] then []
    else
      var rest := KeyAll(rs[1..]);
      assert forall i {:trigger KeyRecord(rs[i])} :: 1 <= i < |rs| ==> KeyRecord(rs[i]) == KeyRecord(rs[1..][i - 1]);
      [KeyRecord(rs[0])] + rest
  }

  /** `ks` holds the records `rs` with their keys. The quantifier fires only on a
      record's key, so a fold over `ks` can be reasoned about without unfolding
      `clean_string`. */
  ghost predicate KeyedAs(ks: seq<Keyed>, rs: seq<Record>) {
    |ks| == |rs| && forall j {:trigger KeyRecord(rs[j])} :: 0 <= j < |rs| ==> ks[j] == KeyRecord(rs[j])
  }

  lemma KeyedAsKeyAll(ks: seq<Keyed>, rs: seq<Record>)
    ensures KeyedAs(ks, rs) <==> ks == KeyAll(rs)
  {
    assert forall j :: 0 <= j < |rs| ==> KeyAll(rs)[j] == KeyRecord(rs[j]);
    if KeyedAs(ks, rs) {
      assert forall j :: 0 <= j < |rs| ==> ks[j] == KeyAll(rs)[j];
    }
  }

  lemma KeysOf(rs: seq<Record>) returns (ks: seq<Keyed>)
    ensures KeyedAs(ks, rs)
  {
    ks := KeyAll(rs);
    KeyedAsKeyAll(ks, rs);
  }

  predicate InYears(cfg: Config, year: int) {
    cfg.startYear <= year <= cfg.endYear
  }

  /** The line written for a finished key, if it meets both thresholds. */
  function Flush(cfg: Config, k: string, t: int, p: int): seq<Entry> {
    if t >= cfg.minFreq && p >= cfg.minPubs then [Entry(k, t)] else []
  }

  /** The lines written from state (`last`, `total`, `pubs`) on. A record's
      publications are added before the key comparison; a record with the same key
      adds its count if its year is in range; a record with a new key flushes the
      previous key and restarts at zero, without its own count. Nothing is written
      when the records run out. */
  function Run(cfg: Config, last: string, total: int, pubs: int, rs: seq<Keyed>): seq<Entry>
    decreases |rs|
  {
    if rs == [] then []
    else
      var r := rs[0];
      if r.key == last then
        Run(cfg, last, total + (if InYears(cfg, r.year) then r.count else 0), pubs + r.pubs, rs[1..])
      else
        Flush(cfg, last, total, pubs + r.pubs) + Run(cfg, r.key, 0, 0, rs[1..])
  }

  /** The fold taken one record at a time, as the loop of `process_dict` takes it:
      the lines written so far followed by the lines still to come make up the
      whole output, before and after the record. */
  lemma FoldStep(cfg: Config, sent: seq<Entry>, last: string, total: int, pubs: int,
                 rs: seq<Keyed>, target: seq<Entry>)
    requires rs != [] && sent + Run(cfg, last, total, pubs, rs) == target
    ensures rs[0].key == last ==>
              sent + Run(cfg, last, total + (if InYears(cfg, rs[0].year) then rs[0].count else 0),
                         pubs + rs[0].pubs, rs[1..]) == target
    ensures rs[0].key != last ==>
              (sent + Flush(cfg, last, total, pubs + rs[0].pubs)) + Run(cfg, rs[0].key, 0, 0, rs[1..]) == target
  {
    if rs[0].key != last {
      var flushed := Flush(cfg, last, total, pubs + rs[0].pubs);
      var later := Run(cfg, rs[0].key, 0, 0, rs[1..]);
      assert Run(cfg, last, total, pubs, rs) == flushed + later;
      assert sent + (flushed + later) == (sent + flushed) + later;
    }
  }

  /** The lines written for a whole source file, from the initial state ("", 0, 0). */
  function Emitted(cfg: Config, rs: seq<Record>): seq<Entry> {
    Run(cfg, "", 0, 0, KeyAll(rs))
  }

  /** The sum of the counts whose year is in range. */
  function YearTotal(cfg: Config, rs: seq<Keyed>): int {
    if rs == [] then 0
    else (if InYears(cfg, rs[0].year) then rs[0].count else 0) + YearTotal(cfg, rs[1..])
  }

  function PubTotal(rs: seq<Keyed>): int {
    if rs == [] then 0 else rs[0].pubs + PubTotal(rs[1..])
  }

  ghost predicate AllKeyed(rs: seq<Keyed>, k: string) {
    forall i :: 0 <= i < |rs| ==> rs[i].key == k
  }

  /** Records with the current key write nothing; they add their in-range counts to
      the total and all their publications to the publication count. */
  lemma {:induction false} SameKeyRun(cfg: Config, k: string, t: int, p: int, run: seq<Keyed>, more: seq<Keyed>)
    requires AllKeyed(run, k)
    ensures Run(cfg, k, t, p, run + more) ==
              Run(cfg, k, t + YearTotal(cfg, run), p + PubTotal(run), more)
    decreases |run|
  {
    if run != [] {
      var r := run[0];
      assert (run + more)[0] == r && (run + more)[1..] == run[1..] + more;
      assert r.key == k;
      SameKeyRun(cfg, k, t + (if InYears(cfg, r.year) then r.count else 0), p + r.pubs, run[1..], more);
    } else {
      assert run + more == more;
    }
  }

  /** A group r1..rn of records with one key, between other keys, is written as
      the previous key's line (counted with r1's publications), then its own line:
      the in-range counts of r2..rn (never r1's), tested together with the
      publications of r2..rn and of the first record of the next key. */
  lemma GroupEmission(cfg: Config, last: string, total: int, pubs: int,
                      group: seq<Keyed>, next: Keyed, rest: seq<Keyed>)
    requires group != [] && AllKeyed(group, group[0].key)
    requires group[0].key != last && next.key != group[0].key
    ensures Run(cfg, last, total, pubs, group + [next] + rest) ==
              Flush(cfg, last, total, pubs + group[0].pubs)
              + Flush(cfg, group[0].key, YearTotal(cfg, group[1..]), PubTotal(group[1..]) + next.pubs)
              + Run(cfg, next.key, 0, 0, rest)
  {
    var k := group[0].key;
    var tail := group[1..];
    var s := group + [next] + rest;
    assert s[0] == group[0] && s[1..] == tail + ([next] + rest);
    assert AllKeyed(tail, k);
    SameKeyRun(cfg, k, 0, 0, tail, [next] + rest);
    assert ([next] + rest)[0] == next && ([next] + rest)[1..] == rest;
  }

  /** The last group of a source file is never written: the records run out while it
      is the current key. */
  lemma LastGroupNotWritten(cfg: Config, last: string, total: int, pubs: int, group: seq<Keyed>)
    requires group != [] && AllKeyed(group, group[0].key) && group[0].key != last
    ensures Run(cfg, last, total, pubs, group) == Flush(cfg, last, total, pubs + group[0].pubs)
  {
    var k := group[0].key;
    assert AllKeyed(group[1..], k);
    SameKeyRun(cfg, k, 0, 0, group[1..], []);
    assert group[1..] + [] == group[1..];
  }

  /** Every line written carries a key `clean_string` can produce, and a count that
      meets `minfreq`. */
  /** Every key written is the key held on entry or the key of one of the records,
      so it is made of kept characters, and its total reached `minfreq`. */
  lemma {:induction false} RunKeysClean(cfg: Config, last: string, total: int, pubs: int, rs: seq<Keyed>)
    requires CleanString.AllKept(last)
    requires forall i :: 0 <= i < |rs| ==> CleanString.AllKept(rs[i].key)
    ensures forall e :: e in Run(cfg, last, total, pubs, rs) ==>
              (e.key == last || exists i :: 0 <= i < |rs| && rs[i].key == e.key) &&
              CleanString.AllKept(e.key) && e.count >= cfg.minFreq
    decreases |rs|
  {
    if rs != [] {
      var r := rs[0];
      assert forall i :: 0 <= i < |rs| - 1 ==> rs[1..][i] == rs[i + 1];
      if r.key == last {
        RunKeysClean(cfg, last, total + (if InYears(cfg, r.year) then r.count else 0), pubs + r.pubs, rs[1..]);
      } else {
        RunKeysClean(cfg, r.key, 0, 0, rs[1..]);
      }
    }
  }

  /** Every key a source file writes is `""` or the cleaned phrase of one of its
      records (`""` being the key of rejected phrases), and its total reached
      `minfreq`. */
  lemma EmittedKeysClean(cfg: Config, rs: seq<Record>)
    ensures forall e :: e in Emitted(cfg, rs) ==>
              (e.key == "" || exists i :: 0 <= i < |rs| && e.key == CleanString.Clean(rs[i].phrase)) &&
              CleanString.AllKept(e.key) && e.count >= cfg.minFreq
  {
    var ks := KeyAll(rs);
    forall i | 0 <= i < |rs| ensures CleanString.AllKept(ks[i].key) && ks[i].key == CleanString.Clean(rs[i].phrase) {
      assert ks[i] == KeyRecord(rs[i]);
      CleanString.CleanAlphabet(rs[i].phrase);
    }
    RunKeysClean(cfg, "", 0, 0, ks);
  }
}
