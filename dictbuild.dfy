/** The dictionary build of dictprocess.py as state changes on the output directory:
    `cleanup` (lines 17-32), `process_dict` (lines 95-173) and `start_process`
    (lines 176-195). The directory is a set of letter directories and a map from
    file paths to their lines. */
module DictBuild {
  import opened Shard
  import Aggregate
  import Consolidate
  import CleanString

  /** `config["char_list"]`: the underscore followed by `a` to `z`. */
  const CharList: string := "_abcdefghijklmnopqrstuvwxyz"

  lemma CharListFacts()
    ensures |CharList| == 27 && CharList[0] == '_'
    ensures forall i, j :: 0 <= i < j < |CharList| ==> CharList[i] != CharList[j]
    ensures forall i :: 1 <= i < |CharList| ==> CharList[i] != '_'
  {
  }

  /** Extending a prefix of `s` by one element. */
  lemma PrefixSnoc<T>(s: seq<T>, k: int)
    requires 0 <= k < |s|
    ensures s[..k + 1] == s[..k] + [s[k]] && s[..k + 1][..k] == s[..k]
  {
  }

  lemma WholePrefix<T>(s: seq<T>)
    ensures s[..|s|] == s
  {
  }

  /** A file under the output directory: the in-progress marker
      `<a>/_currently_woring_on_<a><b>.txt`, or a shard `<dir>/<name>.txt`. */
  datatype Path = Marker(a: char, b: char) | ShardFile(dir: char, name: string)
  {
    function Dir(): char {
      match this
      case Marker(a, _) => a
      case ShardFile(d, _) => d
    }
  }

  /** The files with their lines; the text of a marker is not modelled. */
  type Files = map<Path, seq<Entry>>

  /** The shard `<a><b><c>.txt` in directory `a`. */
  function PairShard(a: char, b: char, c: char): Path {
    ShardFile(a, [a, b, c])
  }

  function PairShards(a: char, b: char, cs: string): set<Path> {
    set c | c in cs :: PairShard(a, b, c)
  }

  /** The lines of a file; a missing file reads as empty. */
  function Lines(f: Files, p: Path): seq<Entry> {
    if p in f then f[p] else []
  }

  predicate NoDup(cs: string) {
    forall i, j :: 0 <= i < j < |cs| ==> cs[i] != cs[j]
  }

  lemma PairShardsSnoc(a: char, b: char, cs: string)
    requires cs != []
    ensures PairShards(a, b, cs) == PairShards(a, b, cs[..|cs| - 1]) + {PairShard(a, b, cs[|cs| - 1])}
  {
    assert forall c :: c in cs <==> c in cs[..|cs| - 1] || c == cs[|cs| - 1] by {
      assert cs == cs[..|cs| - 1] + [cs[|cs| - 1]];
    }
  }

  lemma PairShardMember(a: char, b: char, c: char, cs: string)
    ensures PairShard(a, b, c) in PairShards(a, b, cs) <==> c in cs
  {
  }

  // ---------------------------------------------------------------------------
  // cleanup

  function Row(a: char, bs: string): set<(char, char)> {
    set b | b in bs :: (a, b)
  }

  /** The pairs whose first character is in `xs`. */
  function Rows(xs: string): set<(char, char)> {
    set a, b | a in xs && b in CharList :: (a, b)
  }

  /** The pairs `cleanup` visits: every letter of `char_list` twice over. */
  function AllPairs(): set<(char, char)> {
    Rows(CharList)
  }

  lemma RowsSnoc(xs: string, a: char)
    ensures Rows(xs + [a]) == Rows(xs) + Row(a, CharList)
  {
    assert forall x :: x in xs + [a] <==> x in xs || x == a;
  }

  lemma RowSnoc(a: char, bs: string, b: char)
    ensures Row(a, bs + [b]) == Row(a, bs) + {(a, b)}
  {
    assert forall x :: x in bs + [b] <==> x in bs || x == b;
  }

  /** What `cleanup` deletes once it has visited the pairs `done`, given the files
      `f0` it started from: the marker of a visited pair in an existing letter
      directory, and, when that marker existed, the pair's 27 shards. */
  ghost predicate Doomed(f0: Files, dirs: set<char>, done: set<(char, char)>, p: Path) {
    match p
    case Marker(a, b) => (a, b) in done && a in dirs
    case ShardFile(d, name) =>
      |name| == 3 && name[0] == d && name[2] in CharList && d in dirs
      && (d, name[1]) in done && Marker(d, name[1]) in f0
  }

  ghost function Purged(f0: Files, dirs: set<char>, done: set<(char, char)>): Files {
    map p | p in f0 && !Doomed(f0, dirs, done, p) :: f0[p]
  }

  /** The files without the pair's shards `<a><b><c>` for `c` in `cs`. */
  function WithoutShards(f: Files, a: char, b: char, cs: string): Files {
    map p | p in f && p !in PairShards(a, b, cs) :: f[p]
  }

  lemma WithoutShardsSnoc(f: Files, a: char, b: char, cs: string, c: char)
    ensures WithoutShards(f, a, b, cs + [c]) == WithoutShards(f, a, b, cs) - {PairShard(a, b, c)}
  {
    PairShardsSnoc(a, b, cs + [c]);
    assert (cs + [c])[..|cs|] == cs;
  }

  lemma PairShardsMembers(p: Path, a: char, b: char, cs: string)
    ensures p in PairShards(a, b, cs) <==>
              p.ShardFile? && p.dir == a && |p.name| == 3 && p.name[0] == a && p.name[1] == b && p.name[2] in cs
  {
    if p.ShardFile? && p.dir == a && |p.name| == 3 && p.name[0] == a && p.name[1] == b && p.name[2] in cs {
      assert p.name == [a, b, p.name[2]];
      assert p == PairShard(a, b, p.name[2]);
    }
  }

  /** Visiting one more pair dooms its marker and, when that marker existed, the
      pair's shards. */
  lemma DoomedStep(f0: Files, dirs: set<char>, done: set<(char, char)>, a: char, b: char, p: Path)
    requires a in dirs
    ensures Doomed(f0, dirs, done + {(a, b)}, p) <==>
              Doomed(f0, dirs, done, p) || p == Marker(a, b)
              || (Marker(a, b) in f0 && p in PairShards(a, b, CharList))
  {
    PairShardsMembers(p, a, b, CharList);
  }

  /** Visiting a pair whose marker is present removes its shards and its marker. */
  lemma PurgeStepMarked(f0: Files, dirs: set<char>, done: set<(char, char)>, a: char, b: char)
    requires a in dirs && Marker(a, b) in Purged(f0, dirs, done)
    ensures WithoutShards(Purged(f0, dirs, done), a, b, CharList) - {Marker(a, b)}
              == Purged(f0, dirs, done + {(a, b)})
  {
    var cur := Purged(f0, dirs, done);
    var next := Purged(f0, dirs, done + {(a, b)});
    var lhs := WithoutShards(cur, a, b, CharList) - {Marker(a, b)};
    forall p ensures p in lhs <==> p in next {
      DoomedStep(f0, dirs, done, a, b, p);
    }
    assert forall p :: p in lhs ==> lhs[p] == f0[p] == next[p];
  }

  /** Visiting a pair whose marker is absent changes nothing. */
  lemma PurgeStepUnmarked(f0: Files, dirs: set<char>, done: set<(char, char)>, a: char, b: char)
    requires a in dirs && Marker(a, b) !in Purged(f0, dirs, done)
    ensures Purged(f0, dirs, done) == Purged(f0, dirs, done + {(a, b)})
  {
    var cur := Purged(f0, dirs, done);
    var next := Purged(f0, dirs, done + {(a, b)});
    forall p ensures p in cur <==> p in next {
      DoomedStep(f0, dirs, done, a, b, p);
      if Marker(a, b) in f0 {
        assert (a, b) in done;
        assert done + {(a, b)} == done;
      }
    }
    assert forall p :: p in cur ==> cur[p] == f0[p] == next[p];
  }

  /** Pairs in a letter directory that does not exist are passed over. */
  lemma PurgeSkipsMissingDir(f0: Files, dirs: set<char>, done: set<(char, char)>, a: char)
    requires a !in dirs
    ensures Purged(f0, dirs, done + Row(a, CharList)) == Purged(f0, dirs, done)
  {
  }

  /** A second `cleanup` changes nothing. */
  lemma PurgeIdempotent(f: Files, dirs: set<char>)
    ensures Purged(Purged(f, dirs, AllPairs()), dirs, AllPairs()) == Purged(f, dirs, AllPairs())
  {
    var once := Purged(f, dirs, AllPairs());
    forall p | p in once ensures !Doomed(once, dirs, AllPairs(), p) {
      if p.ShardFile? && |p.name| == 3 && p.name[0] == p.dir && p.dir in dirs && (p.dir, p.name[1]) in AllPairs() {
        assert Marker(p.dir, p.name[1]) !in once;
      }
    }
  }

  /** A file of a pair with no marker is kept as it is; a visited pair whose marker
      existed loses the marker and all 27 shards. */
  lemma PurgeKeepsUnmarked(f: Files, dirs: set<char>, p: Path)
    requires p in f && !p.Marker?
    requires |p.name| != 3 || Marker(p.dir, p.name[1]) !in f
    ensures p in Purged(f, dirs, AllPairs()) && Purged(f, dirs, AllPairs())[p] == f[p]
  {
  }

  lemma PurgeRemovesMarked(f: Files, dirs: set<char>, a: char, b: char, c: char)
    requires a in dirs && a in CharList && b in CharList && c in CharList
    requires Marker(a, b) in f
    ensures Marker(a, b) !in Purged(f, dirs, AllPairs())
    ensures PairShard(a, b, c) !in Purged(f, dirs, AllPairs())
  {
    assert (a, b) in AllPairs();
  }

  // ---------------------------------------------------------------------------
  // process_dict: the three phases on the files

  /** Truncating (creating empty) the shards `<a><b><c>` for `c` in `cs`, in order. */
  function TruncateSome(f: Files, a: char, b: char, cs: string): Files {
    if cs == [] then f
    else TruncateSome(f, a, b, cs[..|cs| - 1])[PairShard(a, b, cs[|cs| - 1]) := []]
  }

  /** Each shard line goes to the file named after its key, in directory `a`. */
  function AppendAll(f: Files, a: char, es: seq<Entry>): Files {
    if es == [] then f
    else
      var g := AppendAll(f, a, es[..|es| - 1]);
      var e := es[|es| - 1];
      var p := ShardFile(a, ShardName(e.key));
      g[p := Lines(g, p) + [e]]
  }

  lemma AppendAllSnoc(f: Files, a: char, es: seq<Entry>, e: Entry)
    ensures AppendAll(f, a, es + [e]) ==
              var g := AppendAll(f, a, es);
              var p := ShardFile(a, ShardName(e.key));
              g[p := Lines(g, p) + [e]]
  {
    assert (es + [e])[..|es|] == es;
  }

  /** The lines, in order, that go to the file named `name`. */
  function Routed(es: seq<Entry>, name: string): seq<Entry> {
    if es == [] then []
    else Routed(es[..|es| - 1], name)
         + (if ShardName(es[|es| - 1].key) == name then [es[|es| - 1]] else [])
  }

  /** `file_consolidate` on the existing shards `<a><b><c>` for `c` in `cs`, in order. */
  function ConsolidateSome(f: Files, a: char, b: char, cs: string): Files {
    if cs == [] then f
    else
      var g := ConsolidateSome(f, a, b, cs[..|cs| - 1]);
      var p := PairShard(a, b, cs[|cs| - 1]);
      if p in g then g[p := Consolidate.Consolidated(g[p])] else g
  }

  lemma ConsolidateSomeSnoc(f: Files, a: char, b: char, cs: string, c: char)
    ensures ConsolidateSome(f, a, b, cs + [c]) ==
              var g := ConsolidateSome(f, a, b, cs);
              var p := PairShard(a, b, c);
              if p in g then g[p := Consolidate.Consolidated(g[p])] else g
  {
    assert (cs + [c])[..|cs|] == cs;
  }

  /** The files after `process_dict(a, b)` when no marker was present: marker
      created, the 27 shards truncated, the fold's lines appended, the 27 shards
      consolidated, marker deleted. */
  function Processed(f: Files, a: char, b: char, es: seq<Entry>): Files {
    var marked := f[Marker(a, b) := []];
    var truncated := TruncateSome(marked, a, b, CharList);
    var appended := AppendAll(truncated, a, es);
    ConsolidateSome(appended, a, b, CharList) - {Marker(a, b)}
  }

  lemma {:induction false} TruncateAt(f: Files, a: char, b: char, cs: string, p: Path)
    ensures p in TruncateSome(f, a, b, cs) <==> p in f || p in PairShards(a, b, cs)
    ensures p in TruncateSome(f, a, b, cs) ==>
              TruncateSome(f, a, b, cs)[p] == if p in PairShards(a, b, cs) then [] else f[p]
  {
    if cs != [] {
      TruncateAt(f, a, b, cs[..|cs| - 1], p);
      PairShardsSnoc(a, b, cs);
    }
  }

  /** Appending routes each line to the file of its key's shard name in directory
      `a`: such a file ends up holding its old lines followed by those routed to
      it; every other file is unchanged. */
  lemma {:induction false} AppendAllAt(f: Files, a: char, es: seq<Entry>, p: Path)
    ensures p in AppendAll(f, a, es) <==>
              p in f || (p.ShardFile? && p.dir == a && Routed(es, p.name) != [])
    ensures Lines(AppendAll(f, a, es), p) ==
              Lines(f, p) + (if p.ShardFile? && p.dir == a then Routed(es, p.name) else [])
  {
    if es != [] {
      var init := es[..|es| - 1];
      AppendAllAt(f, a, init, p);
      if p.ShardFile? && p.dir == a {
        assert Routed(es, p.name) == Routed(init, p.name)
          + (if ShardName(es[|es| - 1].key) == p.name then [es[|es| - 1]] else []);
      }
    }
  }

  lemma {:induction false} ConsolidateAt(f: Files, a: char, b: char, cs: string, p: Path)
    requires NoDup(cs)
    ensures p in ConsolidateSome(f, a, b, cs) <==> p in f
    ensures p in f ==>
              ConsolidateSome(f, a, b, cs)[p] ==
                if p in PairShards(a, b, cs) then Consolidate.Consolidated(f[p]) else f[p]
  {
    if cs != [] {
      var init := cs[..|cs| - 1];
      assert NoDup(init);
      ConsolidateAt(f, a, b, init, p);
      PairShardsSnoc(a, b, cs);
      if p == PairShard(a, b, cs[|cs| - 1]) {
        PairShardMember(a, b, cs[|cs| - 1], init);
      }
    }
  }

  lemma {:induction false} RoutedFacts(es: seq<Entry>, name: string)
    ensures forall e :: e in Routed(es, name) ==> e in es && ShardName(e.key) == name
  {
    if es != [] {
      RoutedFacts(es[..|es| - 1], name);
    }
  }

  lemma CharListNoDup()
    ensures NoDup(CharList)
  {
    CharListFacts();
  }

  /** Each of the 27 shards of the pair ends up as the consolidation of exactly the
      lines the fold routed to it (it was truncated first). */
  lemma ProcessedPairShard(f: Files, a: char, b: char, es: seq<Entry>, c: char)
    requires c in CharList
    ensures PairShard(a, b, c) in Processed(f, a, b, es)
    ensures Processed(f, a, b, es)[PairShard(a, b, c)] ==
              Consolidate.Consolidated(Routed(es, [a, b, c]))
  {
    var p := PairShard(a, b, c);
    var marked := f[Marker(a, b) := []];
    var truncated := TruncateSome(marked, a, b, CharList);
    var appended := AppendAll(truncated, a, es);
    var routed := Routed(es, [a, b, c]);
    PairShardMember(a, b, c, CharList);
    assert p in truncated && truncated[p] == [] by {
      TruncateAt(marked, a, b, CharList, p);
    }
    assert p in appended && appended[p] == routed by {
      AppendAllAt(truncated, a, es, p);
    }
    assert ConsolidateSome(appended, a, b, CharList)[p] == Consolidate.Consolidated(routed) by {
      CharListNoDup();
      ConsolidateAt(appended, a, b, CharList, p);
    }
  }

  /** Files outside directory `a` are not touched. */
  lemma ProcessedOtherDir(f: Files, a: char, b: char, es: seq<Entry>, p: Path)
    requires p.Dir() != a
    ensures p in Processed(f, a, b, es) <==> p in f
    ensures p in f ==> Processed(f, a, b, es)[p] == f[p]
  {
    var marked := f[Marker(a, b) := []];
    var truncated := TruncateSome(marked, a, b, CharList);
    var appended := AppendAll(truncated, a, es);
    TruncateAt(marked, a, b, CharList, p);
    AppendAllAt(truncated, a, es, p);
    CharListNoDup();
    ConsolidateAt(appended, a, b, CharList, p);
  }

  /** Every file of directory `a` other than the pair's 27 shards and its marker
      keeps its lines and receives, at the end, the lines routed to it. */
  lemma ProcessedOtherShard(f: Files, a: char, b: char, es: seq<Entry>, p: Path)
    requires p.ShardFile? && p.dir == a && p !in PairShards(a, b, CharList)
    ensures p in Processed(f, a, b, es) <==>
              p in f || Routed(es, p.name) != []
    ensures Lines(Processed(f, a, b, es), p) ==
              Lines(f, p) + Routed(es, p.name)
  {
    var marked := f[Marker(a, b) := []];
    var truncated := TruncateSome(marked, a, b, CharList);
    var appended := AppendAll(truncated, a, es);
    TruncateAt(marked, a, b, CharList, p);
    AppendAllAt(truncated, a, es, p);
    CharListNoDup();
    ConsolidateAt(appended, a, b, CharList, p);
  }

  /** The pair's marker is gone afterwards, no other marker appears or disappears,
      and no file is deleted. */
  lemma ProcessedKeys(f: Files, a: char, b: char, es: seq<Entry>, p: Path)
    requires Marker(a, b) !in f
    ensures p in f ==> p in Processed(f, a, b, es)
    ensures p.Marker? ==> (p in Processed(f, a, b, es) <==> p in f)
  {
    var marked := f[Marker(a, b) := []];
    var truncated := TruncateSome(marked, a, b, CharList);
    var appended := AppendAll(truncated, a, es);
    TruncateAt(marked, a, b, CharList, p);
    AppendAllAt(truncated, a, es, p);
    CharListNoDup();
    ConsolidateAt(appended, a, b, CharList, p);
  }

  // ---------------------------------------------------------------------------
  // process_dict interrupted: what cleanup undoes

  /** Files in which `cleanup` undoes the pair `(a, b)`: its marker is present, and
      the purge removes the marker and all 27 of the pair's shards. */
  ghost predicate Recoverable(g: Files, dirs: set<char>, a: char, b: char) {
    Marker(a, b) in g
    && Marker(a, b) !in Purged(g, dirs, AllPairs())
    && forall c :: c in CharList ==> PairShard(a, b, c) !in Purged(g, dirs, AllPairs())
  }

  lemma RecoverableWhenMarked(g: Files, dirs: set<char>, a: char, b: char)
    requires a in dirs && a in CharList && b in CharList && Marker(a, b) in g
    ensures Recoverable(g, dirs, a, b)
  {
    forall c | c in CharList ensures PairShard(a, b, c) !in Purged(g, dirs, AllPairs()) {
      PurgeRemovesMarked(g, dirs, a, b, c);
    }
    PurgeRemovesMarked(g, dirs, a, b, '_');
  }

  /** The marker is written before anything else and deleted last: in every state
      `process_dict(a, b)` passes through (after `i` truncations, after the first `j`
      lines are appended, after `k` consolidations) the marker is present, so
      `cleanup` removes the marker and the pair's 27 shards. */
  lemma ProcessDictInterruptible(f: Files, dirs: set<char>, a: char, b: char, es: seq<Entry>,
                                 i: nat, j: nat, k: nat)
    requires a in dirs && a in CharList && b in CharList
    requires i <= |CharList| && j <= |es| && k <= |CharList|
    ensures var marked := f[Marker(a, b) := []];
            var truncated := TruncateSome(marked, a, b, CharList);
            var appended := AppendAll(truncated, a, es);
            Recoverable(TruncateSome(marked, a, b, CharList[..i]), dirs, a, b)
            && Recoverable(AppendAll(truncated, a, es[..j]), dirs, a, b)
            && Recoverable(ConsolidateSome(appended, a, b, CharList[..k]), dirs, a, b)
  {
    var m := Marker(a, b);
    var marked := f[m := []];
    var truncated := TruncateSome(marked, a, b, CharList);
    var appended := AppendAll(truncated, a, es);
    TruncateAt(marked, a, b, CharList[..i], m);
    RecoverableWhenMarked(TruncateSome(marked, a, b, CharList[..i]), dirs, a, b);
    TruncateAt(marked, a, b, CharList, m);
    AppendAllAt(truncated, a, es[..j], m);
    RecoverableWhenMarked(AppendAll(truncated, a, es[..j]), dirs, a, b);
    AppendAllAt(truncated, a, es, m);
    CharListFacts();
    assert NoDup(CharList[..k]);
    ConsolidateAt(appended, a, b, CharList[..k], m);
    RecoverableWhenMarked(ConsolidateSome(appended, a, b, CharList[..k]), dirs, a, b);
  }

  /** What `cleanup` does not undo: lines appended to a shard of directory `a` whose
      name does not start with `a` (`___.txt`, which receives the key `""`). After an
      interruption during the appends, `cleanup` keeps them, and the rerun of the
      pair appends them a second time. */
  lemma InterruptedStrayLinesKept(f: Files, dirs: set<char>, a: char, b: char, es: seq<Entry>,
                                  j: nat, p: Path)
    requires j <= |es|
    requires p.ShardFile? && p.dir == a && |p.name| == 3 && p.name[0] != a
    ensures var interrupted := AppendAll(TruncateSome(f[Marker(a, b) := []], a, b, CharList), a, es[..j]);
            var cleaned := Purged(interrupted, dirs, AllPairs());
            Lines(cleaned, p) == Lines(f, p) + Routed(es[..j], p.name)
            && Lines(Processed(cleaned, a, b, es), p) == Lines(f, p) + Routed(es[..j], p.name) + Routed(es, p.name)
  {
    var marked := f[Marker(a, b) := []];
    var truncated := TruncateSome(marked, a, b, CharList);
    var interrupted := AppendAll(truncated, a, es[..j]);
    var cleaned := Purged(interrupted, dirs, AllPairs());
    assert p !in PairShards(a, b, CharList);
    TruncateAt(marked, a, b, CharList, p);
    AppendAllAt(truncated, a, es[..j], p);
    assert !Doomed(interrupted, dirs, AllPairs(), p);
    assert Lines(cleaned, p) == Lines(interrupted, p);
    ProcessedOtherShard(cleaned, a, b, es, p);
  }

  // ---------------------------------------------------------------------------
  // start_process: the sweep over the source pairs

  /** Every file lies in an existing letter directory. */
  ghost predicate Placed(dirs: set<char>, files: Files) {
    forall p :: p in files ==> p.Dir() in dirs
  }

  /** The state of the sweep: the directories, the files and the number of source
      files handed to `process_dict` so far. */
  datatype Progress = Progress(dirs: set<char>, files: Files, found: nat)

  /** The lines the fold writes for each source file that exists. */
  function EmittedAll(sources: map<(char, char), seq<Aggregate.Record>>, cfg: Aggregate.Config)
    : map<(char, char), seq<Entry>>
  {
    map k | k in sources :: Aggregate.Emitted(cfg, sources[k])
  }

  /** One pair of the sweep: a source file whose first shard `<a><b>_.txt` does not
      exist yet is handed to `process_dict`, and counted even when a marker makes
      `process_dict` return at once. */
  function StartPair(s: Progress, a: char, b: char, lines: map<(char, char), seq<Entry>>): Progress {
    if (a, b) in lines && PairShard(a, b, '_') !in s.files then
      Progress(s.dirs + {a},
               if Marker(a, b) in s.files then s.files else Processed(s.files, a, b, lines[(a, b)]),
               s.found + 1)
    else s
  }

  function StartRow(s: Progress, a: char, bs: string, lines: map<(char, char), seq<Entry>>): Progress {
    if bs == [] then s
    else StartPair(StartRow(s, a, bs[..|bs| - 1], lines), a, bs[|bs| - 1], lines)
  }

  function StartRows(s: Progress, letters: string, lines: map<(char, char), seq<Entry>>): Progress {
    if letters == [] then s
    else StartRow(StartRows(s, letters[..|letters| - 1], lines), letters[|letters| - 1], CharList, lines)
  }

  /** A source pair that has been reached: its letter directory exists and either
      its first shard or its marker does. */
  ghost predicate Reached(s: Progress, a: char, b: char) {
    a in s.dirs && (PairShard(a, b, '_') in s.files || Marker(a, b) in s.files)
  }

  /** One pair of the sweep deletes no file, removes no directory, keeps every file
      in an existing directory, leaves the other directories alone and reaches the
      pair if it has a source file. */
  lemma StartPairFacts(s: Progress, a: char, b: char, lines: map<(char, char), seq<Entry>>)
    requires Placed(s.dirs, s.files)
    ensures var t := StartPair(s, a, b, lines);
            Placed(t.dirs, t.files) && s.dirs <= t.dirs && s.files.Keys <= t.files.Keys
            && t.found <= s.found + 1
            && ((a, b) in lines ==> Reached(t, a, b))
            && (forall p: Path :: p.Dir() != a ==> (p in t.files <==> p in s.files))
            && (forall p: Path :: p.Dir() != a && p in s.files ==> t.files[p] == s.files[p])
  {
    var t := StartPair(s, a, b, lines);
    if (a, b) in lines && PairShard(a, b, '_') !in s.files && Marker(a, b) !in s.files {
      var es := lines[(a, b)];
      forall p ensures p in s.files ==> p in t.files {
        ProcessedKeys(s.files, a, b, es, p);
      }
      forall p | p in t.files ensures p.Dir() in t.dirs {
        if p.Dir() != a {
          ProcessedOtherDir(s.files, a, b, es, p);
        }
      }
      forall p: Path | p.Dir() != a
        ensures (p in t.files <==> p in s.files) && (p in s.files ==> t.files[p] == s.files[p])
      {
        ProcessedOtherDir(s.files, a, b, es, p);
      }
      ProcessedPairShard(s.files, a, b, es, '_');
    } else if (a, b) in lines && PairShard(a, b, '_') in s.files {
      assert PairShard(a, b, '_').Dir() == a;
    }
  }

  /** The first shard of a pair in a letter directory. */
  lemma {:induction false} StartRowFacts(s: Progress, a: char, bs: string, lines: map<(char, char), seq<Entry>>)
    requires Placed(s.dirs, s.files)
    ensures var t := StartRow(s, a, bs, lines);
            Placed(t.dirs, t.files) && s.dirs <= t.dirs && s.files.Keys <= t.files.Keys
            && t.found <= s.found + |bs|
            && (forall b :: b in bs && (a, b) in lines ==> Reached(t, a, b))
            && (forall p: Path :: p.Dir() != a ==> (p in t.files <==> p in s.files))
            && (forall p: Path :: p.Dir() != a && p in s.files ==> t.files[p] == s.files[p])
    decreases |bs|
  {
    if bs != [] {
      var init := bs[..|bs| - 1];
      var u := StartRow(s, a, init, lines);
      StartRowFacts(s, a, init, lines);
      StartPairFacts(u, a, bs[|bs| - 1], lines);
      var t := StartPair(u, a, bs[|bs| - 1], lines);
      forall b | b in bs && (a, b) in lines ensures Reached(t, a, b) {
        if b != bs[|bs| - 1] {
          assert b in init by {
            assert bs == init + [bs[|bs| - 1]];
          }
          ReachedGrows(u, t, a, b);
        }
      }
    }
  }

  /** The whole sweep over the letters `letters`: no file is deleted, every source
      pair of those letters is reached, files of other directories (the `_`
      directory among them) are untouched, and at most 27 source files are counted
      per letter. */
  lemma {:induction false} StartRowsFacts(s: Progress, letters: string, lines: map<(char, char), seq<Entry>>)
    requires Placed(s.dirs, s.files)
    ensures var t := StartRows(s, letters, lines);
            Placed(t.dirs, t.files) && s.dirs <= t.dirs && s.files.Keys <= t.files.Keys
            && t.found <= s.found + |CharList| * |letters|
            && (forall a, b :: a in letters && b in CharList && (a, b) in lines ==> Reached(t, a, b))
            && (forall p: Path :: p.Dir() !in letters ==> (p in t.files <==> p in s.files))
            && (forall p: Path :: p.Dir() !in letters && p in s.files ==> t.files[p] == s.files[p])
    decreases |letters|
  {
    if letters != [] {
      var init := letters[..|letters| - 1];
      var a := letters[|letters| - 1];
      assert letters == init + [a];
      var u := StartRows(s, init, lines);
      StartRowsFacts(s, init, lines);
      StartRowFacts(u, a, CharList, lines);
      var t := StartRow(u, a, CharList, lines);
      forall a', b | a' in letters && b in CharList && (a', b) in lines ensures Reached(t, a', b) {
        if a' != a {
          ReachedGrows(u, t, a', b);
        }
      }
    }
  }

  /** A pair already reached is not worked on again: at most a marker makes
      `process_dict` return at once. */
  lemma {:induction false} StartRowReached(s: Progress, a: char, bs: string, lines: map<(char, char), seq<Entry>>)
    requires forall b :: b in bs && (a, b) in lines ==> Reached(s, a, b)
    ensures StartRow(s, a, bs, lines).dirs == s.dirs && StartRow(s, a, bs, lines).files == s.files
    decreases |bs|
  {
    if bs != [] {
      var init := bs[..|bs| - 1];
      assert forall b :: b in init ==> b in bs;
      StartRowReached(s, a, init, lines);
    }
  }

  lemma {:induction false} StartRowsReached(s: Progress, letters: string, lines: map<(char, char), seq<Entry>>)
    requires forall a, b :: a in letters && b in CharList && (a, b) in lines ==> Reached(s, a, b)
    ensures StartRows(s, letters, lines).dirs == s.dirs && StartRows(s, letters, lines).files == s.files
    decreases |letters|
  {
    if letters != [] {
      var init := letters[..|letters| - 1];
      var a := letters[|letters| - 1];
      assert forall x :: x in init ==> x in letters;
      StartRowsReached(s, init, lines);
      var u := StartRows(s, init, lines);
      StartRowReached(u, a, CharList, lines);
    }
  }

  /** Running the sweep a second time changes no file and no directory; only the
      count of pairs handed to `process_dict` can be non-zero (pairs stopped by a
      marker). */
  lemma StartIdempotent(s: Progress, lines: map<(char, char), seq<Entry>>)
    requires Placed(s.dirs, s.files)
    ensures var t := StartRows(s, CharList[1..], lines);
            StartRows(t, CharList[1..], lines).dirs == t.dirs
            && StartRows(t, CharList[1..], lines).files == t.files
  {
    StartRowsFacts(s, CharList[1..], lines);
    StartRowsReached(StartRows(s, CharList[1..], lines), CharList[1..], lines);
  }

  /** The sweep starts at the second letter of the list: nothing in the `_`
      directory is created, deleted or changed. */
  lemma StartSkipsUnderscore(s: Progress, lines: map<(char, char), seq<Entry>>, p: Path)
    requires Placed(s.dirs, s.files) && p.Dir() == '_'
    ensures var t := StartRows(s, CharList[1..], lines);
            (p in t.files <==> p in s.files) && (p in s.files ==> t.files[p] == s.files[p])
  {
    CharListFacts();
    assert '_' !in CharList[1..];
    StartRowsFacts(s, CharList[1..], lines);
  }

  lemma ReachedGrows(u: Progress, t: Progress, a: char, b: char)
    requires Reached(u, a, b) && u.dirs <= t.dirs && u.files.Keys <= t.files.Keys
    ensures Reached(t, a, b)
  {
  }

  // ---------------------------------------------------------------------------
  // The output directory

  class Builder {
    /** The letter directories that exist under the output path. */
    var dirs: set<char>
    /** The files under the output path. */
    var files: Files

    /** Every file lies in an existing letter directory. */
    predicate Valid()
      reads this
    {
      forall p :: p in files ==> p.Dir() in dirs
    }

    constructor (dirs0: set<char>, files0: Files)
      requires forall p :: p in files0 ==> p.Dir() in dirs0
      ensures Valid() && dirs == dirs0 && files == files0
    {
      dirs := dirs0;
      files := files0;
    }

    /** `cleanup`: in every existing letter directory, a pair whose marker exists
        loses its 27 shards and then its marker. */
    method Cleanup()
      requires Valid()
      modifies this
      ensures Valid() && dirs == old(dirs)
      ensures files == Purged(old(files), dirs, AllPairs())
    {
      ghost var f0 := files;
      for i := 0 to |CharList|
        invariant Valid() && dirs == old(dirs)
        invariant files == Purged(f0, dirs, Rows(CharList[..i]))
      {
        var a := CharList[i];
        ghost var done := Rows(CharList[..i]);
        if a in dirs {
          CleanupLetter(a, f0, done);
        } else {
          PurgeSkipsMissingDir(f0, dirs, done, a);
        }
        PrefixSnoc(CharList, i);
        RowsSnoc(CharList[..i], a);
      }
      WholePrefix(CharList);
    }

    /** The inner loop of `cleanup` for an existing letter directory `a`. */
    method CleanupLetter(a: char, ghost f0: Files, ghost done: set<(char, char)>)
      requires Valid() && a in dirs && files == Purged(f0, dirs, done)
      modifies this
      ensures Valid() && dirs == old(dirs)
      ensures files == Purged(f0, dirs, done + Row(a, CharList))
    {
      for j := 0 to |CharList|
        invariant Valid() && dirs == old(dirs)
        invariant files == Purged(f0, dirs, done + Row(a, CharList[..j]))
      {
        var b := CharList[j];
        ghost var before := done + Row(a, CharList[..j]);
        assert before + {(a, b)} == done + Row(a, CharList[..j + 1]) by {
          PrefixSnoc(CharList, j);
          RowSnoc(a, CharList[..j], b);
        }
        if Marker(a, b) in files {
          PurgeStepMarked(f0, dirs, before, a, b);
          RemovePair(a, b);
        } else {
          PurgeStepUnmarked(f0, dirs, before, a, b);
        }
      }
      WholePrefix(CharList);
    }

    /** The body of `cleanup` for one pair: delete each existing shard
        `<a><b><c>.txt`, then the marker. */
    method RemovePair(a: char, b: char)
      requires Valid()
      modifies this
      ensures Valid() && dirs == old(dirs)
      ensures files == WithoutShards(old(files), a, b, CharList) - {Marker(a, b)}
    {
      for k := 0 to |CharList|
        invariant Valid() && dirs == old(dirs)
        invariant files == WithoutShards(old(files), a, b, CharList[..k])
      {
        var p := PairShard(a, b, CharList[k]);
        WithoutShardsSnoc(old(files), a, b, CharList[..k], CharList[k]);
        PrefixSnoc(CharList, k);
        if p in files {
          files := files - {p};
        }
      }
      WholePrefix(CharList);
      files := files - {Marker(a, b)};
    }

    /** `process_dict` for the pair `ab` whose source records are `records`. The
        letter directory is created first; a present marker means the pair is
        being worked on and nothing else happens. */
    method ProcessDict(a: char, b: char, records: seq<Aggregate.Record>, cfg: Aggregate.Config)
      requires Valid()
      modifies this
      ensures Valid() && dirs == old(dirs) + {a}
      ensures Marker(a, b) in old(files) ==> files == old(files)
      ensures Marker(a, b) !in old(files) ==>
                files == Processed(old(files), a, b, Aggregate.Emitted(cfg, records))
    {
      if a !in dirs {
        dirs := dirs + {a};
      }
      if Marker(a, b) in files {
        return;
      }
      ghost var es := Aggregate.Emitted(cfg, records);
      files := files[Marker(a, b) := []];
      ghost var marked := files;
      TruncatePair(a, b);
      ghost var truncated := files;
      AppendRecords(a, records, cfg);
      forall c | c in CharList ensures PairShard(a, b, c) in files {
        TruncateAt(marked, a, b, CharList, PairShard(a, b, c));
        PairShardMember(a, b, c, CharList);
        AppendAllAt(truncated, a, es, PairShard(a, b, c));
      }
      ConsolidatePair(a, b);
      files := files - {Marker(a, b)};
    }

    /** `start_process`: for every letter but the underscore and every second
        character, a source file whose first shard does not exist yet is handed to
        `process_dict`. `sources` holds the records of the source files that exist. */
    method StartProcess(sources: map<(char, char), seq<Aggregate.Record>>, cfg: Aggregate.Config)
      returns (found: nat)
      requires Valid()
      modifies this
      ensures Valid()
      ensures Progress(dirs, files, found) ==
                StartRows(Progress(old(dirs), old(files), 0), CharList[1..], EmittedAll(sources, cfg))
    {
      ghost var start := Progress(dirs, files, 0);
      found := 0;
      for i := 1 to |CharList|
        invariant Valid()
        invariant Progress(dirs, files, found) == StartRows(start, CharList[1..i], EmittedAll(sources, cfg))
      {
        found := StartLetter(CharList[i], sources, cfg, found);
        assert CharList[1..i + 1][..i - 1] == CharList[1..i];
      }
      assert CharList[1..|CharList|] == CharList[1..];
    }

    /** The inner loop of `start_process` for the letter `a`. */
    method StartLetter(a: char, sources: map<(char, char), seq<Aggregate.Record>>, cfg: Aggregate.Config,
                       found0: nat) returns (found: nat)
      requires Valid()
      modifies this
      ensures Valid()
      ensures Progress(dirs, files, found) ==
                StartRow(Progress(old(dirs), old(files), found0), a, CharList, EmittedAll(sources, cfg))
    {
      ghost var before := Progress(dirs, files, found0);
      found := found0;
      for j := 0 to |CharList|
        invariant Valid()
        invariant Progress(dirs, files, found) == StartRow(before, a, CharList[..j], EmittedAll(sources, cfg))
      {
        found := StartOne(a, CharList[j], sources, cfg, found);
        PrefixSnoc(CharList, j);
      }
      WholePrefix(CharList);
    }

    /** The body of the inner loop of `start_process` for the pair `ab`. */
    method StartOne(a: char, b: char, sources: map<(char, char), seq<Aggregate.Record>>, cfg: Aggregate.Config,
                    found0: nat) returns (found: nat)
      requires Valid()
      modifies this
      ensures Valid()
      ensures Progress(dirs, files, found) ==
                StartPair(Progress(old(dirs), old(files), found0), a, b, EmittedAll(sources, cfg))
    {
      found := found0;
      if (a, b) in sources {
        if PairShard(a, b, '_') !in files {
          ProcessDict(a, b, sources[(a, b)], cfg);
          found := found + 1;
        }
      }
    }

    /** Create the 27 empty shards `<a><b><c>.txt`, the marker staying in place. */
    method TruncatePair(a: char, b: char)
      requires Valid() && a in dirs && Marker(a, b) in files
      modifies this
      ensures Valid() && dirs == old(dirs) && Marker(a, b) in files
      ensures files == TruncateSome(old(files), a, b, CharList)
    {
      for k := 0 to |CharList|
        invariant Valid() && dirs == old(dirs) && Marker(a, b) in files
        invariant files == TruncateSome(old(files), a, b, CharList[..k])
      {
        PrefixSnoc(CharList, k);
        files := files[PairShard(a, b, CharList[k]) := []];
      }
      WholePrefix(CharList);
    }

    /** The aggregation loop: fold the records and append each flushed line to the
        shard named after its key, in directory `a`. */
    method AppendRecords(a: char, records: seq<Aggregate.Record>, cfg: Aggregate.Config)
      requires Valid() && a in dirs
      modifies this
      ensures Valid() && dirs == old(dirs)
      ensures files == AppendAll(old(files), a, Aggregate.Emitted(cfg, records))
    {
      ghost var keyed := Aggregate.KeysOf(records);
      ghost var target := Aggregate.Run(cfg, "", 0, 0, keyed);
      ghost var sent: seq<Entry> := [];
      var lastPair := "";
      var runningTotal := 0;
      var pubCount := 0;
      for i := 0 to |records|
        invariant Valid() && dirs == old(dirs)
        invariant sent + Aggregate.Run(cfg, lastPair, runningTotal, pubCount, keyed[i..]) == target
        invariant files == AppendAll(old(files), a, sent)
      {
        var r := records[i];
        var thisPair := KeyAt(records, keyed, i);
        assert keyed[i..][0] == keyed[i] && keyed[i..][1..] == keyed[i + 1..];
        Aggregate.FoldStep(cfg, sent, lastPair, runningTotal, pubCount, keyed[i..], target);
        pubCount := pubCount + r.pubs;
        if thisPair == lastPair {
          if r.year >= cfg.startYear && r.year <= cfg.endYear {
            runningTotal := runningTotal + r.count;
          }
        } else {
          ghost var flushed := Aggregate.Flush(cfg, lastPair, runningTotal, pubCount);
          if runningTotal >= cfg.minFreq && pubCount >= cfg.minPubs {
            var e := Entry(lastPair, runningTotal);
            AppendAllSnoc(old(files), a, sent, e);
            AppendLine(a, e);
            assert flushed == [e];
            sent := sent + [e];
          } else {
            assert sent + flushed == sent;
          }
          lastPair := thisPair;
          runningTotal := 0;
          pubCount := 0;
        }
      }
      assert keyed[|records|..] == [];
      assert Aggregate.Run(cfg, lastPair, runningTotal, pubCount, []) == [];
      assert sent == Aggregate.Emitted(cfg, records) by {
        Aggregate.KeyedAsKeyAll(keyed, records);
      }
    }

    /** `clean_string` on the phrase of record `i`. */
    method KeyAt(records: seq<Aggregate.Record>, ghost keyed: seq<Aggregate.Keyed>, i: int) returns (k: string)
      requires Aggregate.KeyedAs(keyed, records) && 0 <= i < |records|
      ensures keyed[i] == Aggregate.Keyed(k, records[i].year, records[i].count, records[i].pubs)
    {
      k := CleanString.CleanString(records[i].phrase);
      assert keyed[i] == Aggregate.KeyRecord(records[i]);
    }

    /** Append one line to the shard named after its key, in directory `a`. */
    method AppendLine(a: char, e: Entry)
      requires Valid() && a in dirs
      modifies this
      ensures Valid() && dirs == old(dirs)
      ensures files == old(files)[ShardFile(a, ShardName(e.key)) :=
                                    Lines(old(files), ShardFile(a, ShardName(e.key))) + [e]]
    {
      var p := ShardFile(a, ShardName(e.key));
      files := files[p := Lines(files, p) + [e]];
    }

    /** `file_consolidate` on each of the 27 shards `<a><b><c>.txt`. */
    method ConsolidatePair(a: char, b: char)
      requires Valid() && forall c :: c in CharList ==> PairShard(a, b, c) in files
      modifies this
      ensures Valid() && dirs == old(dirs)
      ensures files == ConsolidateSome(old(files), a, b, CharList)
    {
      for k := 0 to |CharList|
        invariant Valid() && dirs == old(dirs) && files.Keys == old(files).Keys
        invariant files == ConsolidateSome(old(files), a, b, CharList[..k])
      {
        ghost var done := CharList[..k];
        var c := CharList[k];
        assert PairShard(a, b, c) in files;
        ConsolidateOne(PairShard(a, b, c));
        ConsolidateSomeSnoc(old(files), a, b, done, c);
        PrefixSnoc(CharList, k);
      }
      WholePrefix(CharList);
    }

    /** `file_consolidate` on one existing file. */
    method ConsolidateOne(p: Path)
      requires Valid() && p in files
      modifies this
      ensures Valid() && dirs == old(dirs)
      ensures files == old(files)[p := Consolidate.Consolidated(old(files)[p])]
    {
      var out, written := Consolidate.FileConsolidate(files[p]);
      files := files[p := out];
    }
  }
}
