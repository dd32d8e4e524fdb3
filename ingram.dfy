/** The proofreading side (ingram.py): looking a two-word phrase up in the built
    dictionary, the custom white list (loading it, removing a word from it, testing a
    word against it) and the familiarity score of the middle word of a trio. */
module Ingram {
  import opened Text
  import opened Shard
  import CleanString
  import Consolidate
  import DictBuild

  // ---------------------------------------------------------------------------
  // find_frequency

  /** The dictionary as the lookup sees it: the letter directories that exist and the
      shard files with their lines. */
  datatype Dictionary = Dictionary(dirs: set<char>, files: DictBuild.Files)

  /** The character the lookup puts at position `i` of a shard name: the key's own
      character, or `_` past the end of the key or in place of a space. */
  function LookupChar(s: string, i: nat): char {
    if |s| <= i || s[i] == ' ' then '_' else s[i]
  }

  /** The shard name the lookup opens for key `s`; the first character is taken as is. */
  function LookupName(s: string): string
    requires s != []
  {
    [s[0], LookupChar(s, 1), LookupChar(s, 2)]
  }

  /** For a key that does not start with a space, the lookup opens the very shard the
      build appends the key to. */
  lemma LookupIsShardName(s: string)
    requires s != [] && s[0] != ' '
    ensures LookupName(s) == ShardName(s)
  {
    var head := if |s| < 3 then s else s[..3];
    var padded := head + seq(3 - |head|, _ => '_');
    assert forall i :: 0 <= i < 3 ==> padded[i] == (if i < |s| then s[i] else '_');
  }

  /** Every non-empty key `clean_string` returns is one of those. */
  lemma CleanKeyShard(phrase: string)
    requires CleanString.Clean(phrase) != []
    ensures LookupName(CleanString.Clean(phrase)) == ShardName(CleanString.Clean(phrase))
  {
    CleanString.CleanShape(phrase);
    LookupIsShardName(CleanString.Clean(phrase));
  }

  /** The count on the first line whose key is `s`, reading the shard from the top. */
  function FirstMatch(lines: seq<Entry>, s: string): Option<int> {
    if lines == [] then None
    else if lines[0].key == s then Some(lines[0].count)
    else FirstMatch(lines[1..], s)
  }

  /** The scan finds nothing exactly when no line has the key, and otherwise reads the
      count of the first line that has it. */
  lemma {:induction false} FirstMatchFinds(lines: seq<Entry>, s: string)
    ensures FirstMatch(lines, s).None? <==> s !in Consolidate.Keys(lines)
    ensures FirstMatch(lines, s).Some? ==>
              exists i :: 0 <= i < |lines| && lines[i] == Entry(s, FirstMatch(lines, s).value) &&
                forall j :: 0 <= j < i ==> lines[j].key != s
  {
    if lines != [] {
      FirstMatchFinds(lines[1..], s);
      assert Consolidate.Keys(lines) == {lines[0].key} + Consolidate.Keys(lines[1..]) by {
        assert lines == [lines[0]] + lines[1..];
      }
      if lines[0].key != s && FirstMatch(lines, s).Some? {
        var i :| 0 <= i < |lines[1..]| && lines[1..][i] == Entry(s, FirstMatch(lines, s).value) &&
          forall j :: 0 <= j < i ==> lines[1..][j].key != s;
        assert lines[i + 1] == Entry(s, FirstMatch(lines, s).value);
      }
    }
  }

  /** The frequency the lookup reports for an already cleaned key: `None` for the
      empty key and for a missing shard file, `0` when the letter directory is missing
      or the shard holds no line with the key. */
  function FrequencyOf(d: Dictionary, s: string): Option<int> {
    if s == "" then None
    else if s[0] !in d.dirs then Some(0)
    else
      var p := DictBuild.ShardFile(s[0], LookupName(s));
      if p !in d.files then None
      else match FirstMatch(d.files[p], s)
        case None => Some(0)
        case Some(c) => Some(c)
  }

  /** The frequency of a phrase: its key, looked up. */
  function Frequency(d: Dictionary, phrase: string): Option<int> {
    FrequencyOf(d, CleanString.Clean(phrase))
  }

  /** The lookup as the source performs it: clean the phrase, build the shard name one
      character at a time, then read the shard until the first line with the key. */
  method FindFrequency(d: Dictionary, phrase: string) returns (frequency: Option<int>)
    ensures frequency == Frequency(d, phrase)
  {
    var s := CleanString.CleanString(phrase);
    frequency := LookupKey(d, s);
  }

  method LookupKey(d: Dictionary, s: string) returns (frequency: Option<int>)
    ensures frequency == FrequencyOf(d, s)
  {
    frequency := Some(0);
    if s == "" {
      return None;
    }
    if s[0] in d.dirs {
      var name := [s[0]];
      if |s| < 2 || s[1] == ' ' { name := name + "_"; } else { name := name + [s[1]]; }
      if |s| < 3 || s[2] == ' ' { name := name + "_"; } else { name := name + [s[2]]; }
      assert name == LookupName(s);
      var p := DictBuild.ShardFile(s[0], name);
      if p in d.files {
        frequency := ScanShard(d.files[p], s);
      } else {
        frequency := None;
      }
    }
  }

  /** Read the shard line by line and stop at the first line whose key is `s`. */
  method ScanShard(lines: seq<Entry>, s: string) returns (frequency: Option<int>)
    ensures frequency == (if FirstMatch(lines, s).None? then Some(0) else FirstMatch(lines, s))
  {
    frequency := Some(0);
    var i := 0;
    while i < |lines|
      invariant 0 <= i <= |lines|
      invariant FirstMatch(lines[i..], s) == FirstMatch(lines, s)
    {
      assert lines[i..][1..] == lines[i + 1..];
      if lines[i].key == s {
        frequency := Some(lines[i].count);
        return;
      }
      i := i + 1;
    }
  }

  /** A phrase `clean_string` rejects is reported as `None`, dictionary or not. */
  lemma RejectedPhraseNone(d: Dictionary, phrase: string)
    requires HasDigit(phrase)
    ensures Frequency(d, phrase) == None
  {
    CleanString.CleanRejectsDigits(phrase);
  }

  /** Looking a key up in a shard that the build consolidated from `lines`: the key's
      line is there, with the sum of its counts, exactly when consolidation kept it
      (the largest key, or a non-empty key with a positive sum); otherwise the lookup
      reports 0. Keys not in `lines` at all are reported as 0 too. */
  lemma LookupConsolidated(d: Dictionary, s: string, lines: seq<Entry>)
    requires s != "" && s[0] != ' ' && s[0] in d.dirs
    requires DictBuild.ShardFile(s[0], ShardName(s)) in d.files
    requires d.files[DictBuild.ShardFile(s[0], ShardName(s))] == Consolidate.Consolidated(lines)
    requires Consolidate.ValidLines(lines)
    ensures s !in Consolidate.Keys(lines) ==> FrequencyOf(d, s) == Some(0)
    ensures s in Consolidate.Keys(lines) ==>
              FrequencyOf(d, s) ==
                if Consolidate.IsLargestKey(lines, s) || Consolidate.SumFor(lines, s) > 0
                then Some(Consolidate.SumFor(lines, s)) else Some(0)
  {
    LookupIsShardName(s);
    var shard := Consolidate.Consolidated(lines);
    FirstMatchFinds(shard, s);
    Consolidate.ConsolidatedSums(lines);
    if FirstMatch(shard, s).Some? {
      var i :| 0 <= i < |shard| && shard[i] == Entry(s, FirstMatch(shard, s).value) &&
        forall j :: 0 <= j < i ==> shard[j].key != s;
      assert shard[i] in shard;
    }
    assert s in Consolidate.Keys(shard) ==> s in Consolidate.Keys(lines) by {
      if s in Consolidate.Keys(shard) {
        var e :| e in shard && e.key == s;
        if lines == [] {
          Consolidate.ConsolidatedEmpty();
        }
      }
    }
    if s in Consolidate.Keys(lines) {
      Consolidate.ConsolidatedKeeps(lines, s);
    }
  }

  /** The whole path from a built shard to the reported frequency: a phrase whose key
      was consolidated into the shard with a positive total reads back that total. */
  lemma PhraseReadsTotal(d: Dictionary, phrase: string, lines: seq<Entry>)
    requires CleanString.Clean(phrase) != ""
    requires CleanString.Clean(phrase)[0] in d.dirs
    requires DictBuild.ShardFile(CleanString.Clean(phrase)[0], ShardName(CleanString.Clean(phrase))) in d.files
    requires d.files[DictBuild.ShardFile(CleanString.Clean(phrase)[0], ShardName(CleanString.Clean(phrase)))] ==
               Consolidate.Consolidated(lines)
    requires Consolidate.ValidLines(lines)
    requires CleanString.Clean(phrase) in Consolidate.Keys(lines)
    requires Consolidate.SumFor(lines, CleanString.Clean(phrase)) > 0
    ensures Frequency(d, phrase) == Some(Consolidate.SumFor(lines, CleanString.Clean(phrase)))
  {
    var s := CleanString.Clean(phrase);
    CleanString.CleanShape(phrase);
    LookupConsolidated(d, s, lines);
  }

  // ---------------------------------------------------------------------------
  // strip_word and whitelisted

  /** The a-z characters of `t`, in order. */
  function Letters(t: string): (r: string)
    ensures |r| <= |t|
  {
    if t == [] then [] else Letters(t[..|t| - 1]) + (if IsLowerAlpha(t[|t| - 1]) then [t[|t| - 1]] else [])
  }

  /** `strip_word`: lower-case the word, then keep only a-z. */
  function Stripped(word: string): string {
    Letters(Lower(word))
  }

  method StripWord(word: string) returns (stripped: string)
    ensures stripped == Stripped(word)
  {
    stripped := "";
    var lowered := Lower(word);
    for i := 0 to |lowered|
      invariant stripped == Letters(lowered[..i])
    {
      var c := lowered[i];
      if 97 <= c as int <= 122 {
        stripped := stripped + [c];
      }
      assert lowered[..i + 1][..i] == lowered[..i];
    }
    assert lowered[..|lowered|] == lowered;
  }

  lemma {:induction false} LettersOnly(t: string)
    ensures forall i :: 0 <= i < |Letters(t)| ==> IsLowerAlpha(Letters(t)[i])
  {
    if t != [] {
      LettersOnly(t[..|t| - 1]);
    }
  }

  /** A string of a-z is its own letter filter. */
  lemma {:induction false} LettersOfLetters(t: string)
    requires forall i :: 0 <= i < |t| ==> IsLowerAlpha(t[i])
    ensures Letters(t) == t
  {
    if t != [] {
      LettersOfLetters(t[..|t| - 1]);
      assert t[..|t| - 1] + [t[|t| - 1]] == t;
    }
  }

  /** A stripped word is a-z only, so lower-casing it or stripping it again changes
      nothing. */
  lemma StrippedIsFinal(word: string)
    ensures forall i :: 0 <= i < |Stripped(word)| ==> IsLowerAlpha(Stripped(word)[i])
    ensures Stripped(Stripped(word)) == Stripped(word)
    ensures Lower(Stripped(word)) == Stripped(word)
  {
    var w := Stripped(word);
    LettersOnly(Lower(word));
    assert Lower(w) == w;
    LettersOfLetters(w);
  }

  /** Stripping ignores case: upper- and lower-case spellings strip alike. */
  lemma StrippedIgnoresCase(word: string)
    ensures Stripped(Lower(word)) == Stripped(word)
  {
    assert Lower(Lower(word)) == Lower(word);
  }

  /** `whitelisted`: a word with a digit passes, and so does a word whose stripped
      form is in the custom list. */
  predicate Whitelisted(custom: seq<string>, word: string) {
    HasDigit(word) || Stripped(word) in custom
  }

  method IsWhitelisted(custom: seq<string>, word: string) returns (ok: bool)
    ensures ok == Whitelisted(custom, word)
  {
    for i := 0 to |word|
      invariant forall j :: 0 <= j < i ==> !IsDigit(word[j])
    {
      var code := word[i] as int;
      if code >= 48 && code <= 57 {
        return true;
      }
    }
    var stripped := StripWord(word);
    ok := stripped in custom;
  }

  // ---------------------------------------------------------------------------
  // load_custom_dict

  predicate NonEmptyLines(lines: seq<string>) {
    forall i :: 0 <= i < |lines| ==> lines[i] != []
  }

  /** The word a white-list line contributes: none for a comment line (one starting
      with `#`), otherwise its stripped form when that is not empty. */
  function LineWord(line: string): seq<string>
    requires line != []
  {
    if line[0] == '#' then []
    else
      var w := Lower(Stripped(line));
      if |w| > 0 then [w] else []
  }

  /** The custom list loaded from the white-list file, in file order. */
  function CustomWords(lines: seq<string>): seq<string>
    requires NonEmptyLines(lines)
  {
    if lines == [] then [] else CustomWords(lines[..|lines| - 1]) + LineWord(lines[|lines| - 1])
  }

  /** Every line of a file read by iteration ends with its newline, so no line is
      empty; the source reads `data_in[0]` and relies on that. */
  method LoadCustomDict(lines: seq<string>) returns (custom: seq<string>)
    requires NonEmptyLines(lines)
    ensures custom == CustomWords(lines)
  {
    custom := [];
    for i := 0 to |lines|
      invariant custom == CustomWords(lines[..i])
    {
      var dataIn := lines[i];
      if dataIn[0] != '#' {
        dataIn := StripWord(dataIn);
        dataIn := Lower(dataIn);
        if |dataIn| > 0 {
          custom := custom + [dataIn];
        }
      }
      assert lines[..i + 1][..i] == lines[..i];
    }
    assert lines[..|lines|] == lines;
  }

  /** `line` is a non-comment white-list line that strips to `w`. */
  predicate Contributes(line: string, w: string) {
    line != [] && line[0] != '#' && Stripped(line) == w
  }

  lemma LineWordMembers(line: string, w: string)
    requires line != []
    ensures w in LineWord(line) <==> w != "" && Contributes(line, w)
  {
    StrippedIsFinal(line);
  }

  /** A word is on the custom list exactly when some non-comment line strips to it. */
  lemma {:induction false} CustomWordsMembers(lines: seq<string>, w: string)
    requires NonEmptyLines(lines)
    ensures w in CustomWords(lines) <==>
              w != "" && exists i :: 0 <= i < |lines| && Contributes(lines[i], w)
  {
    if lines != [] {
      var n := |lines| - 1;
      var init := lines[..n];
      assert CustomWords(lines) == CustomWords(init) + LineWord(lines[n]);
      CustomWordsMembers(init, w);
      LineWordMembers(lines[n], w);
      ContributorsSplit(lines, init, w);
    }
  }

  lemma ContributorsSplit(lines: seq<string>, init: seq<string>, w: string)
    requires lines != [] && init == lines[..|lines| - 1]
    ensures (exists i :: 0 <= i < |lines| && Contributes(lines[i], w)) <==>
            (exists i :: 0 <= i < |init| && Contributes(init[i], w)) ||
            Contributes(lines[|lines| - 1], w)
  {
    var n := |lines| - 1;
    if exists i :: 0 <= i < |lines| && Contributes(lines[i], w) {
      var i :| 0 <= i < |lines| && Contributes(lines[i], w);
      if i < n {
        assert init[i] == lines[i];
      }
    }
    if exists i :: 0 <= i < n && Contributes(init[i], w) {
      var i :| 0 <= i < n && Contributes(init[i], w);
      assert lines[i] == init[i];
    }
  }

  /** A word whose stripped form is the stripped form of a white-list line passes. */
  lemma CustomLineWhitelists(lines: seq<string>, i: int, word: string)
    requires NonEmptyLines(lines) && 0 <= i < |lines| && lines[i][0] != '#'
    requires Stripped(word) == Stripped(lines[i]) != ""
    ensures Whitelisted(CustomWords(lines), word)
  {
    assert Contributes(lines[i], Stripped(word));
    CustomWordsMembers(lines, Stripped(word));
  }

  // ---------------------------------------------------------------------------
  // remove_custom

  predicate IsBlank(c: char) { c == '\n' || c == '\r' || c == '\t' || c == ' ' }

  /** Python's `strip("\n\r\t ")`: `s` without the blanks at either end. */
  function StripBlanks(s: string): (r: string)
    ensures r == [] || (!IsBlank(r[0]) && !IsBlank(r[|r| - 1]))
    decreases |s|
  {
    if s != [] && IsBlank(s[0]) then StripBlanks(s[1..])
    else if s != [] && IsBlank(s[|s| - 1]) then StripBlanks(s[..|s| - 1])
    else s
  }

  /** `s` with a blank prefix of length `k` and a blank suffix taken off is `r`. */
  ghost predicate BlankFramed(s: string, k: int, r: string) {
    0 <= k <= |s| - |r| && r == s[k..][..|r|]
    && (forall i :: 0 <= i < k ==> IsBlank(s[i]))
    && (forall i :: k + |r| <= i < |s| ==> IsBlank(s[i]))
  }

  /** What `strip` returns is a piece of `s`, and everything before and after that
      piece is blank. */
  lemma {:induction false} StripBlanksInfix(s: string)
    ensures exists k :: BlankFramed(s, k, StripBlanks(s))
    decreases |s|
  {
    var r := StripBlanks(s);
    if s != [] && IsBlank(s[0]) {
      StripBlanksInfix(s[1..]);
      var k1 :| BlankFramed(s[1..], k1, r);
      assert s[k1 + 1..] == s[1..][k1..];
      assert forall i :: 1 <= i < |s| ==> s[i] == s[1..][i - 1];
      assert BlankFramed(s, k1 + 1, r);
    } else if s != [] && IsBlank(s[|s| - 1]) {
      StripBlanksInfix(s[..|s| - 1]);
      var k :| BlankFramed(s[..|s| - 1], k, r);
      assert s[k..][..|r|] == s[..|s| - 1][k..][..|r|];
      assert forall i :: 0 <= i < |s| - 1 ==> s[i] == s[..|s| - 1][i];
      assert BlankFramed(s, k, r);
    } else {
      assert BlankFramed(s, 0, r);
    }
  }

  /** How a white-list line and the word to remove are compared. */
  function Normal(s: string): string {
    StripBlanks(Lower(s))
  }

  /** The lines copied to the new white list: those that do not match. */
  function KeptLines(lines: seq<string>, target: string): seq<string> {
    if lines == [] then []
    else KeptLines(lines[..|lines| - 1], target) +
         (if Normal(lines[|lines| - 1]) != target then [lines[|lines| - 1]] else [])
  }

  /** The number of lines that match and are dropped. */
  function MatchCount(lines: seq<string>, target: string): nat {
    if lines == [] then 0
    else MatchCount(lines[..|lines| - 1], target) + (if Normal(lines[|lines| - 1]) == target then 1 else 0)
  }

  method RemoveCustom(lines: seq<string>, remove: string) returns (kept: seq<string>, found: nat)
    ensures kept == KeptLines(lines, Normal(remove))
    ensures found == MatchCount(lines, Normal(remove))
  {
    kept := [];
    found := 0;
    var cleanRemoveText := StripBlanks(Lower(remove));
    for i := 0 to |lines|
      invariant kept == KeptLines(lines[..i], cleanRemoveText)
      invariant found == MatchCount(lines[..i], cleanRemoveText)
    {
      if cleanRemoveText != StripBlanks(Lower(lines[i])) {
        kept := kept + [lines[i]];
      } else {
        found := found + 1;
      }
      assert lines[..i + 1][..i] == lines[..i];
    }
    assert lines[..|lines|] == lines;
  }

  /** Every line is either copied or counted, never both; the copied lines are the
      non-matching ones in their order, and none of them matches. */
  lemma {:induction false} RemoveAccounts(lines: seq<string>, target: string)
    ensures |KeptLines(lines, target)| + MatchCount(lines, target) == |lines|
    ensures forall l :: l in KeptLines(lines, target) ==> l in lines && Normal(l) != target
    ensures forall l :: l in lines && Normal(l) != target ==> l in KeptLines(lines, target)
  {
    if lines != [] {
      var n := |lines| - 1;
      RemoveAccounts(lines[..n], target);
      assert lines == lines[..n] + [lines[n]];
    }
  }

  /** Removing a word a second time finds nothing and changes nothing. */
  lemma {:induction false} RemoveIdempotent(lines: seq<string>, target: string)
    ensures KeptLines(KeptLines(lines, target), target) == KeptLines(lines, target)
    ensures MatchCount(KeptLines(lines, target), target) == 0
  {
    if lines != [] {
      var n := |lines| - 1;
      var k := KeptLines(lines[..n], target);
      RemoveIdempotent(lines[..n], target);
      if Normal(lines[n]) != target {
        var k2 := k + [lines[n]];
        assert KeptLines(lines, target) == k2;
        assert k2[..|k2| - 1] == k && k2[|k2| - 1] == lines[n];
        assert KeptLines(k2, target) == KeptLines(k, target) + [lines[n]];
        assert MatchCount(k2, target) == MatchCount(k, target);
      } else {
        assert KeptLines(lines, target) == k;
      }
    }
  }

  // ---------------------------------------------------------------------------
  // report_familiarity

  /** The settings the report reads: `maxfreq`, `missinghit` (a percentage), the
      custom list and the dictionary. */
  datatype Settings = Settings(maxFreq: int, missingHit: int, custom: seq<string>, dict: Dictionary)

  /** The report for the middle word of a trio: the word, the frequencies looked up
      (or substituted) on each side, and the score. */
  datatype Report = Report(word: string, before: Option<int>, after: Option<int>, score: int)

  /** A report, or the division by zero the normalisation raises when `maxfreq` is 0. */
  datatype Reported = Reported(report: Report) | DivisionByZero

  /** Python's `int()` of a float: truncation toward zero. */
  function Trunc(x: real): (n: int)
    ensures x >= 0.0 ==> n as real <= x < n as real + 1.0
    ensures x < 0.0 ==> n as real - 1.0 < x <= n as real
  {
    if x >= 0.0 then x.Floor else -((-x).Floor)
  }

  /** The side values after substitution and clamping: when both sides are missing
      both count as 0, when one is missing it counts as 70% of `maxfreq`; each side is
      then capped at `maxfreq`. */
  function Side(cfg: Settings, v: Option<int>, other: Option<int>): real {
    var f := if v.None? && other.None? then 0.0
             else if v.None? then cfg.maxFreq as real * 0.7
             else v.value as real;
    if f > cfg.maxFreq as real then cfg.maxFreq as real else f
  }

  /** The raw score: the sum of both sides, reduced by `missinghit` percent when a side
      is zero. */
  function Penalised(cfg: Settings, before: Option<int>, after: Option<int>): real {
    Penalty(Side(cfg, before, after), Side(cfg, after, before), cfg.missingHit as real / 100.0)
  }

  /** The sum of two sides, reduced by the fraction `h` when one of them is zero. */
  function Penalty(fb: real, fa: real, h: real): real {
    var raw := fb + fa;
    if fb == 0.0 || fa == 0.0 then raw - raw * h else raw
  }

  /** The normalised score, `None` when `maxfreq` is 0. */
  function Score(cfg: Settings, before: Option<int>, after: Option<int>): Option<int> {
    if cfg.maxFreq == 0 then None
    else Some(Trunc(((Penalised(cfg, before, after) / 200.0) * 100.0) / (cfg.maxFreq as real / 100.0)))
  }

  /** The frequency stored as `frequency_before`: `maxfreq` for a white-listed left
      neighbour, else the previous report's integer `frequency_after`, else a lookup. */
  function Before(cfg: Settings, w0: string, w1: string, prevAfter: Option<int>): Option<int> {
    if Whitelisted(cfg.custom, w0) then Some(cfg.maxFreq)
    else if prevAfter.Some? then prevAfter
    else Frequency(cfg.dict, w0 + " " + w1)
  }

  /** The frequency stored as `frequency_after`: `maxfreq` for a white-listed right
      neighbour, else a lookup. */
  function After(cfg: Settings, w1: string, w2: string): Option<int> {
    if Whitelisted(cfg.custom, w2) then Some(cfg.maxFreq)
    else Frequency(cfg.dict, w1 + " " + w2)
  }

  /** `report_familiarity` for `trio = [w0, w1, w2]`, scored with true division;
      `prevAfter` is the previous report's `frequency_after` when that is an integer. */
  function ReportFamiliarity(cfg: Settings, w0: string, w1: string, w2: string, prevAfter: Option<int>): Reported {
    if Whitelisted(cfg.custom, w1) then
      Reported(Report(w1, Some(cfg.maxFreq), Some(cfg.maxFreq), 100))
    else
      var before := Before(cfg, w0, w1, prevAfter);
      var after := After(cfg, w1, w2);
      match Score(cfg, before, after)
      case None => DivisionByZero
      case Some(score) => Reported(Report(w1, before, after, score))
  }

  /** With a positive `maxfreq`, the normalisation is `50 * raw / maxfreq`, truncated. */
  lemma ScoreNormalises(cfg: Settings, before: Option<int>, after: Option<int>)
    requires cfg.maxFreq > 0
    ensures Score(cfg, before, after) ==
              Some(Trunc(50.0 * Penalised(cfg, before, after) / cfg.maxFreq as real))
  {
    var p := Penalised(cfg, before, after);
    var m := cfg.maxFreq as real;
    NormaliseArithmetic(p, m);
  }

  lemma NormaliseArithmetic(p: real, m: real)
    requires m > 0.0
    ensures ((p / 200.0) * 100.0) / (m / 100.0) == 50.0 * p / m
  {
    var q := (p / 200.0) * 100.0;
    assert q == p / 2.0;
    var x := q / (m / 100.0);
    assert x * (m / 100.0) == q;
    assert x * m == 50.0 * p;
  }

  /** Each side, after substitution and clamping, lies between 0 and `maxfreq`. */
  lemma SideInRange(cfg: Settings, v: Option<int>, other: Option<int>)
    requires cfg.maxFreq > 0
    requires v.Some? ==> v.value >= 0
    ensures 0.0 <= Side(cfg, v, other) <= cfg.maxFreq as real
  {
  }

  /** The raw score lies between 0 and twice `maxfreq`. */
  lemma PenalisedInRange(cfg: Settings, before: Option<int>, after: Option<int>)
    requires cfg.maxFreq > 0 && 0 <= cfg.missingHit <= 100
    requires before.Some? ==> before.value >= 0
    requires after.Some? ==> after.value >= 0
    ensures 0.0 <= Penalised(cfg, before, after) <= 2.0 * cfg.maxFreq as real
  {
    SideInRange(cfg, before, after);
    SideInRange(cfg, after, before);
    var fb := Side(cfg, before, after);
    var fa := Side(cfg, after, before);
    var h := cfg.missingHit as real / 100.0;
    assert 0.0 <= h <= 1.0;
    assert 0.0 <= fb + fa <= 2.0 * cfg.maxFreq as real;
    PenaltyInRange(fb + fa, h);
  }

  lemma PenaltyInRange(raw: real, h: real)
    requires 0.0 <= raw && 0.0 <= h <= 1.0
    ensures 0.0 <= raw - raw * h <= raw
  {
    assert raw * h <= raw * 1.0;
    assert raw * h >= 0.0;
  }

  /** With a positive `maxfreq`, a `missinghit` between 0 and 100 and non-negative
      frequencies, the score lies between 0 and 100. */
  lemma ScoreInRange(cfg: Settings, before: Option<int>, after: Option<int>)
    requires cfg.maxFreq > 0 && 0 <= cfg.missingHit <= 100
    requires before.Some? ==> before.value >= 0
    requires after.Some? ==> after.value >= 0
    ensures Score(cfg, before, after).Some?
    ensures 0 <= Score(cfg, before, after).value <= 100
  {
    var m := cfg.maxFreq as real;
    var p := Penalised(cfg, before, after);
    PenalisedInRange(cfg, before, after);
    ScoreNormalises(cfg, before, after);
    NormalisedInRange(p, m);
  }

  lemma NormalisedInRange(p: real, m: real)
    requires m > 0.0 && 0.0 <= p <= 2.0 * m
    ensures 0 <= Trunc(50.0 * p / m) <= 100
  {
    var x := 50.0 * p / m;
    assert x * m == 50.0 * p;
    assert 0.0 <= x <= 100.0;
  }

  /** A word with both neighbours unknown scores 0. */
  lemma BothMissingScoresZero(cfg: Settings)
    requires cfg.maxFreq > 0
    ensures Score(cfg, None, None) == Some(0)
  {
    assert Side(cfg, None, None) == 0.0;
    assert Penalised(cfg, None, None) == 0.0;
    ScoreNormalises(cfg, None, None);
    assert 50.0 * 0.0 / cfg.maxFreq as real == 0.0;
  }

  /** Both sides at `maxfreq` or above give a full score of 100. */
  lemma FullSidesScoreHundred(cfg: Settings, before: int, after: int)
    requires 0 < cfg.maxFreq <= before && cfg.maxFreq <= after
    ensures Score(cfg, Some(before), Some(after)) == Some(100)
  {
    var m := cfg.maxFreq as real;
    assert Side(cfg, Some(before), Some(after)) == m;
    assert Side(cfg, Some(after), Some(before)) == m;
    assert Penalised(cfg, Some(before), Some(after)) == 2.0 * m;
    ScoreNormalises(cfg, Some(before), Some(after));
    FullScale(m);
  }

  lemma FullScale(m: real)
    requires m > 0.0
    ensures 50.0 * (2.0 * m) / m == 100.0
  {
    assert 50.0 * (2.0 * m) == 100.0 * m;
  }

  /** A white-listed middle word gets 100 with both sides at `maxfreq`, and nothing
      is looked up: the result does not depend on the dictionary or the neighbours. */
  lemma WhitelistedWordFull(cfg: Settings, w0: string, w1: string, w2: string, prevAfter: Option<int>,
                            d: Dictionary, v0: string, v2: string, prev2: Option<int>)
    requires Whitelisted(cfg.custom, w1)
    ensures ReportFamiliarity(cfg, w0, w1, w2, prevAfter) ==
              Reported(Report(w1, Some(cfg.maxFreq), Some(cfg.maxFreq), 100))
    ensures ReportFamiliarity(cfg.(dict := d), v0, w1, v2, prev2) ==
              ReportFamiliarity(cfg, w0, w1, w2, prevAfter)
  {
  }

  /** A white-listed neighbour counts as `maxfreq` on its side. */
  lemma WhitelistedNeighbours(cfg: Settings, w0: string, w1: string, w2: string, prevAfter: Option<int>)
    requires !Whitelisted(cfg.custom, w1)
    requires ReportFamiliarity(cfg, w0, w1, w2, prevAfter).Reported?
    ensures Whitelisted(cfg.custom, w0) ==>
              ReportFamiliarity(cfg, w0, w1, w2, prevAfter).report.before == Some(cfg.maxFreq)
    ensures Whitelisted(cfg.custom, w2) ==>
              ReportFamiliarity(cfg, w0, w1, w2, prevAfter).report.after == Some(cfg.maxFreq)
  {
  }

  /** The previous report's `frequency_after` is reused as this word's
      `frequency_before` (the same pair of words), so the pair is not looked up again. */
  lemma PreviousAfterReused(cfg: Settings, w0: string, w1: string, w2: string, v: int, d: Dictionary)
    requires !Whitelisted(cfg.custom, w1) && !Whitelisted(cfg.custom, w0)
    requires ReportFamiliarity(cfg, w0, w1, w2, Some(v)).Reported?
    ensures ReportFamiliarity(cfg, w0, w1, w2, Some(v)).report.before == Some(v)
  {
  }

  /** The report keeps the lookup's own value, `None` included; the substitution and
      the clamp only feed the score. */
  lemma ReportStoresLookup(cfg: Settings, w0: string, w1: string, w2: string)
    requires !Whitelisted(cfg.custom, w1) && !Whitelisted(cfg.custom, w0) && !Whitelisted(cfg.custom, w2)
    requires ReportFamiliarity(cfg, w0, w1, w2, None).Reported?
    ensures ReportFamiliarity(cfg, w0, w1, w2, None).report.before == Frequency(cfg.dict, w0 + " " + w1)
    ensures ReportFamiliarity(cfg, w0, w1, w2, None).report.after == Frequency(cfg.dict, w1 + " " + w2)
  {
  }

  /** A side that is missing while the other is known counts as 70% of `maxfreq`. */
  lemma EdgeSubstitution(cfg: Settings, other: int)
    requires cfg.maxFreq > 0
    ensures Side(cfg, None, Some(other)) == cfg.maxFreq as real * 0.7
    ensures Side(cfg, None, Some(other)) < cfg.maxFreq as real
  {
  }

  /** The report fails exactly when `maxfreq` is 0 and the middle word is not
      white-listed; a report is always about the middle word. */
  lemma ReportFailsOnZeroMax(cfg: Settings, w0: string, w1: string, w2: string, prevAfter: Option<int>)
    ensures ReportFamiliarity(cfg, w0, w1, w2, prevAfter).DivisionByZero? <==>
              cfg.maxFreq == 0 && !Whitelisted(cfg.custom, w1)
    ensures ReportFamiliarity(cfg, w0, w1, w2, prevAfter).Reported? ==>
              ReportFamiliarity(cfg, w0, w1, w2, prevAfter).report.word == w1
  {
  }

  // The program runs under Python 2, where `/` between two ints is floor division.
  // The functions below model lines 83-100 of `report_familiarity` with Python 2's
  // numbers; the lemmas after them show where that differs from `Score`.

  /** A Python 2 number: an `int`, or a `float` (taken as an exact real). */
  datatype Num = Int(i: int) | Float(x: real)

  function Value(n: Num): real {
    if n.Int? then n.i as real else n.x
  }

  /** Python 2's `a / b` on two ints: the quotient rounded toward negative infinity. */
  function FloorDiv(a: int, b: int): (q: int)
    requires b != 0
    ensures b > 0 ==> q * b <= a < q * b + b
    ensures b < 0 ==> q * b + b < a <= q * b
  {
    if b > 0 then a / b else (-a) / (-b)
  }

  /** `+`, `-` and `*`: an int when both operands are ints, a float otherwise. */
  function Plus(a: Num, b: Num): Num {
    if a.Int? && b.Int? then Int(a.i + b.i) else Float(Value(a) + Value(b))
  }

  function Minus(a: Num, b: Num): Num {
    if a.Int? && b.Int? then Int(a.i - b.i) else Float(Value(a) - Value(b))
  }

  function Times(a: Num, b: Num): Num {
    if a.Int? && b.Int? then Int(a.i * b.i) else Float(Value(a) * Value(b))
  }

  /** `/`: `ZeroDivisionError` (`None`) for a zero divisor, floor division on two
      ints, true division otherwise. */
  function Divide(a: Num, b: Num): (r: Option<Num>)
    ensures r.None? <==> Value(b) == 0.0
  {
    if Value(b) == 0.0 then None
    else if a.Int? && b.Int? then Some(Int(FloorDiv(a.i, b.i)))
    else Some(Float(Value(a) / Value(b)))
  }

  /** `int()`: an int unchanged, a float truncated toward zero. */
  function IntOf(n: Num): int {
    if n.Int? then n.i else Trunc(n.x)
  }

  /** A side as the program computes it: 0 for both sides missing, the float
      `maxfreq * 0.7` for one side missing, the int `maxfreq` when above it. */
  function SideAsWritten(cfg: Settings, v: Option<int>, other: Option<int>): (r: Num)
    ensures Value(r) == Side(cfg, v, other)
  {
    var f := if v.None? && other.None? then Int(0)
             else if v.None? then Float(cfg.maxFreq as real * 0.7)
             else Int(v.value);
    if Value(f) > cfg.maxFreq as real then Int(cfg.maxFreq) else f
  }

  /** `((score / 200) * 100)` as the program computes it under Python 2, for the
      score after the penalty; `missinghit/100` and, on an int score, `score/200`
      are floor divisions. */
  function ScaledAsWritten(cfg: Settings, before: Option<int>, after: Option<int>): Num {
    var fb := SideAsWritten(cfg, before, after);
    var fa := SideAsWritten(cfg, after, before);
    var raw := Plus(fb, fa);
    var score := if Value(fb) == 0.0 || Value(fa) == 0.0
                 then Minus(raw, Times(raw, Int(FloorDiv(cfg.missingHit, 100))))
                 else raw;
    Times(Divide(score, Int(200)).value, Int(100))
  }

  /** The score as the program computes it: the scaled score divided by the floored
      `maxfreq/100`, then `int()`. It fails for every `maxfreq` from 0 to 99, where
      `maxfreq/100` is 0. */
  function ScoreAsWritten(cfg: Settings, before: Option<int>, after: Option<int>): (r: Option<int>)
    ensures r.None? <==> 0 <= cfg.maxFreq < 100
  {
    var q := FloorDiv(cfg.maxFreq, 100);
    assert q == 0 <==> 0 <= cfg.maxFreq < 100;
    match Divide(ScaledAsWritten(cfg, before, after), Int(q))
    case None => None
    case Some(n) => Some(IntOf(n))
  }

  /** `report_familiarity` as the program computes it: the same report, scored by
      `ScoreAsWritten`. */
  function ReportAsWritten(cfg: Settings, w0: string, w1: string, w2: string, prevAfter: Option<int>): Reported {
    if Whitelisted(cfg.custom, w1) then
      Reported(Report(w1, Some(cfg.maxFreq), Some(cfg.maxFreq), 100))
    else
      var before := Before(cfg, w0, w1, prevAfter);
      var after := After(cfg, w1, w2);
      match ScoreAsWritten(cfg, before, after)
      case None => DivisionByZero
      case Some(score) => Reported(Report(w1, before, after, score))
  }

  /** As written, a `missinghit` below 100 never reduces a score: `missinghit/100` is 0,
      so the score is the one for `missinghit` 0. */
  lemma AsWrittenSkipsPenalty(cfg: Settings, before: Option<int>, after: Option<int>)
    requires 0 <= cfg.missingHit < 100
    ensures ScoreAsWritten(cfg, before, after) == ScoreAsWritten(cfg.(missingHit := 0), before, after)
  {
    assert FloorDiv(cfg.missingHit, 100) == 0;
    assert FloorDiv(cfg.(missingHit := 0).missingHit, 100) == 0;
  }

  /** With the default settings, one side at `maxfreq` and the other at 0: the
      program scores 50, the 55% penalty being skipped, where true division gives 22. */
  lemma AsWrittenMissesPenalty(cfg: Settings)
    requires cfg.maxFreq == 20000 && cfg.missingHit == 55
    ensures ScoreAsWritten(cfg, Some(20000), Some(0)) == Some(50)
    ensures Score(cfg, Some(20000), Some(0)) == Some(22)
  {
    assert Side(cfg, Some(20000), Some(0)) == 20000.0;
    assert Side(cfg, Some(0), Some(20000)) == 0.0;
    assert Penalised(cfg, Some(20000), Some(0)) == 9000.0;
    ScoreNormalises(cfg, Some(20000), Some(0));
    assert 50.0 * 9000.0 / 20000.0 == 22.5;
  }

  /** With `maxfreq` 250, a first word whose right pair was seen 300 times: the program
      scores 106, above the 0..100 range, where true division gives 85. */
  lemma AsWrittenExceedsHundred(cfg: Settings)
    requires cfg.maxFreq == 250
    ensures ScoreAsWritten(cfg, None, Some(300)) == Some(106)
    ensures Score(cfg, None, Some(300)) == Some(85)
  {
    assert Side(cfg, None, Some(300)) == 175.0;
    assert Side(cfg, Some(300), None) == 250.0;
    assert Penalised(cfg, None, Some(300)) == 425.0;
    ScoreNormalises(cfg, None, Some(300));
    assert 50.0 * 425.0 / 250.0 == 85.0;
    assert FloorDiv(250, 100) == 2;
  }

  /** As written, both sides at or above a `maxfreq` of 100 or more still score 100:
      `2 * maxfreq / 200` floors to the same `q` as `maxfreq / 100`, and `q * 100 / q`
      is 100. */
  lemma AsWrittenFullSides(cfg: Settings, before: int, after: int)
    requires 100 <= cfg.maxFreq <= before && cfg.maxFreq <= after
    ensures ScoreAsWritten(cfg, Some(before), Some(after)) == Some(100)
  {
    var m := cfg.maxFreq;
    var fb := SideAsWritten(cfg, Some(before), Some(after));
    var fa := SideAsWritten(cfg, Some(after), Some(before));
    assert fb == Int(m) && fa == Int(m);
    var q := FloorDiv(m, 100);
    FloorsAgree(m);
    assert Divide(Plus(fb, fa), Int(200)).value == Int(q);
    assert Divide(Times(Int(q), Int(100)), Int(q)) == Some(Int(100));
  }

  /** For `m` of 100 or more, `2 * m / 200` and `m / 100` floor alike, and that
      positive quotient `q` gives `q * 100 / q == 100`. */
  lemma FloorsAgree(m: int)
    requires m >= 100
    ensures FloorDiv(m + m, 200) == FloorDiv(m, 100) >= 1
    ensures FloorDiv(FloorDiv(m, 100) * 100, FloorDiv(m, 100)) == 100
  {
    var q := m / 100;
    assert m == 100 * q + m % 100;
    assert q >= 1;
    assert (m + m) / 200 == q;
    DivCancel(100, q);
  }

  lemma DivCancel(k: int, q: int)
    requires q > 0
    ensures (q * k) / q == k
  {
    var d := (q * k) / q;
    var r := (q * k) % q;
    assert q * k == q * d + r && 0 <= r < q;
    assert q * (k - d) == r;
    if d < k {
      MulAtLeast(q, k - d);
    } else if d > k {
      MulAtLeast(q, d - k);
    }
  }

  lemma MulAtLeast(q: int, x: int)
    requires q > 0 && x >= 1
    ensures q * x >= q
  {
    assert q * x == q + q * (x - 1);
  }

  /** As written, the report fails for every `maxfreq` from 0 to 99 unless the middle
      word is white-listed; otherwise it reports the same word and frequencies as
      `ReportFamiliarity`. */
  lemma ReportAsWrittenFails(cfg: Settings, w0: string, w1: string, w2: string, prevAfter: Option<int>)
    ensures ReportAsWritten(cfg, w0, w1, w2, prevAfter).DivisionByZero? <==>
              0 <= cfg.maxFreq < 100 && !Whitelisted(cfg.custom, w1)
    ensures ReportAsWritten(cfg, w0, w1, w2, prevAfter).Reported? && ReportFamiliarity(cfg, w0, w1, w2, prevAfter).Reported? ==>
              ReportAsWritten(cfg, w0, w1, w2, prevAfter).report.(score := 0) ==
              ReportFamiliarity(cfg, w0, w1, w2, prevAfter).report.(score := 0)
  {
  }
}
