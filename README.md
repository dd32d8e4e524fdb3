# ingram in Dafny

A Dafny model of the core of *ingram*, a proofreading tool built on Google's
2-gram corpus. It has two halves.

- **Dictionary build** (`dictprocess.py`). Each source file of 2-grams, named after a
  letter pair `ab`, is reduced to `key<TAB>count` lines. These are spread over 27
  shard files `<a><b><c>.txt` (for `c` in `_a-z`) in the letter directory `a`. Each
  shard is then consolidated: sorted, duplicate keys merged, re-sorted by count.
  An in-progress marker file guards each pair; `cleanup` removes the remains of
  an interrupted pair.
- **Lookup and scoring** (`ingram.py`). A two-word phrase is normalised by
  `clean_string` (`cleanstring.py`) into its key, and the key's shard is scanned
  for its count. The middle word of every three-word window gets a familiarity
  score of 0–100 from the counts of the pairs on each side. A custom white list
  exempts words from scoring.

Modules, one per concern:

| file | module | models |
|---|---|---|
| `text.dfy` | `Text` | ASCII `lower()`, digit test, `Option` for `None`-or-value |
| `cleanstring.dfy` | `CleanString` | `clean_string`: the function `Clean` and the method `CleanString` |
| `sorting.dfy` | `Sorting` | Python's string order and a stable sort, used for `list.sort` |
| `shard.dfy` | `Shard` | a shard line `Entry(key, count)`, its text, and the shard-name rule |
| `consolidate.dfy` | `Consolidate` | `file_consolidate` on one file's lines |
| `aggregate.dfy` | `Aggregate` | the aggregation fold of `process_dict` over a source file's records |
| `dictbuild.dfy` | `DictBuild` | the output tree as a class `Builder`; `cleanup`, `process_dict` and `start_process` change its `dirs` and `files` in place |
| `ingram.dfy` | `Ingram` | `find_frequency`, `strip_word`, `whitelisted`, `load_custom_dict`, `remove_custom`, `report_familiarity` |

Files are modelled as a map from `Path` (a marker `Marker(a, b)` or a shard
`ShardFile(dir, name)`) to their lines. A missing key is a missing file. Letter
directories are a set of characters. Source files are a map from the pair `(a, b)`
to their parsed records. Each imperative routine of the source is a `method`
proved against a specification function. The properties the source promises are
lemmas about those functions.

Behaviours of the code that the model keeps:

- `clean_string` is not idempotent. Each tag is removed by a single `replace`
  pass, so removing one tag can join the pieces of another: `"a b__xx"` cleans to
  `"a b_x"`, which cleans to `"a b"`. No idempotence is claimed.
- The aggregation fold never adds the first record of a key. The record's
  publications are counted towards the previous key's threshold. The last key
  of a source file is never written. Phrases that `clean_string` rejects are not
  skipped (the `is not None` test never fails): they aggregate under the key `""`.
- Entries go into the source pair's letter directory `a`, whatever their key's
  first letter.
- Consolidation drops every group except the last whose key is `""` or whose total
  is not positive. The last group is always written. An empty file becomes the
  single line `("", 0)` and the count returned is 1.
- `start_process` counts a pair as processed even when its marker makes
  `process_dict` return at once.
- `cleanup` and `start_process` build paths as `<out><a>/...`, while
  `process_dict` builds them as `<out>/<a>/...`. The model takes the output path to
  end with `/`, as its default `dictionary/` does. Then the two spellings name the
  same file, and the marker of both is the one `Marker(a, b)`. With an output path
  such as `dict`, `cleanup` and `start_process` would look in `dicta/` while
  `process_dict` writes to `dict/a/`; that case is not modelled.
- `cleanup` does not undo everything an interrupted `process_dict` wrote. Lines
  appended to a file of directory `a` other than the pair's 27 shards stay, for
  example the key `""` in `___.txt`. The rerun of the pair appends them again
  (`DictBuild.InterruptedStrayLinesKept`).
- The scripts run under Python 2, where `/` between two ints floors. In
  `report_familiarity` this drops the missing-hit penalty, lets scores exceed 100
  and fails for `maxfreq` below 100. This is listed under Findings.

## Model

| member | source | states |
|---|---|---|
| Text.Lower | ingram.py:252 | Python's `lower()` on ASCII: same length, A–Z become a–z, everything else is kept |
| Text.LowerKeepsDigits | cleanstring.py:8-16 | lower-casing neither creates nor removes a digit |
| CleanString.CleanString | cleanstring.py:2-32 | the two loops and the checks of `clean_string` compute `Clean(s)` |
| CleanString.FilterChars | cleanstring.py:10-18 | the first loop reports a digit exactly when the phrase has one, and otherwise keeps exactly a-z, space and `_` |
| CleanString.Tag | cleanstring.py:21 | each of the 13 cruft tags is non-empty and starts with `_` |
| CleanString.TrimRight | cleanstring.py:25 | `rstrip(" ")` returns a prefix of its input that does not end with a space, and everything it removed is a space |
| CleanString.TrimLeft | cleanstring.py:25 | `lstrip(" ")` returns a suffix of its input that does not start with a space, and everything it removed is a space |
| CleanString.CleanRejectsDigits | cleanstring.py:8-16 | a phrase holding a digit cleans to `""` |
| CleanString.CleanAlphabet | cleanstring.py:11-22 | every character of a key is a-z, space or `_` |
| CleanString.KeepAllowedKeeps | cleanstring.py:11-18 | the character filter keeps only a-z, space and `_`, and never lengthens the string |
| CleanString.RemoveAllDeletes | cleanstring.py:22 | one `replace(tag, "")` only deletes characters (the result is a sub-multiset of its input) |
| CleanString.RemoveTagsKeeps | cleanstring.py:21-22 | the tag passes keep the alphabet |
| CleanString.CleanShape | cleanstring.py:24-30 | a key is `""`, or has no space at either end, does not end with `" _"` and has an interior space (two or more words) |
| CleanString.CleanNoDoubleUnderscore | cleanstring.py:21-22 | no key holds two adjacent underscores |
| CleanString.RemoveDoubleUnderscoreClears | cleanstring.py:21-22 | after the `"__"` pass no two adjacent underscores remain |
| CleanString.RemoveDoubleUnderscoreHead | cleanstring.py:22 | the `"__"` pass keeps the first character of a string that does not start with `_` |
| CleanString.UnderscoreRun | cleanstring.py:21-22 | a run of n underscores shrinks to n mod 2 under the `"__"` pass |
| CleanString.UnderscoreRunInside | cleanstring.py:21-22 | inside a string, a run of n underscores not touching other underscores shrinks to n mod 2, and the text on each side is treated on its own |
| CleanString.UnderscoreRunBefore | cleanstring.py:22 | a run of n underscores followed by a character other than `_` shrinks to n mod 2 |
| CleanString.RemovePairsSplit | cleanstring.py:22 | no `"__"` match spans the end of a string that does not end with `_`: the pass works on both sides separately |
| CleanString.RemoveAllNoUnderscore | cleanstring.py:22 | a tag starting with `_` leaves a string without underscores unchanged |
| CleanString.RemoveTagsNoUnderscore | cleanstring.py:21-22 | all 13 tag passes leave a string without underscores unchanged |
| CleanString.KeepAllowedIdentity | cleanstring.py:11-18 | the filter leaves a string of kept characters unchanged |
| CleanString.FinishKeeps | cleanstring.py:24-30 | trimming and the two checks keep the alphabet and the absence of `"__"` |
| CleanString.FinishOfKey | cleanstring.py:24-30 | a string already shaped like a key passes trimming and both checks unchanged |
| CleanString.CleanPlainPhrase | cleanstring.py:8-18 | upper-case letters are kept as their lower-case forms: a phrase of letters and inner spaces cleans to its lower-case form |
| Sorting.StrLeTotal | dictprocess.py:45 | Python's string order is total |
| Sorting.StrLeTransitive | dictprocess.py:45 | Python's string order is transitive |
| Sorting.StrLeAntisymmetric | dictprocess.py:45 | Python's string order is antisymmetric |
| Sorting.StrLeKeepsPrefix | dictprocess.py:45-53 | a string ordered between two strings with a common prefix has that prefix, so sorted lines starting with `key<TAB>` are contiguous |
| Sorting.SortCorrect | dictprocess.py:45 | the sort returns a sorted permutation of its input |
| Sorting.InsertPermutes | dictprocess.py:45 | insertion adds exactly the inserted element |
| Sorting.InsertSorted | dictprocess.py:45 | insertion keeps a list sorted |
| Sorting.SortStable | dictprocess.py:81 | the sort is stable: elements that compare equal leave in the order they came in |
| Sorting.InsertTie | dictprocess.py:81 | an element equal to `x` and no larger than the other elements equal to `x` is inserted in front of them |
| Sorting.InsertOther | dictprocess.py:81 | inserting an element not equal to `x` leaves the elements equal to `x` in place and in order |
| Shard.ShardName | dictprocess.py:143-145 | the shard name has three characters and no space |
| Consolidate.FileConsolidate | dictprocess.py:35-92 | both passes write `Consolidated(lines)` and return the number of lines written |
| Consolidate.MergePass | dictprocess.py:48-66 | the merge loop over the sorted lines computes `Merged` |
| Consolidate.Reread | dictprocess.py:73-80 | the reread keeps exactly the lines that split into two fields |
| Consolidate.ConsolidatedEmpty | dictprocess.py:48-66 | an empty file becomes the single line `("", 0)` |
| Consolidate.ConsolidatedByCount | dictprocess.py:81-88 | the file is ordered by count, largest first, and is a permutation of the merged lines |
| Consolidate.ConsolidatedElements | dictprocess.py:45-88 | the file holds exactly the merged lines |
| Consolidate.ConsolidatedDistinct | dictprocess.py:45-66 | no key appears twice in the file |
| Consolidate.ConsolidatedSums | dictprocess.py:51-66 | each count is the sum of its key's input counts; no key is invented except the `""` of an empty file |
| Consolidate.ConsolidatedKeeps | dictprocess.py:53-66 | an input key is written iff it is the largest key (the last group) or it is not `""` and its total is positive |
| Consolidate.MergeDistinct | dictprocess.py:51-66 | the merge of grouped lines has distinct keys |
| Consolidate.MergeSums | dictprocess.py:51-66 | each merged count is the sum of the group's counts |
| Consolidate.MergeMembership | dictprocess.py:53-66 | which keys survive the merge: the last group always, the others when not `""` and positive |
| Consolidate.SortedGroups | dictprocess.py:45 | after the string sort, equal keys are adjacent |
| Consolidate.SortedLastIsLargest | dictprocess.py:45 | after the string sort, the last line has the largest key |
| Consolidate.SumForSort | dictprocess.py:45 | sorting does not change the sum of a key's counts |
| Aggregate.KeyAll | dictprocess.py:131-133 | every record gets exactly one key, in file order: record i is filed under `clean_string` of its own phrase |
| Aggregate.FoldStep | dictprocess.py:134-154 | one step of the fold: a record with the same key adds its in-range count and its publications; a new key flushes the previous key, counted with the new record's publications, and restarts at zero |
| Aggregate.SameKeyRun | dictprocess.py:137-140 | records with the current key write nothing and add their in-range counts and all their publications |
| Aggregate.GroupEmission | dictprocess.py:137-154 | a group r1..rn is written with the in-range counts of r2..rn only, tested with the publications of r2..rn and of the next key's first record |
| Aggregate.LastGroupNotWritten | dictprocess.py:125-155 | the last key of a source file is never written |
| Aggregate.EmittedKeysClean | dictprocess.py:133-150 | every key written is `""` or `clean_string` of one of the file's phrases, made of a-z, space and `_`, with a count of at least `minfreq` |
| Aggregate.RunKeysClean | dictprocess.py:138-150 | every key the fold writes is the key it held on entry or the key of one of the records, so keys of a-z, space and `_` stay so; counts are at least `minfreq` |
| DictBuild.Builder.constructor | dictprocess.py:17-32 | an output tree whose files all lie in existing letter directories |
| DictBuild.Builder.Cleanup | dictprocess.py:17-32 | the files after `cleanup` are `Purged`: every marker in an existing directory and, for a marked pair, its 27 shards are deleted; nothing else changes |
| DictBuild.Builder.CleanupLetter | dictprocess.py:24-32 | one letter directory of `cleanup` |
| DictBuild.Builder.RemovePair | dictprocess.py:28-32 | a marked pair loses its 27 shards, then its marker |
| DictBuild.PurgeIdempotent | dictprocess.py:17-32 | a second `cleanup` changes nothing |
| DictBuild.PurgeKeepsUnmarked | dictprocess.py:22-32 | a shard of an unmarked pair survives `cleanup` untouched |
| DictBuild.PurgeRemovesMarked | dictprocess.py:22-32 | in an existing directory, a marker and every shard of its pair are gone after `cleanup` |
| DictBuild.PurgeSkipsMissingDir | dictprocess.py:23 | pairs in a letter directory that does not exist are passed over |
| DictBuild.PurgeStepMarked | dictprocess.py:26-32 | visiting a marked pair removes its shards and its marker |
| DictBuild.PurgeStepUnmarked | dictprocess.py:26 | visiting an unmarked pair changes nothing |
| DictBuild.PairShardsMembers | dictprocess.py:28-29 | the pair's shards are exactly the files `<a><b><c>.txt` in directory `a` for `c` in the character list |
| DictBuild.Builder.ProcessDict | dictprocess.py:95-173 | creates directory `a`; returns with no change when the marker exists; otherwise the files become `Processed`: marker created, 27 shards truncated, the fold's lines appended, 27 shards consolidated, marker deleted |
| DictBuild.Builder.TruncatePair | dictprocess.py:114-117 | the 27 shards of the pair are emptied, with the marker present |
| DictBuild.Builder.AppendRecords | dictprocess.py:119-155 | the fold's lines, in order, are appended to the shard named by `ShardName` in directory `a` |
| DictBuild.Builder.KeyAt | dictprocess.py:131-136 | reads one record and computes its key |
| DictBuild.Builder.AppendLine | dictprocess.py:143-151 | one line is appended to the shard named after its key, in directory `a` |
| DictBuild.Builder.ConsolidatePair | dictprocess.py:157-163 | each of the pair's 27 shards is replaced by its consolidation |
| DictBuild.Builder.ConsolidateOne | dictprocess.py:163 | `file_consolidate` on one existing file |
| DictBuild.AppendAllSnoc | dictprocess.py:141-151 | appending one more line extends exactly the shard named after its key |
| DictBuild.ProcessedPairShard | dictprocess.py:114-163 | after `process_dict` each shard of the pair holds the consolidation of exactly the fold's lines routed to it |
| DictBuild.ProcessedOtherDir | dictprocess.py:95-173 | files in other letter directories are untouched |
| DictBuild.ProcessedOtherShard | dictprocess.py:143-151 | a shard of directory `a` outside the pair's 27 receives the fold's lines for its name, unconsolidated |
| DictBuild.ProcessDictInterruptible | dictprocess.py:110-170 | the marker is written first and deleted last: after any number of truncations, appended lines or consolidations it is present, and `cleanup` then removes it with the pair's 27 shards |
| DictBuild.RecoverableWhenMarked | dictprocess.py:22-32 | files holding a pair's marker lose the marker and the pair's 27 shards to `cleanup` |
| DictBuild.InterruptedStrayLinesKept | dictprocess.py:22-32 | lines appended to a file of directory `a` whose name does not start with `a` survive `cleanup` after an interruption, and the rerun appends them again |
| DictBuild.ProcessedKeys | dictprocess.py:110-170 | when no marker was present, no file disappears and no marker is left: the pair's own marker is deleted at the end |
| DictBuild.Builder.StartProcess | dictprocess.py:176-195 | the sweep over letters 2..27 and all second letters gives `StartRows`, with the count of pairs handed to `process_dict` |
| DictBuild.Builder.StartLetter | dictprocess.py:184-191 | one first letter of the sweep |
| DictBuild.Builder.StartOne | dictprocess.py:185-191 | a source file whose first shard `<a><b>_.txt` is missing is processed and counted; anything else is skipped |
| DictBuild.StartRowsFacts | dictprocess.py:176-195 | the sweep keeps files in existing directories, only adds directories and files, counts at most one per pair, reaches every pair with a source file, and leaves other directories alone |
| DictBuild.StartRowReached | dictprocess.py:186-190 | a pair already reached is not worked on again |
| DictBuild.StartIdempotent | dictprocess.py:176-195 | a second sweep changes no file and no directory |
| DictBuild.StartSkipsUnderscore | dictprocess.py:183 | the sweep never touches the `_` directory |
| Ingram.LookupIsShardName | ingram.py:21-30 | for a key not starting with a space, the lookup opens the shard the build appends the key to |
| Ingram.CleanKeyShard | ingram.py:14-30 | every non-empty key is such a key |
| Ingram.FirstMatchFinds | ingram.py:34-38 | the scan finds nothing iff no line has the key, and otherwise reads the first line that has it |
| Ingram.FindFrequency | ingram.py:11-42 | the lookup computes `Frequency`: `None` for a rejected phrase or a missing shard, 0 for a missing directory or no match, else the first match's count |
| Ingram.LookupKey | ingram.py:15-42 | the shard name is built character by character and the shard scanned |
| Ingram.ScanShard | ingram.py:34-38 | the scan stops at the first line with the key, and reports 0 when there is none |
| Ingram.RejectedPhraseNone | ingram.py:14-16 | a phrase with a digit is reported as `None` |
| Ingram.LookupConsolidated | ingram.py:20-42 | in a consolidated shard the lookup reads the sum of the key's counts when consolidation kept the key, and 0 otherwise |
| Ingram.PhraseReadsTotal | ingram.py:11-42 | a phrase whose key was consolidated into its shard with a positive total reads back that total |
| Ingram.StripWord | ingram.py:249-257 | `strip_word` computes `Stripped`: lower-case, then keep a-z |
| Ingram.StrippedIsFinal | ingram.py:249-257 | a stripped word holds only a-z; stripping or lower-casing it again changes nothing |
| Ingram.StrippedIgnoresCase | ingram.py:252 | upper- and lower-case spellings strip alike |
| Ingram.LettersOnly | ingram.py:253-256 | the loop keeps only a-z |
| Ingram.LettersOfLetters | ingram.py:253-256 | a string of a-z passes the loop unchanged |
| Ingram.IsWhitelisted | ingram.py:45-54 | `whitelisted` is true iff the word has a digit or its stripped form is in the custom list |
| Ingram.LoadCustomDict | ingram.py:276-281 | the custom list is `CustomWords(lines)` |
| Ingram.CustomWordsMembers | ingram.py:276-281 | a word is on the custom list iff it is non-empty and some non-comment line strips to it |
| Ingram.LineWordMembers | ingram.py:277-281 | a line contributes its stripped form, if not a comment and not empty |
| Ingram.CustomLineWhitelists | ingram.py:45-54 | a word that strips like a non-comment white-list line is whitelisted |
| Ingram.RemoveCustom | ingram.py:228-246 | copies the lines that do not match, counting those that do; both sides are compared lower-cased and stripped of `\n\r\t ` |
| Ingram.StripBlanks | ingram.py:234-236 | `strip("\n\r\t ")` leaves no blank at either end |
| Ingram.StripBlanksInfix | ingram.py:234-236 | `strip` returns a piece of its input, and everything before and after that piece is blank |
| Ingram.RemoveAccounts | ingram.py:235-239 | copied plus counted lines make up the file; the copied lines are exactly the non-matching ones |
| Ingram.RemoveIdempotent | ingram.py:228-246 | removing the word a second time finds nothing and changes nothing |
| Ingram.Trunc | ingram.py:100 | `int()` of a float truncates toward zero |
| Ingram.ScoreNormalises | ingram.py:99-100 | with a positive `maxfreq` the normalisation is `50 * raw / maxfreq`, truncated |
| Ingram.NormaliseArithmetic | ingram.py:100 | the normalisation's arithmetic |
| Ingram.SideInRange | ingram.py:83-94 | each side, after substitution and clamping, lies in 0..`maxfreq` |
| Ingram.PenalisedInRange | ingram.py:95-97 | the raw score after the missing-hit penalty lies in 0..2·`maxfreq` |
| Ingram.PenaltyInRange | ingram.py:97 | a penalty of at most 100% keeps the raw score between 0 and itself |
| Ingram.ScoreInRange | ingram.py:83-100 | with a positive `maxfreq`, `missinghit` in 0..100 and non-negative lookups, the score lies in 0..100 |
| Ingram.NormalisedInRange | ingram.py:100 | a raw score in 0..2·`maxfreq` normalises into 0..100 |
| Ingram.BothMissingScoresZero | ingram.py:83-100 | both neighbours unknown gives score 0 |
| Ingram.FullSidesScoreHundred | ingram.py:91-100 | both sides at or above `maxfreq` give 100 |
| Ingram.EdgeSubstitution | ingram.py:87-90 | a missing side next to a known one counts as 70% of `maxfreq` |
| Ingram.WhitelistedWordFull | ingram.py:62-66 | a whitelisted middle word scores 100 with both sides at `maxfreq`, whatever the dictionary and the neighbours |
| Ingram.WhitelistedNeighbours | ingram.py:68-69 | a whitelisted neighbour sets its side to `maxfreq` |
| Ingram.PreviousAfterReused | ingram.py:70-72 | the previous report's `frequency_after` becomes this report's `frequency_before` |
| Ingram.ReportStoresLookup | ingram.py:70-81 | the report stores the raw lookup values, `None` included |
| Ingram.FloorDiv | ingram.py:97-100 | Python 2's `/` on ints: the quotient rounded toward negative infinity |
| Ingram.Divide | ingram.py:100 | `/` fails on a zero divisor, floors on two ints and divides exactly otherwise |
| Ingram.SideAsWritten | ingram.py:83-94 | each side as the program computes it has the value of `Side`, an int except for an edge substitution |
| Ingram.ScoreAsWritten | ingram.py:83-100 | the score as the program computes it fails exactly for `maxfreq` in 0..99 |
| Ingram.AsWrittenSkipsPenalty | ingram.py:96-97 | as written, a `missinghit` below 100 never changes a score |
| Ingram.AsWrittenMissesPenalty | ingram.py:95-100 | as written, `maxfreq` 20000, `missinghit` 55, sides 20000 and 0 score 50, where true division gives 22 |
| Ingram.AsWrittenExceedsHundred | ingram.py:83-100 | as written, `maxfreq` 250, no left pair and a right pair seen 300 times score 106, where true division gives 85 |
| Ingram.AsWrittenFullSides | ingram.py:91-100 | as written, both sides at or above a `maxfreq` of 100 or more still score 100: `2·maxfreq // 200` is `maxfreq // 100` |
| Ingram.ReportAsWrittenFails | ingram.py:57-101 | as written, the report fails iff `maxfreq` is in 0..99 and the middle word is not whitelisted; otherwise it carries the same word and frequencies as `ReportFamiliarity` |
| Ingram.ReportFailsOnZeroMax | ingram.py:57-101 | the report fails (division by zero) iff `maxfreq` is 0 and the middle word is not whitelisted; the report is about the middle word |

## Left out

- File I/O (`codecs.open`, `gzip`, `os.remove`, `os.rename`, `os.makedirs`, `os.path.exists`/`isfile`) is replaced by the map from paths to lines and the set of directories. The temporary `.tmp` files of `file_consolidate` and `remove_custom` are not modelled; only the file contents after the rename are.
- Parsing of source lines: a source file is given as its parsed records `(phrase, year, count, pubs)`. The model does not cover `int()` failing on a malformed field.
- A shard line is the structured `Entry(key, count)`. The string sort compares the full line text `key<TAB>count<NEWLINE>`.
- Unicode: `unicodedata.normalize("NFKD")`, `decode`, the `UnicodeEncodeError` path of `clean_string`, and `lower()` beyond ASCII. The phrase is taken as its code points after normalisation.
- Floating point: the floats of `report_familiarity` (`maxfreq * 0.7` and what is computed from it) are exact reals, so IEEE rounding is not captured.
- Ingram.Score: states the score with true division, as evidently intended. The program's Python 2 floor division is modelled by `Ingram.ScoreAsWritten`; see Findings.
- Ingram.Penalised: applies `missinghit` as a fraction. With Python 2's floor division the program applies `missinghit/100`, which is 0 below 100; see `Ingram.AsWrittenSkipsPenalty`.
- Ingram.ScoreNormalises: holds of the true-division score only; the program floors `maxfreq/100` and, on an int score, `score/200`.
- Ingram.NormaliseArithmetic: is the true-division arithmetic; the program's floor divisions do not satisfy it.
- Ingram.PenalisedInRange: is about the true-division penalty; the program applies none for `missinghit` below 100.
- Ingram.PenaltyInRange: is about the true-division penalty; the program applies none for `missinghit` below 100.
- Ingram.ScoreInRange: holds of the true-division score only; the program's score can exceed 100 (`Ingram.AsWrittenExceedsHundred`) and fails for `maxfreq` in 1..99.
- Ingram.NormalisedInRange: is the true-division normalisation; the program divides by the floored `maxfreq/100`.
- Ingram.BothMissingScoresZero: holds of the true-division score; the program fails for `maxfreq` in 1..99.
- Ingram.FullSidesScoreHundred: is about the true-division score; as written the same holds for `maxfreq` of 100 or more (`Ingram.AsWrittenFullSides`), and `maxfreq` in 1..99 fails.
- Ingram.ReportFailsOnZeroMax: states the failure of the true-division report (only `maxfreq` 0); the program fails for every `maxfreq` in 0..99 (`Ingram.ReportAsWrittenFails`).
- Concurrency: the marker's use as a lock between processes, `KeyboardInterrupt`/`clean_exit`, and the `exit(0)` when the marker has vanished. Only single-process state changes are modelled.
- Timing, progress dots and messages (`time.clock`, `print`, `sys.stdout`).
- `get_config` in both scripts, the top-level drivers, `process_text` (the sliding three-word window over an input file), `add_custom`, and the rendering (`start_report`, `end_report`, `show_report`).
- `load_custom_dict` creating a missing white-list file, and its return value for a missing dictionary directory. The model takes the file's lines as given.
- The module `process_dict` imported by `dictprocess.py` is not part of this model. Its `clean_string` is taken to be the one in `cleanstring.py`.
- Shard.ShardName: its contract states only the length and the absence of spaces. The full rule is its body, and the equality with the lookup's name is proved in `Ingram.LookupIsShardName`.

## Findings

| source | as written | input that shows it | evidently intended | confidence | as-written member | corrected member |
|---|---|---|---|---|---|---|
| ingram.py:97-100 | under Python 2, `missinghit/100`, `maxfreq/100` and, when no side was substituted, `score/200` are floor divisions | `maxfreq` 20000, `missinghit` 55, sides 20000 and 0: score 50 instead of 22; `maxfreq` 250, no left pair, right pair 300: score 106; `maxfreq` 50: `ZeroDivisionError` | true division: the penalty applied, scores in 0..100, every positive `maxfreq` accepted | medium, not executed | Ingram.ScoreAsWritten | Ingram.Score |
