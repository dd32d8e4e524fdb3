/** The phrase normaliser `clean_string` (cleanstring.py). The input is the phrase as a
    sequence of code points after NFKD normalisation; `Clean` is the specification and
    the method `CleanString` follows the two loops of the source. */
module CleanString {
  import opened Text

  /** The characters the first loop keeps: a-z, space and underscore. */
  predicate Kept(c: char) { IsLowerAlpha(c) || c == ' ' || c == '_' }

  /** The number of cruft tags removed. */
  const TagCount := 13

  /** The cruft tags, in the order the source removes them ("_adj" is listed twice,
      as in the source). */
  function Tag(k: nat): (t: string)
    requires k < TagCount
    ensures |t| > 0 && t[0] == '_'
  {
    match k
    case 0 => "_adj"
    case 1 => "_verb"
    case 2 => "_noun"
    case 3 => "_adj"
    case 4 => "_adv"
    case 5 => "_pron"
    case 6 => "_det"
    case 7 => "_adp"
    case 8 => "_num"
    case 9 => "_conj"
    case 10 => "_prt"
    case 11 => "_x"
    case 12 => "__"
  }

  /** The first loop on a digit-free, lower-cased string: drop every character that is
      not kept. Defined from the right so that it follows the loop. */
  function KeepAllowed(s: string): (r: string)
  {
    if s == [] then []
    else KeepAllowed(s[..|s| - 1]) + (if Kept(s[|s| - 1]) then [s[|s| - 1]] else [])
  }

  /** Python's `s.replace(pat, "")`: delete the leftmost occurrence of `pat` and carry on
      after it, so that occurrences never overlap. */
  function RemoveAll(s: string, pat: string): (r: string)
    requires |pat| > 0
    decreases |s|
  {
    if |s| < |pat| then s
    else if s[..|pat|] == pat then RemoveAll(s[|pat|..], pat)
    else [s[0]] + RemoveAll(s[1..], pat)
  }

  /** The string after the first `k` passes of the tag-removal loop. */
  function RemoveTags(s: string, k: nat): string
    requires k <= TagCount
  {
    if k == 0 then s else RemoveAll(RemoveTags(s, k - 1), Tag(k - 1))
  }

  /** `rstrip(" ")`: a prefix of the input that does not end with a space. */
  function TrimRight(s: string): (r: string)
    ensures |r| <= |s| && r == s[..|r|]
    ensures r == [] || r[|r| - 1] != ' '
    ensures forall i :: |r| <= i < |s| ==> s[i] == ' '
  {
    if s != [] && s[|s| - 1] == ' ' then TrimRight(s[..|s| - 1]) else s
  }

  /** `lstrip(" ")`: a suffix of the input that does not start with a space. */
  function TrimLeft(s: string): (r: string)
    ensures |r| <= |s| && r == s[|s| - |r|..]
    ensures r == [] || r[0] != ' '
    ensures forall i :: 0 <= i < |s| - |r| ==> s[i] == ' '
  {
    if s != [] && s[0] == ' ' then TrimLeft(s[1..]) else s
  }

  predicate EndsWithSpaceUnderscore(s: string) {
    |s| >= 2 && s[|s| - 2..] == " _"
  }

  /** The tail of the source after tag removal: trim, reject a trailing " _", reject a
      single word. */
  function Finish(t: string): string {
    var u := TrimLeft(TrimRight(t));
    if EndsWithSpaceUnderscore(u) then ""
    else if ' ' !in u then ""
    else u
  }

  /** What `clean_string` returns for a phrase. */
  function Clean(s: string): string {
    if HasDigit(Lower(s)) then ""
    else Finish(RemoveTags(KeepAllowed(Lower(s)), TagCount))
  }

  /** The first loop of `clean_string` over the lower-cased phrase: stop at the first
      digit (the source returns "" there), otherwise keep a-z, space and underscore. */
  method FilterChars(t: string) returns (digit: bool, kept: string)
    ensures digit == HasDigit(t)
    ensures !digit ==> kept == KeepAllowed(t)
  {
    kept := "";
    var i := 0;
    while i < |t|
      invariant 0 <= i <= |t|
      invariant forall j :: 0 <= j < i ==> !IsDigit(t[j])
      invariant kept == KeepAllowed(t[..i])
    {
      var c := t[i];
      var skip := false;
      if c < 'a' || c > 'z' {
        if '0' <= c <= '9' {
          assert IsDigit(t[i]);
          return true, "";
        }
        if c != ' ' && c != '_' {
          skip := true;
        }
      }
      if !skip {
        kept := kept + [c];
      }
      assert t[..i + 1][..i] == t[..i];
      i := i + 1;
    }
    assert t[..i] == t;
    digit := false;
  }

  /** `clean_string`: lower-case, filter (rejecting digits), one `replace` per tag,
      trim, then reject a trailing " _" and a single word. */
  method CleanString(s: string) returns (r: string)
    ensures r == Clean(s)
  {
    var digit, newString := FilterChars(Lower(s));
    if digit {
      return "";
    }
    for k := 0 to TagCount
      invariant newString == RemoveTags(KeepAllowed(Lower(s)), k)
    {
      newString := RemoveAll(newString, Tag(k));
    }
    newString := TrimLeft(TrimRight(newString));
    if EndsWithSpaceUnderscore(newString) {
      newString := "";
    }
    if ' ' !in newString {
      newString := "";
    }
    r := newString;
  }

  // ---------------------------------------------------------------------------
  // Properties of the pieces

  predicate AllKept(s: string) {
    forall i :: 0 <= i < |s| ==> Kept(s[i])
  }

  ghost predicate NoDoubleUnderscore(s: string) {
    forall i, j :: 0 <= i < j < |s| && j == i + 1 ==> !(s[i] == '_' && s[j] == '_')
  }

  lemma {:induction false} KeepAllowedKeeps(s: string)
    ensures AllKept(KeepAllowed(s))
    ensures |KeepAllowed(s)| <= |s|
  {
    if s != [] {
      KeepAllowedKeeps(s[..|s| - 1]);
    }
  }

  /** The replacement only deletes characters. */
  lemma {:induction false} RemoveAllDeletes(s: string, pat: string)
    requires |pat| > 0
    ensures multiset(RemoveAll(s, pat)) <= multiset(s)
    decreases |s|
  {
    if |s| < |pat| {
    } else if s[..|pat|] == pat {
      RemoveAllDeletes(s[|pat|..], pat);
      assert s == s[..|pat|] + s[|pat|..];
      assert multiset(s) == multiset(s[..|pat|]) + multiset(s[|pat|..]);
    } else {
      RemoveAllDeletes(s[1..], pat);
      assert s == [s[0]] + s[1..];
      assert multiset(s) == multiset([s[0]]) + multiset(s[1..]);
    }
  }

  lemma SubmultisetKeeps(a: string, b: string)
    requires multiset(a) <= multiset(b) && AllKept(b)
    ensures AllKept(a)
  {
    forall i | 0 <= i < |a| ensures Kept(a[i]) {
      assert a[i] in multiset(a);
      assert a[i] in multiset(b);
      assert a[i] in b;
    }
  }

  lemma {:induction false} RemoveTagsKeeps(s: string, k: nat)
    requires k <= TagCount && AllKept(s)
    ensures AllKept(RemoveTags(s, k))
  {
    if k > 0 {
      RemoveTagsKeeps(s, k - 1);
      RemoveAllDeletes(RemoveTags(s, k - 1), Tag(k - 1));
      SubmultisetKeeps(RemoveTags(s, k), RemoveTags(s, k - 1));
    }
  }

  /** A non-empty string that does not start with `_` keeps its first character
      through the "__" replacement. */
  lemma RemoveDoubleUnderscoreHead(s: string)
    requires s != [] && s[0] != '_'
    ensures RemoveAll(s, "__") != [] && RemoveAll(s, "__")[0] == s[0]
  {
    if |s| >= 2 {
      assert s[..2] != "__";
    }
  }

  /** After the final "__" replacement no two adjacent underscores remain. */
  lemma {:induction false} RemoveDoubleUnderscoreClears(s: string)
    ensures NoDoubleUnderscore(RemoveAll(s, "__"))
    decreases |s|
  {
    var r := RemoveAll(s, "__");
    if |s| < 2 {
    } else if s[..2] == "__" {
      RemoveDoubleUnderscoreClears(s[2..]);
    } else {
      RemoveDoubleUnderscoreClears(s[1..]);
      var rest := RemoveAll(s[1..], "__");
      assert r == [s[0]] + rest;
      if s[0] == '_' {
        assert s[1] != '_';
        RemoveDoubleUnderscoreHead(s[1..]);
      }
      forall i, j | 0 <= i < j < |r| && j == i + 1 ensures !(r[i] == '_' && r[j] == '_') {
        if i > 0 {
          assert r[i] == rest[i - 1] && r[j] == rest[j - 1];
        }
      }
    }
  }

  function Underscores(n: nat): (r: string)
    ensures |r| == n && forall i :: 0 <= i < n ==> r[i] == '_'
  {
    seq(n, _ => '_')
  }

  /** A run of n underscores shrinks to n mod 2 under the "__" replacement. */
  lemma {:induction false} UnderscoreRun(n: nat)
    ensures RemoveAll(Underscores(n), "__") == Underscores(n % 2)
  {
    if n >= 2 {
      assert Underscores(n)[..2] == "__";
      assert Underscores(n)[2..] == Underscores(n - 2);
      UnderscoreRun(n - 2);
    }
  }

  /** One step of the "__" replacement: a leading pair is dropped. */
  lemma PairStep(t: string)
    requires |t| >= 2 && t[0] == '_' && t[1] == '_'
    ensures RemoveAll(t, "__") == RemoveAll(t[2..], "__")
  {
    assert t[..2] == "__";
  }

  /** One step of the "__" replacement: a first character that starts no pair is kept. */
  lemma SingleStep(t: string)
    requires t != [] && (|t| == 1 || t[0] != '_' || t[1] != '_')
    ensures RemoveAll(t, "__") == [t[0]] + RemoveAll(t[1..], "__")
  {
    if |t| >= 2 {
      assert t[..2][0] == t[0] && t[..2][1] == t[1];
    } else {
      assert t[1..] == [];
    }
  }

  /** The "__" replacement works on a string that does not end in `_` and on what
      follows it separately: no match spans the join. */
  lemma {:induction false} RemovePairsSplit(x: string, z: string)
    requires x == [] || x[|x| - 1] != '_'
    ensures RemoveAll(x + z, "__") == RemoveAll(x, "__") + RemoveAll(z, "__")
    decreases |x|
  {
    if x != [] {
      var s := x + z;
      if |x| >= 2 && x[0] == '_' && x[1] == '_' {
        PairStep(s);
        PairStep(x);
        assert s[2..] == x[2..] + z;
        RemovePairsSplit(x[2..], z);
      } else {
        SingleStep(s);
        SingleStep(x);
        assert s[1..] == x[1..] + z;
        RemovePairsSplit(x[1..], z);
      }
    } else {
      assert x + z == z;
    }
  }

  lemma ParityStep(n: nat)
    requires n >= 2
    ensures (n - 2) % 2 == n % 2
  {
  }

  /** A run of n underscores followed by a string that does not start with `_`
      shrinks to n mod 2 underscores, and the rest is treated on its own. */
  lemma {:induction false} UnderscoreRunBefore(n: nat, y: string)
    requires y == [] || y[0] != '_'
    ensures RemoveAll(Underscores(n) + y, "__") == Underscores(n % 2) + RemoveAll(y, "__")
  {
    var s := Underscores(n) + y;
    if n >= 2 {
      PairStep(s);
      assert s[2..] == Underscores(n - 2) + y;
      UnderscoreRunBefore(n - 2, y);
      ParityStep(n);
    } else if n == 1 {
      SingleStep(s);
      assert s[1..] == y;
      assert [s[0]] == Underscores(n % 2);
    } else {
      assert s == y;
      assert Underscores(n % 2) == [];
    }
  }

  /** A run of n underscores between two strings that do not touch it with an
      underscore shrinks to n mod 2 underscores; both sides are treated on their own. */
  lemma UnderscoreRunInside(x: string, n: nat, y: string)
    requires x == [] || x[|x| - 1] != '_'
    requires y == [] || y[0] != '_'
    ensures RemoveAll(x + Underscores(n) + y, "__") ==
              RemoveAll(x, "__") + Underscores(n % 2) + RemoveAll(y, "__")
  {
    assert x + Underscores(n) + y == x + (Underscores(n) + y);
    RemovePairsSplit(x, Underscores(n) + y);
    UnderscoreRunBefore(n, y);
  }

  /** A tag starting with `_` leaves a string without underscores unchanged. */
  lemma {:induction false} RemoveAllNoUnderscore(s: string, pat: string)
    requires |pat| > 0 && pat[0] == '_' && '_' !in s
    ensures RemoveAll(s, pat) == s
    decreases |s|
  {
    if |s| >= |pat| {
      assert s[..|pat|][0] == s[0] != '_';
      RemoveAllNoUnderscore(s[1..], pat);
      assert s == [s[0]] + s[1..];
    }
  }

  lemma {:induction false} RemoveTagsNoUnderscore(s: string, k: nat)
    requires k <= TagCount && '_' !in s
    ensures RemoveTags(s, k) == s
  {
    if k > 0 {
      RemoveTagsNoUnderscore(s, k - 1);
      RemoveAllNoUnderscore(s, Tag(k - 1));
    }
  }

  lemma {:induction false} KeepAllowedIdentity(s: string)
    requires AllKept(s)
    ensures KeepAllowed(s) == s
  {
    if s != [] {
      KeepAllowedIdentity(s[..|s| - 1]);
    }
  }

  lemma TrimRightKeeps(t: string)
    ensures AllKept(t) ==> AllKept(TrimRight(t))
    ensures NoDoubleUnderscore(t) ==> NoDoubleUnderscore(TrimRight(t))
  {
  }

  lemma TrimLeftKeeps(t: string)
    ensures AllKept(t) ==> AllKept(TrimLeft(t))
    ensures NoDoubleUnderscore(t) ==> NoDoubleUnderscore(TrimLeft(t))
  {
  }

  /** Trimming and the two checks keep a piece of their input, or nothing, so they
      keep both the alphabet and the absence of "__". */
  lemma FinishKeeps(t: string)
    ensures AllKept(t) ==> AllKept(Finish(t))
    ensures NoDoubleUnderscore(t) ==> NoDoubleUnderscore(Finish(t))
  {
    TrimRightKeeps(t);
    TrimLeftKeeps(TrimRight(t));
  }

  /** A string that is already a key passes trimming and both checks unchanged. */
  lemma FinishOfKey(u: string)
    requires u != [] && u[0] != ' ' && u[|u| - 1] != ' ' && u[|u| - 1] != '_' && ' ' in u
    ensures Finish(u) == u
  {
    assert TrimRight(u) == u;
    assert TrimLeft(u) == u;
  }

  // ---------------------------------------------------------------------------
  // Properties of clean_string

  /** A phrase with a digit anywhere is rejected. */
  lemma CleanRejectsDigits(s: string)
    requires HasDigit(s)
    ensures Clean(s) == ""
  {
    LowerKeepsDigits(s);
  }

  /** Every character of a key is a-z, space or underscore. */
  lemma CleanAlphabet(s: string)
    ensures AllKept(Clean(s))
  {
    if !HasDigit(Lower(s)) {
      var f := KeepAllowed(Lower(s));
      KeepAllowedKeeps(Lower(s));
      RemoveTagsKeeps(f, TagCount);
      FinishKeeps(RemoveTags(f, TagCount));
    }
  }

  /** A key is either empty or has no space at either end, has an interior space (so
      at least two non-empty words) and does not end with " _". */
  lemma CleanShape(s: string)
    ensures var r := Clean(s);
      r == [] ||
      (r[0] != ' ' && r[|r| - 1] != ' ' && !EndsWithSpaceUnderscore(r) &&
       exists i :: 0 < i < |r| - 1 && r[i] == ' ')
  {
    var r := Clean(s);
    if r != [] {
      assert ' ' in r;
      var i :| 0 <= i < |r| && r[i] == ' ';
      assert 0 < i < |r| - 1;
    }
  }

  /** A key never holds two adjacent underscores. */
  lemma CleanNoDoubleUnderscore(s: string)
    ensures NoDoubleUnderscore(Clean(s))
  {
    if !HasDigit(Lower(s)) {
      var f := RemoveTags(KeepAllowed(Lower(s)), 12);
      assert RemoveTags(KeepAllowed(Lower(s)), TagCount) == RemoveAll(f, "__");
      RemoveDoubleUnderscoreClears(f);
      FinishKeeps(RemoveAll(f, "__"));
    }
  }

  /** A phrase of ASCII letters in either case and spaces, with no space at either end
      and at least one inside, is its own key after lower-casing: upper-case letters are
      kept as their lower-case forms and nothing else changes. */
  lemma CleanPlainPhrase(s: string)
    requires forall i :: 0 <= i < |s| ==> IsLowerAlpha(s[i]) || IsUpperAlpha(s[i]) || s[i] == ' '
    requires s != [] && s[0] != ' ' && s[|s| - 1] != ' ' && ' ' in s
    ensures Clean(s) == Lower(s)
  {
    var l := Lower(s);
    assert !HasDigit(l) by {
      forall i | 0 <= i < |l| ensures !IsDigit(l[i]) {
        assert l[i] == LowerChar(s[i]);
      }
    }
    assert AllKept(l) by {
      forall i | 0 <= i < |l| ensures Kept(l[i]) {
        assert l[i] == LowerChar(s[i]);
      }
    }
    KeepAllowedIdentity(l);
    assert '_' !in l;
    RemoveTagsNoUnderscore(l, TagCount);
    var i :| 0 <= i < |s| && s[i] == ' ';
    assert l[i] == ' ';
    FinishOfKey(l);
  }
}
