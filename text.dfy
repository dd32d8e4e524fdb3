/** Character helpers shared by the phrase normaliser, the dictionary build and the
    lookup side, plus the Option type that stands for Python's `None`-or-value. */
module Text {

  datatype Option<+T> = None | Some(value: T)

  predicate IsDigit(c: char) { '0' <= c <= '9' }

  predicate IsLowerAlpha(c: char) { 'a' <= c <= 'z' }

  predicate IsUpperAlpha(c: char) { 'A' <= c <= 'Z' }

  /** Python's `str.lower()` restricted to ASCII: A-Z become a-z, everything else is kept. */
  function LowerChar(c: char): (d: char)
    ensures IsUpperAlpha(c) ==> IsLowerAlpha(d) && d as int == c as int + 32
    ensures !IsUpperAlpha(c) ==> d == c
  {
    if IsUpperAlpha(c) then (c as int + 32) as char else c
  }

  function Lower(s: string): (r: string)
    ensures |r| == |s|
    ensures forall i :: 0 <= i < |s| ==> r[i] == LowerChar(s[i])
  {
    seq(|s|, i requires 0 <= i < |s| => LowerChar(s[i]))
  }

  predicate HasDigit(s: string) {
    exists i :: 0 <= i < |s| && IsDigit(s[i])
  }

  /** Lower-casing neither creates nor removes a digit. */
  lemma LowerKeepsDigits(s: string)
    ensures HasDigit(Lower(s)) <==> HasDigit(s)
  {
    if HasDigit(s) {
      var i :| 0 <= i < |s| && IsDigit(s[i]);
      assert IsDigit(Lower(s)[i]);
    }
    if HasDigit(Lower(s)) {
      var i :| 0 <= i < |s| && IsDigit(Lower(s)[i]);
      assert IsDigit(s[i]);
    }
  }
}
