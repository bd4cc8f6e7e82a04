/** The few `java.lang.String` operations the services rely on, restricted to
    ASCII case mapping. */
module Text {

  /** `Character.toUpperCase` on the ASCII letters; every other character is kept. */
  function UpperChar(c: char): char {
    if 'a' <= c <= 'z' then (c as int - 32) as char else c
  }

  /** `String.toUpperCase`, character by character. */
  function ToUpper(s: string): (r: string)
    ensures |r| == |s|
    ensures forall i :: 0 <= i < |s| ==> r[i] == UpperChar(s[i])
  {
    if s == [] then [] else [UpperChar(s[0])] + ToUpper(s[1..])
  }

  /** `String.equalsIgnoreCase`: same length and the same characters up to case. */
  predicate EqualsIgnoreCase(s: string, t: string) {
    |s| == |t| && forall i :: 0 <= i < |s| ==> UpperChar(s[i]) == UpperChar(t[i])
  }

  /** A string with no lower-case letter is its own upper-cased form. */
  predicate IsUpper(s: string) {
    forall i :: 0 <= i < |s| ==> UpperChar(s[i]) == s[i]
  }

  /** A string that matches an upper-case word ignoring case upper-cases to that word:
      this is why a type accepted as "buy" is stored as "BUY". */
  lemma UpperOfMatch(s: string, word: string)
    requires IsUpper(word)
    requires EqualsIgnoreCase(s, word)
    ensures ToUpper(s) == word
  {
    var u := ToUpper(s);
    assert |u| == |word|;
    forall i | 0 <= i < |u| ensures u[i] == word[i] {
      assert u[i] == UpperChar(s[i]) == UpperChar(word[i]) == word[i];
    }
  }

  /** Java's `String.trim` removes every leading and trailing character up to U+0020. */
  predicate IsTrimmed(c: char) {
    c <= ' '
  }

  function TrimStart(s: string): (r: string)
    ensures |r| <= |s| && r == s[|s| - |r|..]
    ensures r != [] ==> !IsTrimmed(r[0])
    ensures forall i :: 0 <= i < |s| - |r| ==> IsTrimmed(s[i])
  {
    if s == [] || !IsTrimmed(s[0]) then s else TrimStart(s[1..])
  }

  function TrimEnd(s: string): (r: string)
    ensures |r| <= |s| && r == s[..|r|]
    ensures r != [] ==> !IsTrimmed(r[|r| - 1])
    ensures forall i :: |r| <= i < |s| ==> IsTrimmed(s[i])
  {
    if s == [] || !IsTrimmed(s[|s| - 1]) then s else TrimEnd(s[..|s| - 1])
  }

  function Trim(s: string): string {
    TrimEnd(TrimStart(s))
  }

  /** `username.trim().isEmpty()` holds exactly when every character is at most U+0020. */
  lemma {:induction false} TrimEmptyIffBlank(s: string)
    ensures Trim(s) == [] <==> forall i :: 0 <= i < |s| ==> IsTrimmed(s[i])
  {
    var t := TrimStart(s);
    if t == [] {
      assert TrimEnd(t) == [];
    } else {
      assert !IsTrimmed(t[0]) && t[0] == s[|s| - |t|];
      assert TrimEnd(t) != [] by {
        assert 0 < |t| && !IsTrimmed(t[0]);
      }
    }
  }
}
