/** The names that containers and volumes may have. */
module Identifiers {

  predicate IsAlnum(c: char) { 'a' <= c <= 'z' || 'A' <= c <= 'Z' || '0' <= c <= '9' }

  predicate IsNameChar(c: char) { IsAlnum(c) || c in {'_', '.', '-'} }

  /** `identifiers.ValidateDockerCompat`: two characters at least, the first a letter or a digit. */
  predicate ValidName(s: string) {
    |s| >= 2 && IsAlnum(s[0]) && forall i :: 1 <= i < |s| ==> IsNameChar(s[i])
  }

  /** Two letters or digits make a name, and so does a letter or digit with dots, dashes and underscores; one
      character does not, nor does anything that begins like a path. */
  lemma WhatNamesAre(c: char, s: string)
    ensures ValidName([c]) == false && !ValidName("")
    ensures c in {'/', '.', '-', '_', ':', ' '} ==> !ValidName([c] + s)
    ensures 'a' <= c <= 'z' || 'A' <= c <= 'Z' || '0' <= c <= '9' ==>
      (ValidName([c] + s) <==> s != "" && forall i :: 0 <= i < |s| ==>
         'a' <= s[i] <= 'z' || 'A' <= s[i] <= 'Z' || '0' <= s[i] <= '9' || s[i] in {'_', '.', '-'})
  {
    var t := [c] + s;
    assert forall i :: 0 <= i < |s| ==> t[i + 1] == s[i];
    if forall i :: 0 <= i < |s| ==> IsNameChar(s[i]) {
      forall i | 1 <= i < |t| ensures IsNameChar(t[i]) { assert t[i] == s[i - 1]; }
    }
    if ValidName(t) {
      forall i | 0 <= i < |s| ensures IsNameChar(s[i]) { assert t[i + 1] == s[i]; }
    }
  }
}
