/** ASCII letter case. */
module Text {
  function Lower(c: char): char {
    if 'A' <= c <= 'Z' then c + 32 as char else c
  }

  function Upper(c: char): char {
    if 'a' <= c <= 'z' then c - 32 as char else c
  }

  function ToLower(s: string): (r: string)
    ensures |r| == |s| && forall i :: 0 <= i < |s| ==> r[i] == Lower(s[i])
  {
    seq(|s|, i requires 0 <= i < |s| => Lower(s[i]))
  }

  /** The 26 capitals go to the 26 small letters and back, and every other character stays. */
  lemma LetterCase(i: nat, c: char)
    requires i < 26
    ensures var capitals, smalls := "ABCDEFGHIJKLMNOPQRSTUVWXYZ", "abcdefghijklmnopqrstuvwxyz";
            && Lower(capitals[i]) == smalls[i] && Upper(smalls[i]) == capitals[i]
            && (c !in capitals ==> Lower(c) == c)
            && (c !in smalls ==> Upper(c) == c)
  {
    var capitals, smalls := "ABCDEFGHIJKLMNOPQRSTUVWXYZ", "abcdefghijklmnopqrstuvwxyz";
    if 'A' <= c <= 'Z' { assert capitals[c as int - 'A' as int] == c; }
    if 'a' <= c <= 'z' { assert smalls[c as int - 'a' as int] == c; }
  }
}
