/** Python's text methods, on ASCII text. */
module Texts {
  function StripLeft(s: string): string {
    if s != "" && s[0] in " \t\r\n" then StripLeft(s[1..]) else s
  }

  function StripRight(s: string): string {
    if s != "" && s[|s| - 1] in " \t\r\n" then StripRight(s[..|s| - 1]) else s
  }

  function Strip(s: string): string {
    StripRight(StripLeft(s))
  }

  function UpperChar(c: char): char {
    if 'a' <= c <= 'z' then (c as int - 32) as char else c
  }

  function Upper(s: string): (r: string)
    ensures |r| == |s|
  {
    seq(|s|, i requires 0 <= i < |s| => UpperChar(s[i]))
  }

  function LowerChar(c: char): char {
    if 'A' <= c <= 'Z' then (c as int + 32) as char else c
  }

  const CAPITALS := "ABCDEFGHIJKLMNOPQRSTUVWXYZ"
  const SMALLS := "abcdefghijklmnopqrstuvwxyz"

  lemma AlphabetAt(k: nat)
    requires k < 26
    ensures |CAPITALS| == |SMALLS| == 26 && CAPITALS[k] as int == 65 + k && SMALLS[k] as int == 97 + k
  {
  }

  lemma CapitalIff(c: char)
    ensures c in CAPITALS <==> 'A' <= c <= 'Z'
  {
    if 'A' <= c <= 'Z' {
      AlphabetAt(c as int - 65);
    }
  }

  lemma SmallIff(c: char)
    ensures c in SMALLS <==> 'a' <= c <= 'z'
  {
    if 'a' <= c <= 'z' {
      AlphabetAt(c as int - 97);
    }
  }

  /** A capital letter and the small letter at its place of the alphabet are each other's cases. */
  lemma CasesOf(k: nat)
    requires k < 26
    ensures |CAPITALS| == |SMALLS| == 26
    ensures LowerChar(CAPITALS[k]) == SMALLS[k] && UpperChar(SMALLS[k]) == CAPITALS[k]
  {
    AlphabetAt(k);
  }

  /** No other character has another case. */
  lemma OtherCharsHaveNoCase(c: char)
    ensures c !in CAPITALS ==> LowerChar(c) == c
    ensures c !in SMALLS ==> UpperChar(c) == c
  {
    if 'A' <= c <= 'Z' {
      AlphabetAt(c as int - 65);
    }
    if 'a' <= c <= 'z' {
      AlphabetAt(c as int - 97);
    }
  }

  function Lower(s: string): (r: string)
    ensures |r| == |s|
  {
    seq(|s|, i requires 0 <= i < |s| => LowerChar(s[i]))
  }

  /** Lower-casing goes character by character. */
  lemma LowerTells(s: string, i: nat, k: nat)
    requires i < |s| && k < 26
    ensures |CAPITALS| == |SMALLS| == 26
    ensures s[i] == CAPITALS[k] ==> Lower(s)[i] == SMALLS[k]
    ensures s[i] !in CAPITALS ==> Lower(s)[i] == s[i]
  {
    CasesOf(k);
    OtherCharsHaveNoCase(s[i]);
  }

  lemma UpperTells(s: string, i: nat, k: nat)
    requires i < |s| && k < 26
    ensures |CAPITALS| == |SMALLS| == 26
    ensures s[i] == SMALLS[k] ==> Upper(s)[i] == CAPITALS[k]
    ensures s[i] !in SMALLS ==> Upper(s)[i] == s[i]
  {
    CasesOf(k);
    OtherCharsHaveNoCase(s[i]);
  }

  ghost predicate Blank(s: string) {
    forall i :: 0 <= i < |s| ==> s[i] == ' ' || s[i] == '\t' || s[i] == '\r' || s[i] == '\n'
  }

  lemma {:induction false} StripLeftCuts(s: string) returns (n: nat)
    ensures n <= |s| && StripLeft(s) == s[n..] && Blank(s[..n])
    ensures n < |s| ==> !Blank([s[n]])
    decreases |s|
  {
    n := 0;
    if s != "" && s[0] in " \t\r\n" {
      var m := StripLeftCuts(s[1..]);
      n := m + 1;
      assert s[..n] == [s[0]] + s[1..][..m];
    } else if s != "" {
      assert [s[0]][0] == s[0];
    }
  }

  lemma {:induction false} StripRightCuts(s: string) returns (n: nat)
    ensures n <= |s| && StripRight(s) == s[..n] && Blank(s[n..])
    ensures n > 0 ==> !Blank([s[n - 1]])
    decreases |s|
  {
    n := |s|;
    if s != "" && s[|s| - 1] in " \t\r\n" {
      n := StripRightCuts(s[..|s| - 1]);
      assert s[n..] == s[..|s| - 1][n..] + [s[|s| - 1]];
    } else if s != "" {
      assert [s[|s| - 1]][0] == s[|s| - 1];
    }
  }

  /** Stripping takes the blanks off both ends and nothing else. */
  lemma StripCuts(s: string) returns (i: nat, j: nat)
    ensures i <= j <= |s| && Strip(s) == s[i..j] && Blank(s[..i]) && Blank(s[j..])
    ensures i < j ==> !Blank([s[i]]) && !Blank([s[j - 1]])
  {
    i := StripLeftCuts(s);
    var n := StripRightCuts(s[i..]);
    j := i + n;
    assert s[i..][..n] == s[i..j] && s[i..][n..] == s[j..];
    if i < j {
      assert s[i..][n - 1] == s[j - 1];
    }
  }
}
