/**
 The canonical form of a stored address, as the migration's aggregation expression
 computes it: trim both ends, then lower-case.

 `$trim` removes the characters listed in `IsBlank`; `$toLower` is only defined on ASCII
 letters, so only those change case.
 */
module Addresses {

  predicate IsBlank(c: char) {
    || c as int == 0
    || 0x09 <= c as int <= 0x0D
    || c as int in {0x20, 0xA0, 0x1680}
    || 0x2000 <= c as int <= 0x200A
  }

  function TrimStart(s: string): string {
    if s != [] && IsBlank(s[0]) then TrimStart(s[1..]) else s
  }

  function TrimEnd(s: string): string {
    if s != [] && IsBlank(s[|s| - 1]) then TrimEnd(s[..|s| - 1]) else s
  }

  function LowerChar(c: char): char {
    if 'A' <= c <= 'Z' then (c as int + 32) as char else c
  }

  function Lower(s: string): string {
    seq(|s|, i requires 0 <= i < |s| => LowerChar(s[i]))
  }

  function Normalise(s: string): string {
    Lower(TrimEnd(TrimStart(s)))
  }

  predicate Canonical(s: string) {
    Normalise(s) == s
  }

  /** No blank is left at either end. */
  predicate Trimmed(s: string) {
    s == [] || (!IsBlank(s[0]) && !IsBlank(s[|s| - 1]))
  }

  lemma TrimStartLeavesNoLeadingBlank(s: string)
    ensures TrimStart(s) == [] || !IsBlank(TrimStart(s)[0])
  {}

  lemma TrimEndKeepsTheStart(s: string)
    ensures TrimEnd(s) <= s
    ensures TrimEnd(s) == [] || !IsBlank(TrimEnd(s)[|TrimEnd(s)| - 1])
  {}

  /** Normalising twice is normalising once: every normalised address is canonical. */
  lemma NormaliseIdempotent(s: string)
    ensures Canonical(Normalise(s))
  {
    var n := TrimEnd(TrimStart(s));
    TrimStartLeavesNoLeadingBlank(s);
    TrimEndKeepsTheStart(TrimStart(s));
    assert Trimmed(n);
    assert Trimmed(Lower(n));
    assert Lower(Lower(n)) == Lower(n);
  }

  // ---------- What the normal form is ----------

  predicate IsCapital(c: char) {
    'A' <= c <= 'Z'
  }

  /** The same character, or the two cases of one ASCII letter. */
  predicate SameLetter(c: char, d: char) {
    || c == d
    || (IsCapital(c) && 'a' <= d <= 'z' && c as int - 'A' as int == d as int - 'a' as int)
    || (IsCapital(d) && 'a' <= c <= 'z' && d as int - 'A' as int == c as int - 'a' as int)
  }

  predicate SameUpToCase(s: string, t: string) {
    |s| == |t| && forall i :: 0 <= i < |s| ==> SameLetter(s[i], t[i])
  }

  predicate NoCapital(s: string) {
    forall i :: 0 <= i < |s| ==> !IsCapital(s[i])
  }

  predicate AllBlank(s: string) {
    forall i :: 0 <= i < |s| ==> IsBlank(s[i])
  }

  /** `s[a..b]` is what is left of `s` once the blanks at both ends are gone. */
  predicate IsMiddle(s: string, a: nat, b: nat) {
    a <= b <= |s| && AllBlank(s[..a]) && AllBlank(s[b..]) && Trimmed(s[a..b])
  }

  /** The two differ only in the case of ASCII letters and in blanks around them. */
  ghost predicate SpelledAlike(s: string, t: string) {
    exists a: nat, b: nat, c: nat, d: nat ::
      IsMiddle(s, a, b) && IsMiddle(t, c, d) && SameUpToCase(s[a..b], t[c..d])
  }

  /** The blanks that are trimmed are the null character and the white space of the database's list. */
  lemma BlanksAreListed(c: char)
    ensures IsBlank(c) <==>
      c as int in {0, 9, 10, 11, 12, 13, 32, 160, 5760, 8192, 8193, 8194, 8195, 8196, 8197, 8198, 8199, 8200, 8201, 8202}
  {}

  lemma {:induction false} TrimStartIs(s: string) returns (a: nat)
    ensures a <= |s| && TrimStart(s) == s[a..] && AllBlank(s[..a])
  {
    a := 0;
    if s != [] && IsBlank(s[0]) {
      var rest := TrimStartIs(s[1..]);
      a := rest + 1;
      assert s[a..] == s[1..][rest..];
      assert forall i :: 1 <= i < a ==> s[i] == s[1..][..rest][i - 1];
    }
  }

  lemma {:induction false} TrimEndIs(s: string) returns (b: nat)
    ensures b <= |s| && TrimEnd(s) == s[..b] && AllBlank(s[b..])
  {
    b := |s|;
    if s != [] && IsBlank(s[|s| - 1]) {
      var n := |s| - 1;
      b := TrimEndIs(s[..n]);
      assert s[..n][..b] == s[..b];
      assert forall i :: b <= i < n ==> s[i] == s[..n][b..][i - b];
    }
  }

  lemma TrimmingIs(s: string) returns (a: nat, b: nat)
    ensures IsMiddle(s, a, b) && TrimEnd(TrimStart(s)) == s[a..b]
  {
    a := TrimStartIs(s);
    var n := TrimEndIs(s[a..]);
    b := a + n;
    assert s[a..][..n] == s[a..b] && s[a..][n..] == s[b..];
    TrimStartLeavesNoLeadingBlank(s);
    TrimEndKeepsTheStart(TrimStart(s));
  }

  lemma LowerIsUpToCase(s: string)
    ensures NoCapital(Lower(s)) && SameUpToCase(Lower(s), s)
  {}

  /**
   The normal form has no capital letter and no blank at either end, and is what is left of the
   address without its outer blanks, up to the case of its letters.
   */
  lemma NormalFormIs(s: string)
    ensures NoCapital(Normalise(s)) && Trimmed(Normalise(s))
    ensures exists a: nat, b: nat :: IsMiddle(s, a, b) && SameUpToCase(Normalise(s), s[a..b])
    ensures SpelledAlike(Normalise(s), s)
  {
    var a, b := TrimmingIs(s);
    LowerIsUpToCase(s[a..b]);
    var n := Normalise(s);
    assert SameUpToCase(n, s[a..b]);
    assert Trimmed(n);
    assert IsMiddle(n, 0, |n|) && n[0..|n|] == n;
  }

  lemma NoBlankOutside(s: string, a: nat, b: nat, i: nat)
    requires IsMiddle(s, a, b) && i < |s|
    ensures IsBlank(s[i]) || a <= i < b
  {
    assert forall j :: 0 <= j < a ==> s[..a][j] == s[j];
    assert forall j :: b <= j < |s| ==> s[b..][j - b] == s[j];
  }

  lemma MiddleIsUnique(s: string, a: nat, b: nat, c: nat, d: nat)
    requires IsMiddle(s, a, b) && IsMiddle(s, c, d)
    ensures s[a..b] == s[c..d]
  {
    if a < b {
      assert s[a..b][0] == s[a] && s[a..b][b - a - 1] == s[b - 1];
      NoBlankOutside(s, c, d, a);
      NoBlankOutside(s, c, d, b - 1);
    }
    if c < d {
      assert s[c..d][0] == s[c] && s[c..d][d - c - 1] == s[d - 1];
      NoBlankOutside(s, a, b, c);
      NoBlankOutside(s, a, b, d - 1);
    }
  }

  lemma LowerTellsLetters(s: string, t: string)
    ensures Lower(s) == Lower(t) <==> SameUpToCase(s, t)
  {
    if Lower(s) == Lower(t) {
      forall i | 0 <= i < |s| ensures SameLetter(s[i], t[i]) {
        assert Lower(s)[i] == Lower(t)[i];
      }
    }
  }

  /** Two addresses have one normal form exactly when only case and outer blanks tell them apart. */
  lemma OneFormExactlyWhenAlike(s: string, t: string)
    ensures Normalise(s) == Normalise(t) <==> SpelledAlike(s, t)
  {
    var a, b := TrimmingIs(s);
    var c, d := TrimmingIs(t);
    LowerTellsLetters(s[a..b], t[c..d]);
    if SpelledAlike(s, t) {
      var e: nat, f: nat, g: nat, h: nat :| IsMiddle(s, e, f) && IsMiddle(t, g, h) && SameUpToCase(s[e..f], t[g..h]);
      MiddleIsUnique(s, a, b, e, f);
      MiddleIsUnique(t, c, d, g, h);
    }
  }
}
