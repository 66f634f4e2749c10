/**
 Role names and the code made from them.

 A name is a string of characters. `LowerChar` gives the lower-case form of every character
 whose lower-case form contains a character the code can keep: the Latin capitals, the
 Kelvin sign and the dotted capital I. Any other letter, in either case, is dropped.
 */
module RoleRules {
  import opened Options

  const NAME_MIN := 2
  const NAME_MAX := 50
  const SLUG_MIN := 2

  /** What `\s` matches and `trim` removes. */
  predicate IsSpace(c: char) {
    || 0x09 <= c as int <= 0x0D
    || c as int in {0x20, 0xA0, 0x1680, 0x2028, 0x2029, 0x202F, 0x205F, 0x3000, 0xFEFF}
    || 0x2000 <= c as int <= 0x200A
  }

  predicate IsSlugAlnum(c: char) {
    'a' <= c <= 'z' || '0' <= c <= '9'
  }

  // ---------- The five passes ----------

  function LowerChar(c: char): string {
    if 'A' <= c <= 'Z' then [(c as int + 32) as char]
    else if c as int == 0x130 then ['i', 0x307 as char]
    else if c as int == 0x212A then ['k']
    else [c]
  }

  function ToLowerCase(s: string): string {
    if s == [] then [] else LowerChar(s[0]) + ToLowerCase(s[1..])
  }

  function TrimStart(s: string): string {
    if s != [] && IsSpace(s[0]) then TrimStart(s[1..]) else s
  }

  function TrimEnd(s: string): string {
    if s != [] && IsSpace(s[|s| - 1]) then TrimEnd(s[..|s| - 1]) else s
  }

  function Trim(s: string): string {
    TrimEnd(TrimStart(s))
  }

  predicate Kept(c: char) {
    IsSlugAlnum(c) || IsSpace(c) || c == '-'
  }

  /** `replace(/[^a-z0-9\s-]/g, '')` */
  function Strip(s: string): string {
    if s == [] then [] else (if Kept(s[0]) then [s[0]] else []) + Strip(s[1..])
  }

  /** `replace(/\s+/g, '-')` */
  function DashSpaces(s: string): string {
    if s == [] then []
    else if !IsSpace(s[0]) then [s[0]] + DashSpaces(s[1..])
    else if |s| > 1 && IsSpace(s[1]) then DashSpaces(s[1..])
    else ['-'] + DashSpaces(s[1..])
  }

  /** `replace(/-+/g, '-')` */
  function CollapseDashes(s: string): string {
    if s == [] then []
    else if s[0] == '-' && |s| > 1 && s[1] == '-' then CollapseDashes(s[1..])
    else [s[0]] + CollapseDashes(s[1..])
  }

  function RoleSlug(name: string): string {
    CollapseDashes(DashSpaces(Strip(Trim(ToLowerCase(name)))))
  }

  datatype Problem = Required | Characters | TooShort | TooLong | CodeTooShort

  predicate NameChar(c: char) {
    'a' <= c <= 'z' || 'A' <= c <= 'Z' || '0' <= c <= '9' || IsSpace(c) || c == '-'
  }

  function RoleNameProblem(name: string): Option<Problem> {
    if |name| == 0 then Some(Required)
    else if exists c | c in name :: !NameChar(c) then Some(Characters)
    else if |name| < NAME_MIN then Some(TooShort)
    else if |name| > NAME_MAX then Some(TooLong)
    else if |RoleSlug(name)| < SLUG_MIN then Some(CodeTooShort)
    else None
  }

  // ---------- One scan instead of four passes ----------

  /** Scans a trimmed string; `dashed` says the last character written was a hyphen. */
  function Scan(s: string, dashed: bool): string {
    if s == [] then []
    else if IsSlugAlnum(s[0]) then [s[0]] + Scan(s[1..], false)
    else if !Kept(s[0]) then Scan(s[1..], dashed)
    else if dashed then Scan(s[1..], true)
    else ['-'] + Scan(s[1..], true)
  }

  /**
   Scans a string left to right and trims as it goes: a blank is only held in `pending`
   until something that is not blank follows it, and is skipped before anything was seen.
   */
  function SlugScan(s: string, started: bool, pending: bool, dashed: bool): string {
    if s == [] then []
    else if IsSpace(s[0]) then SlugScan(s[1..], started, started, dashed)
    else
      var hyphen := if (pending || s[0] == '-') && !dashed then ['-'] else [];
      var nowDashed := dashed || pending || s[0] == '-';
      if IsSlugAlnum(s[0]) then hyphen + [s[0]] + SlugScan(s[1..], true, false, false)
      else hyphen + SlugScan(s[1..], true, false, nowDashed)
  }

  lemma {:induction false} StripFirstChangesNothing(s: string, dashed: bool)
    ensures Scan(Strip(s), dashed) == Scan(s, dashed)
  {
    if s != [] {
      StripFirstChangesNothing(s[1..], dashed);
      StripFirstChangesNothing(s[1..], true);
      StripFirstChangesNothing(s[1..], false);
      if Kept(s[0]) {
        assert Strip(s)[1..] == Strip(s[1..]);
      } else {
        assert Strip(s) == Strip(s[1..]);
      }
    }
  }

  lemma {:induction false} StripKeeps(s: string)
    ensures forall c :: c in Strip(s) ==> Kept(c)
  {
    if s != [] {
      StripKeeps(s[1..]);
    }
  }

  lemma CollapseFirst(c: char, s: string)
    ensures CollapseDashes([c] + s) ==
      if c == '-' && s != [] && s[0] == '-' then CollapseDashes(s) else [c] + CollapseDashes(s)
  {
    assert ([c] + s)[1..] == s;
  }

  /** The last two passes, over a string of kept characters, are one scan. */
  lemma {:induction false} DashingIsScanning(s: string)
    requires forall c :: c in s ==> Kept(c)
    ensures CollapseDashes(DashSpaces(s)) == Scan(s, false)
    ensures CollapseDashes(['-'] + DashSpaces(s)) == ['-'] + Scan(s, true)
  {
    CollapseFirst('-', DashSpaces(s));
    if s != [] {
      var rest := s[1..];
      DashingIsScanning(rest);
      CollapseFirst(s[0], DashSpaces(rest));
      CollapseFirst('-', DashSpaces(rest));
      CollapseFirst('-', ['-'] + DashSpaces(rest));
      if IsSpace(s[0]) && |s| > 1 && IsSpace(s[1]) {
        assert Scan(rest, false) == ['-'] + Scan(rest, true);
      }
    }
  }

  predicate Blank(s: string) {
    forall c :: c in s ==> IsSpace(c)
  }

  lemma {:induction false} TrimEndFromTheLeft(s: string)
    ensures Blank(s) ==> TrimEnd(s) == []
    ensures s != [] && !Blank(s) ==>
      TrimEnd(s) == [s[0]] + (if Blank(s[1..]) then [] else TrimEnd(s[1..]))
    decreases |s|
  {
    if s != [] {
      var n := |s| - 1;
      assert s == s[..n] + [s[n]];
      TrimEndFromTheLeft(s[..n]);
      if !Blank(s) && IsSpace(s[n]) && n > 0 {
        assert s[1..] == s[..n][1..] + [s[n]];
        assert s[1..][..n - 1] == s[..n][1..];
      }
      if !Blank(s) && n == 0 {
        assert s[1..] == [];
      }
    }
  }

  lemma CharKinds(c: char)
    ensures IsSpace(c) ==> !IsSlugAlnum(c) && c != '-'
    ensures !IsSlugAlnum('-')
  {}

  lemma ScanFirst(c: char, s: string, dashed: bool)
    ensures Scan([c] + s, dashed) ==
      if IsSlugAlnum(c) then [c] + Scan(s, false)
      else if !Kept(c) then Scan(s, dashed)
      else if dashed then Scan(s, true)
      else ['-'] + Scan(s, true)
  {
    assert ([c] + s)[1..] == s;
  }

  /** What is left of a string once its trailing blanks are gone. */
  function Rest(s: string): string {
    if Blank(s) then [] else TrimEnd(s)
  }

  lemma RestFirst(s: string)
    requires s != [] && !Blank(s)
    ensures Rest(s) == [s[0]] + Rest(s[1..])
    ensures IsSpace(s[0]) ==> !Blank(s[1..])
  {
    TrimEndFromTheLeft(s);
    assert s == [s[0]] + s[1..];
  }

  /** What scanning on gives once something was seen: what is left without its trailing blanks. */
  function ScanOn(s: string, pending: bool, dashed: bool): string {
    if pending && !Blank(s) then Scan(['-'] + Rest(s), dashed) else Scan(Rest(s), dashed)
  }

  lemma ScanOnSpace(s: string, pending: bool, dashed: bool)
    requires s != [] && IsSpace(s[0])
    ensures ScanOn(s, pending, dashed) == ScanOn(s[1..], true, dashed)
  {
    hide IsSpace, IsSlugAlnum, TrimEnd, Scan;
    CharKinds(s[0]);
    if !Blank(s) {
      RestFirst(s);
      ScanFirst('-', Rest(s), dashed);
      ScanFirst('-', Rest(s[1..]), dashed);
      ScanFirst(s[0], Rest(s[1..]), dashed);
      ScanFirst(s[0], Rest(s[1..]), true);
      CharKinds('-');
    } else {
      assert s == [s[0]] + s[1..];
    }
  }

  lemma ScanOnOther(s: string, pending: bool, dashed: bool)
    requires s != [] && !IsSpace(s[0])
    ensures ScanOn(s, pending, dashed) ==
      if pending then Scan(['-', s[0]] + Rest(s[1..]), dashed) else Scan([s[0]] + Rest(s[1..]), dashed)
  {
    hide IsSpace, IsSlugAlnum, TrimEnd, Scan;
    assert s == [s[0]] + s[1..] && !Blank(s);
    RestFirst(s);
    assert ['-'] + ([s[0]] + Rest(s[1..])) == ['-', s[0]] + Rest(s[1..]);
  }

  /** The hyphen a held blank leaves, and what a character that is not blank adds to what follows it. */
  function Past(c: char, pending: bool, dashed: bool, clean: string, same: string, after: string): string {
    (if pending && !dashed then ['-'] else []) +
    if IsSlugAlnum(c) then [c] + clean
    else if c != '-' then same
    else (if dashed || pending then [] else ['-']) + after
  }

  lemma SlugScanPast(s: string, pending: bool, dashed: bool)
    requires s != [] && !IsSpace(s[0])
    ensures SlugScan(s, true, pending, dashed) ==
      Past(s[0], pending, dashed, SlugScan(s[1..], true, false, false),
           SlugScan(s[1..], true, false, dashed || pending), SlugScan(s[1..], true, false, true))
  {
    hide IsSpace, IsSlugAlnum;
    CharKinds(s[0]);
    var hyphen: string := if pending && !dashed then ['-'] else [];
    var rest := SlugScan(s[1..], true, false, false);
    assert hyphen + ([s[0]] + rest) == hyphen + [s[0]] + rest;
  }

  lemma {:induction false} ScanAfterStart(s: string, pending: bool, dashed: bool)
    ensures SlugScan(s, true, pending, dashed) == ScanOn(s, pending, dashed)
  {
    if s == [] {
      ScanOnNothing(pending, dashed);
    } else if IsSpace(s[0]) {
      hide ScanOn, Scan, IsSpace;
      ScanAfterStart(s[1..], true, dashed);
      ScanOnSpace(s, pending, dashed);
    } else {
      hide *;
      SlugScanPast(s, pending, dashed);
      ScanOnOther(s, pending, dashed);
      ScanPast(s[0], s[1..], pending, dashed);
      ScanAfterStart(s[1..], false, false);
      ScanAfterStart(s[1..], false, true);
      NothingPending(s[1..], false);
      NothingPending(s[1..], true);
    }
  }

  lemma ScanOnNothing(pending: bool, dashed: bool)
    ensures ScanOn([], pending, dashed) == []
  {}

  lemma NothingPending(s: string, dashed: bool)
    ensures ScanOn(s, false, dashed) == Scan(Rest(s), dashed)
  {}

  lemma ScanPast(c: char, s: string, pending: bool, dashed: bool)
    requires !IsSpace(c)
    ensures (if pending then Scan(['-', c] + Rest(s), dashed) else Scan([c] + Rest(s), dashed)) ==
      Past(c, pending, dashed, Scan(Rest(s), false), Scan(Rest(s), dashed || pending), Scan(Rest(s), true))
  {
    hide IsSpace, IsSlugAlnum, Rest, Scan;
    CharKinds('-');
    assert ['-', c] + Rest(s) == ['-'] + ([c] + Rest(s));
    ScanFirst('-', [c] + Rest(s), dashed);
    ScanFirst(c, Rest(s), dashed);
    ScanFirst(c, Rest(s), true);
  }

  lemma {:induction false} ScanFromStart(s: string)
    ensures SlugScan(s, false, false, false) == Scan(Trim(s), false)
  {
    if s != [] && IsSpace(s[0]) {
      ScanFromStart(s[1..]);
    } else if s != [] {
      ScanAfterStart(s, false, false);
      assert !Blank(s);
    }
  }

  /** Trimming, stripping, dashing and collapsing are one left-to-right scan. */
  lemma SlugIsOneScan(name: string)
    ensures RoleSlug(name) == SlugScan(ToLowerCase(name), false, false, false)
  {
    var trimmed := Trim(ToLowerCase(name));
    StripKeeps(trimmed);
    DashingIsScanning(Strip(trimmed));
    StripFirstChangesNothing(trimmed, false);
    ScanFromStart(ToLowerCase(name));
  }

  // ---------- What a slug looks like ----------

  /** Only a-z, 0-9 and single hyphens. */
  predicate IsSlug(s: string) {
    && (forall i :: 0 <= i < |s| ==> IsSlugAlnum(s[i]) || s[i] == '-')
    && (forall i :: 0 < i < |s| ==> s[i - 1] != '-' || s[i] != '-')
  }

  lemma {:induction false} ScanMakesSlug(s: string, dashed: bool)
    ensures IsSlug(Scan(s, dashed)) && |Scan(s, dashed)| <= |s|
    ensures dashed && Scan(s, dashed) != [] ==> Scan(s, dashed)[0] != '-'
  {
    if s != [] {
      ScanMakesSlug(s[1..], false);
      ScanMakesSlug(s[1..], true);
      ScanMakesSlug(s[1..], dashed);
    }
  }

  lemma SlugIsScanOfTrimmed(name: string)
    ensures RoleSlug(name) == Scan(Trim(ToLowerCase(name)), false)
  {
    SlugIsOneScan(name);
    ScanFromStart(ToLowerCase(name));
  }

  /** Every role's code has only a-z, 0-9 and hyphens, and no two hyphens meet. */
  lemma RoleSlugIsSlug(name: string)
    ensures IsSlug(RoleSlug(name))
  {
    SlugIsScanOfTrimmed(name);
    ScanMakesSlug(Trim(ToLowerCase(name)), false);
  }

  lemma {:induction false} SlugIsLowerAlready(s: string)
    requires IsSlug(s)
    ensures ToLowerCase(s) == s
  {
    if s != [] {
      SlugIsLowerAlready(s[1..]);
    }
  }

  lemma {:induction false} ScanKeepsSlug(s: string, dashed: bool)
    requires IsSlug(s) && (dashed && s != [] ==> s[0] != '-')
    ensures Scan(s, dashed) == s
  {
    if s != [] {
      ScanKeepsSlug(s[1..], s[0] == '-');
    }
  }

  lemma SlugOfSlug(s: string)
    requires IsSlug(s)
    ensures RoleSlug(s) == s
  {
    SlugIsLowerAlready(s);
    assert Trim(s) == s;
    ScanKeepsSlug(s, false);
    SlugIsScanOfTrimmed(s);
  }

  /** Making a code from a code gives the same code. */
  lemma RoleSlugIsIdempotent(name: string)
    ensures RoleSlug(RoleSlug(name)) == RoleSlug(name)
  {
    RoleSlugIsSlug(name);
    SlugOfSlug(RoleSlug(name));
  }

  lemma {:induction false} LowerKeepsLength(s: string)
    requires forall c :: c in s ==> NameChar(c)
    ensures |ToLowerCase(s)| == |s|
  {
    if s != [] {
      assert NameChar(s[0]);
      LowerKeepsLength(s[1..]);
    }
  }

  lemma TrimIsNoLonger(s: string)
    ensures |Trim(s)| <= |s|
  {
    TrimStartIsNoLonger(s);
    TrimEndIsNoLonger(TrimStart(s));
  }

  lemma TrimStartIsNoLonger(s: string)
    ensures |TrimStart(s)| <= |s|
  {}

  lemma TrimEndIsNoLonger(s: string)
    ensures |TrimEnd(s)| <= |s|
  {}

  /** An accepted name makes a code that fits, holds a letter or digit, and is itself accepted. */
  lemma AcceptedNameMakesAcceptedSlug(name: string)
    requires RoleNameProblem(name) == None
    ensures SLUG_MIN <= |RoleSlug(name)| <= NAME_MAX
    ensures exists i :: 0 <= i < |RoleSlug(name)| && IsSlugAlnum(RoleSlug(name)[i])
    ensures RoleNameProblem(RoleSlug(name)) == None
  {
    var slug := RoleSlug(name);
    var trimmed := Trim(ToLowerCase(name));
    LowerKeepsLength(name);
    TrimIsNoLonger(ToLowerCase(name));
    ScanMakesSlug(trimmed, false);
    SlugIsScanOfTrimmed(name);
    SlugOfSlug(slug);
    assert IsSlugAlnum(slug[0]) || IsSlugAlnum(slug[1]);
  }

  /** The letters and digits a code keeps. */
  lemma AlnumsAre(c: char)
    ensures IsSlugAlnum(c) <==> c in "abcdefghijklmnopqrstuvwxyz" || c in "0123456789"
  {}

  /** The white space that is trimmed and dashed. */
  lemma SpacesAre(c: char)
    ensures IsSpace(c) <==>
      || c as int in {9, 10, 11, 12, 13, 32, 160, 5760, 8232, 8233, 8239, 8287, 12288, 65279}
      || c as int in {8192, 8193, 8194, 8195, 8196, 8197, 8198, 8199, 8200, 8201, 8202}
  {}

  /** What a name may hold and what the stripping keeps, beside blanks. */
  lemma NameCharsAre(c: char)
    ensures NameChar(c) <==> IsSlugAlnum(c) || c in "ABCDEFGHIJKLMNOPQRSTUVWXYZ" || c == '-' || IsSpace(c)
    ensures Kept(c) <==> IsSlugAlnum(c) || c == '-' || IsSpace(c)
  {
    hide IsSpace;
  }

  lemma TwoLettersBecomeLatin()
    ensures LowerChar(0x130 as char) == ['i', 0x307 as char] && LowerChar(0x212A as char) == ['k']
  {}

  /** A run of blanks becomes one hyphen. */
  lemma {:induction false} BlanksBecomeOneHyphen(s: string)
    requires s != [] && Blank(s)
    ensures DashSpaces(s) == ['-']
  {
    if |s| > 1 { BlanksBecomeOneHyphen(s[1..]); }
  }

  // ---------- What a slug keeps ----------

  /** A Latin letter or digit keeps its place in the alphabet and loses its case; the rest of ASCII stays. */
  lemma LowerCaseIs(c: char)
    ensures 'A' <= c <= 'Z' ==>
      |LowerChar(c)| == 1 && 'a' <= LowerChar(c)[0] <= 'z' && LowerChar(c)[0] as int - 'a' as int == c as int - 'A' as int
    ensures c as int < 128 && !('A' <= c <= 'Z') ==> LowerChar(c) == [c]
    ensures (exists d :: d in LowerChar(c) && 'a' <= d <= 'z') ==>
      'a' <= c <= 'z' || 'A' <= c <= 'Z' || c as int == 0x130 || c as int == 0x212A
  {}

  /** The letters and digits of a string, in order. */
  function Alnums(s: string): string {
    if s == [] then [] else (if IsSlugAlnum(s[0]) then [s[0]] else []) + Alnums(s[1..])
  }

  lemma {:induction false} ScanKeepsAlnums(s: string, dashed: bool)
    ensures Alnums(Scan(s, dashed)) == Alnums(s)
  {
    if s != [] {
      ScanKeepsAlnums(s[1..], false);
      ScanKeepsAlnums(s[1..], true);
      ScanKeepsAlnums(s[1..], dashed);
      CharKinds('-');
      FirstAlnum(s[0], Scan(s[1..], false));
      FirstAlnum('-', Scan(s[1..], true));
    }
  }

  lemma FirstAlnum(c: char, s: string)
    ensures Alnums([c] + s) == (if IsSlugAlnum(c) then [c] else []) + Alnums(s)
  {
    assert ([c] + s)[1..] == s;
  }

  lemma {:induction false} AlnumsJoin(s: string, t: string)
    ensures Alnums(s + t) == Alnums(s) + Alnums(t)
  {
    hide IsSlugAlnum;
    if s == [] {
      assert s + t == t;
    } else {
      var first := if IsSlugAlnum(s[0]) then [s[0]] else [];
      assert (s + t)[0] == s[0] && (s + t)[1..] == s[1..] + t;
      AlnumsJoin(s[1..], t);
      assert Alnums(s + t) == first + Alnums(s[1..] + t);
      assert first + (Alnums(s[1..]) + Alnums(t)) == first + Alnums(s[1..]) + Alnums(t);
    }
  }

  lemma {:induction false} NoAlnumInBlanks(s: string)
    requires Blank(s)
    ensures Alnums(s) == []
  {
    if s != [] {
      CharKinds(s[0]);
      NoAlnumInBlanks(s[1..]);
    }
  }

  lemma {:induction false} TrimStartKeepsAlnums(s: string)
    ensures Alnums(TrimStart(s)) == Alnums(s)
  {
    if s != [] && IsSpace(s[0]) {
      CharKinds(s[0]);
      TrimStartKeepsAlnums(s[1..]);
    }
  }

  lemma {:induction false} TrimEndKeepsAlnums(s: string)
    ensures Alnums(TrimEnd(s)) == Alnums(s)
  {
    if s != [] && IsSpace(s[|s| - 1]) {
      var n := |s| - 1;
      assert s == s[..n] + s[n..];
      AlnumsJoin(s[..n], s[n..]);
      NoAlnumInBlanks(s[n..]);
      TrimEndKeepsAlnums(s[..n]);
    }
  }

  /** A code keeps every letter and digit of the lower-cased name, in order, and adds nothing but hyphens. */
  lemma SlugKeepsEveryLetter(name: string)
    ensures Alnums(RoleSlug(name)) == Alnums(ToLowerCase(name))
  {
    var lower := ToLowerCase(name);
    SlugIsScanOfTrimmed(name);
    ScanKeepsAlnums(Trim(lower), false);
    TrimEndKeepsAlnums(TrimStart(lower));
    TrimStartKeepsAlnums(lower);
  }

  /** Where the pattern allows a name, what each problem means in the order they are told. */
  lemma ProblemsMean(name: string)
    ensures RoleNameProblem(name) == Some(Required) <==> name == []
    ensures RoleNameProblem(name) == Some(Characters) <==> exists c :: c in name && !NameChar(c)
    ensures RoleNameProblem(name) == Some(TooShort) <==> |name| == 1 && NameChar(name[0])
    ensures RoleNameProblem(name) == Some(TooLong) <==> |name| > 50 && forall c :: c in name ==> NameChar(c)
    ensures RoleNameProblem(name) == Some(CodeTooShort) <==>
      2 <= |name| <= 50 && (forall c :: c in name ==> NameChar(c)) && |RoleSlug(name)| < 2
  {
    if |name| == 1 { assert name[0] in name; }
  }
}
