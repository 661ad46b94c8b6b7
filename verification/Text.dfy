/** ASCII text helpers. */
module Text {
  import opened Wrappers

  function LowerChar(c: char): char {
    if 'A' <= c <= 'Z' then ((c as int) + 32) as char else c
  }

  function Lower(s: string): (r: string)
    ensures |r| == |s|
  {
    if s == "" then "" else [LowerChar(s[0])] + Lower(s[1..])
  }

  predicate IsSpace(c: char) {
    c == ' ' || ('\t' <= c <= '\r')
  }

  function TrimLeft(s: string): string {
    if s != "" && IsSpace(s[0]) then TrimLeft(s[1..]) else s
  }

  function TrimRight(s: string): string {
    if s != "" && IsSpace(s[|s| - 1]) then TrimRight(s[..|s| - 1]) else s
  }

  function TrimSpace(s: string): string {
    TrimRight(TrimLeft(s))
  }

  /** The parts before and after the first separator. */
  function Cut(s: string, sep: char): Option<(string, string)> {
    if s == "" then None
    else if s[0] == sep then Some(("", s[1..]))
    else
      match Cut(s[1..], sep)
      case None => None
      case Some((before, after)) => Some(([s[0]] + before, after))
  }

  /** A number in decimal digits. */
  function Digits(n: nat): (s: string)
    ensures s != "" && forall i :: 0 <= i < |s| ==> '0' <= s[i] <= '9'
  {
    var last := [('0' as int + n % 10) as char];
    if n < 10 then last else Digits(n / 10) + last
  }

  // ---- What they mean ---------------------------------------------------------------------

  predicate Blank(s: string) {
    forall i :: 0 <= i < |s| ==> s[i] as int == 32 || 9 <= s[i] as int <= 13
  }

  /** t is s without the white space around it. */
  ghost predicate IsTrimmed(s: string, t: string) {
    exists a, b :: Blank(a) && Blank(b) && s == a + t + b && (t != "" ==> !Blank(t[..1]) && !Blank(t[|t| - 1..]))
  }

  /** The same letters, capitals and small ones alike, and the same other characters. */
  predicate SameButCase(s: string, t: string) {
    && |s| == |t|
    && forall i :: 0 <= i < |s| ==>
         s[i] == t[i] || LettersOfOnePair(s[i] as int, t[i] as int) || LettersOfOnePair(t[i] as int, s[i] as int)
  }

  predicate LettersOfOnePair(capital: int, small: int) {
    65 <= capital <= 90 && small == capital + 32
  }

  lemma {:induction false} LowerAt(s: string, i: nat)
    requires i < |s|
    ensures Lower(s)[i] == LowerChar(s[i])
  {
    if i > 0 {
      LowerAt(s[1..], i - 1);
    }
  }

  /** Lower-casing changes nothing but case, and leaves no capital. */
  lemma LowerIsSmall(s: string)
    ensures SameButCase(s, Lower(s))
    ensures forall i :: 0 <= i < |s| ==> !(65 <= Lower(s)[i] as int <= 90)
  {
    forall i | 0 <= i < |s| ensures Lower(s)[i] == LowerChar(s[i]) {
      LowerAt(s, i);
    }
  }

  lemma SmallCharsAgree(a: char, b: char)
    ensures LowerChar(a) == LowerChar(b) <==>
      a == b || LettersOfOnePair(a as int, b as int) || LettersOfOnePair(b as int, a as int)
  {
  }

  /** Texts agree in small letters exactly when they differ in nothing but case. */
  lemma LowerDecidesCase(s: string, t: string)
    ensures Lower(s) == Lower(t) <==> SameButCase(s, t)
  {
    forall i | 0 <= i < |s| && i < |t|
      ensures Lower(s)[i] == LowerChar(s[i]) && Lower(t)[i] == LowerChar(t[i])
      ensures LowerChar(s[i]) == LowerChar(t[i]) <==>
        s[i] == t[i] || LettersOfOnePair(s[i] as int, t[i] as int) || LettersOfOnePair(t[i] as int, s[i] as int)
    {
      LowerAt(s, i);
      LowerAt(t, i);
      SmallCharsAgree(s[i], t[i]);
    }
    if SameButCase(s, t) {
      assert Lower(s) == Lower(t);
    }
  }

  lemma {:induction false} TrimLeftParts(s: string) returns (a: string)
    ensures Blank(a) && s == a + TrimLeft(s) && (TrimLeft(s) != "" ==> !Blank(TrimLeft(s)[..1]))
  {
    if s != "" && IsSpace(s[0]) {
      var rest := TrimLeftParts(s[1..]);
      a := [s[0]] + rest;
      assert s == [s[0]] + (rest + TrimLeft(s)) == a + TrimLeft(s);
    } else {
      a := "";
      assert s == a + s;
      assert s != "" ==> s[..1] == [s[0]];
    }
  }

  lemma {:induction false} TrimRightParts(s: string) returns (b: string)
    ensures Blank(b) && s == TrimRight(s) + b && (TrimRight(s) != "" ==> !Blank(TrimRight(s)[|TrimRight(s)| - 1..]))
  {
    if s != "" && IsSpace(s[|s| - 1]) {
      var rest := TrimRightParts(s[..|s| - 1]);
      b := rest + [s[|s| - 1]];
      assert s == s[..|s| - 1] + [s[|s| - 1]];
    } else {
      b := "";
      assert s != "" ==> s[|s| - 1..][0] == s[|s| - 1];
    }
  }

  /** Trimming takes the white space off both ends and nothing else. */
  lemma TrimSpaceTrims(s: string)
    ensures IsTrimmed(s, TrimSpace(s))
    ensures TrimSpace(s) == "" <==> Blank(s)
  {
    var a := TrimLeftParts(s);
    var mid, t := TrimLeft(s), TrimSpace(s);
    var b := TrimRightParts(mid);
    assert s == a + t + b;
    if t != "" {
      assert t[..1] == mid[..1];
      assert s[|a|] == t[0] && t[..1] == [t[0]];
    }
  }

  /** White space can be trimmed off a text in one way only. */
  lemma TrimUnique(s: string, t: string, u: string)
    requires IsTrimmed(s, t) && IsTrimmed(s, u)
    ensures t == u
  {
    var a, b :| Blank(a) && Blank(b) && s == a + t + b && (t != "" ==> !Blank(t[..1]) && !Blank(t[|t| - 1..]));
    var c, d :| Blank(c) && Blank(d) && s == c + u + d && (u != "" ==> !Blank(u[..1]) && !Blank(u[|u| - 1..]));
    TrimmedEdges(s, a, t, b);
    TrimmedEdges(s, c, u, d);
    if t != "" && u != "" {
      assert |a| == |c| && |b| == |d|;
      assert t == s[|a|..|s| - |b|] && u == s[|c|..|s| - |d|];
    }
  }

  predicate BlankAt(s: string, i: int)
    requires 0 <= i < |s|
  {
    s[i] as int == 32 || 9 <= s[i] as int <= 13
  }

  lemma TrimmedEdges(s: string, a: string, t: string, b: string)
    requires Blank(a) && Blank(b) && s == a + t + b && (t != "" ==> !Blank(t[..1]) && !Blank(t[|t| - 1..]))
    ensures t == "" <==> Blank(s)
    ensures forall i :: 0 <= i < |a| ==> BlankAt(s, i)
    ensures forall i :: |s| - |b| <= i < |s| ==> BlankAt(s, i)
    ensures t != "" ==> |a| < |s| - |b| && !BlankAt(s, |a|) && !BlankAt(s, |s| - |b| - 1)
  {
    if t != "" {
      assert t[..1] == [t[0]] && t[|t| - 1..] == [t[|t| - 1]];
      assert s[|a|] == t[0] && s[|s| - |b| - 1] == t[|t| - 1];
    }
    forall i | |s| - |b| <= i < |s| ensures BlankAt(s, i) {
      assert s[i] == b[i - (|s| - |b|)];
    }
  }

  lemma SmallStays(s: string)
    requires forall i :: 0 <= i < |s| ==> !(65 <= s[i] as int <= 90)
    ensures Lower(s) == s
  {
    forall i | 0 <= i < |s| ensures Lower(s)[i] == s[i] {
      LowerAt(s, i);
    }
  }

  /** Small letters at the front stay there when the rest is put in small letters. */
  lemma SmallPrefix(s: string, p: string)
    requires p <= s && forall i :: 0 <= i < |p| ==> !(65 <= p[i] as int <= 90)
    ensures p <= Lower(s)
  {
    forall i | 0 <= i < |p| ensures Lower(s)[i] == p[i] {
      LowerAt(s, i);
    }
  }

  /** A cut is at the first separator, and fails only without one. */
  lemma {:induction false} CutAtFirst(s: string, sep: char)
    ensures Cut(s, sep).None? <==> sep !in s
    ensures Cut(s, sep).Some? ==>
      var (before, after) := Cut(s, sep).value;
      s == before + [sep] + after && sep !in before
  {
    if s != "" && s[0] != sep {
      CutAtFirst(s[1..], sep);
      assert s == [s[0]] + s[1..];
    }
  }

  /** The number that digits stand for, the first one weighing most. */
  function ReadDigits(s: string): int {
    if s == "" then 0 else 10 * ReadDigits(s[..|s| - 1]) + (s[|s| - 1] as int - 48)
  }

  /** Reading the digits back gives the number, and there is no leading zero. */
  lemma {:induction false} DigitsReadBack(n: nat)
    ensures ReadDigits(Digits(n)) == n
    ensures 1 < |Digits(n)| ==> Digits(n)[0] as int != 48
  {
    var last := [('0' as int + n % 10) as char];
    if n < 10 {
      assert last[..0] == "";
    } else {
      DigitsReadBack(n / 10);
      assert (Digits(n / 10) + last)[..|Digits(n / 10)|] == Digits(n / 10);
      assert Digits(n / 10) != "0";
    }
  }
}
