/** What a reservation name says of its purchase, in the terms of the fields it was built from. */
module ReservationRules {
  import opened Text
  import opened ReservationNames

  // ---- Characters -------------------------------------------------------------------------

  /** Character codes that a name may hold: small letters, capitals, digits and the hyphen. */
  predicate NameCode(n: int) {
    97 <= n <= 122 || 65 <= n <= 90 || 48 <= n <= 57 || n == 45
  }

  lemma AllowedByCode(c: char)
    ensures IsAllowed(c) <==> NameCode(c as int)
  {
  }

  lemma {:induction false} FilteredConcat(a: string, b: string)
    ensures Filtered(a + b) == Filtered(a) + Filtered(b)
  {
    if b == "" {
      assert a + b == a && Filtered(a) + "" == Filtered(a);
    } else {
      FilteredConcat(a, b[..|b| - 1]);
      assert (a + b)[..|a + b| - 1] == a + b[..|b| - 1];
    }
  }

  lemma CleanTogether(a: string, b: string)
    requires Clean(a) && Clean(b)
    ensures Clean(a + b) && Clean(a + "-" + b)
  {
    var close, apart := a + b, a + "-" + b;
    forall i | 0 <= i < |close| ensures !DoubleAt(close, i) {
      assert i < |a| - 1 ==> !DoubleAt(a, i);
      assert |a| <= i ==> !DoubleAt(b, i - |a|);
    }
    forall i | 0 <= i < |apart| ensures !DoubleAt(apart, i) {
      assert i < |a| - 1 ==> !DoubleAt(a, i);
      assert |a| < i ==> !DoubleAt(b, i - |a| - 1);
    }
  }

  /** Between clean texts a dot becomes a hyphen, and any other character a name may not hold goes. */
  lemma OtherCharacters(a: string, c: char, b: string, fallback: string)
    requires Clean(a) && Clean(b) && !NameCode(c as int)
    ensures Sanitized(a + [c] + b, fallback) == if c as int == 46 then a + "-" + b else a + b
  {
    AllowedByCode(c);
    FilteredConcat(a + [c], b);
    FilteredConcat(a, [c]);
    AllowedIsFiltered(a);
    AllowedIsFiltered(b);
    assert [c][..0] == "";
    assert Filtered([c]) == if c == '.' then "-" else "";
    assert a + "" == a;
    CleanTogether(a, b);
    CleanIsFixed(a + b, fallback);
    CleanIsFixed(a + "-" + b, fallback);
    AllowedIsFiltered(a + b);
    AllowedIsFiltered(a + "-" + b);
  }

  // ---- Count, term and payment ------------------------------------------------------------

  /** The count reads back from its segment, behind a hyphen when it is negative. */
  lemma CountReadsBack(n: int)
    ensures var s := CountSegment(n);
      var digits := if n < 0 then s[1..] else s;
      && (n < 0 ==> s[0] as int == 45)
      && digits != "" && digits[|digits| - 1] == 'x'
      && ReadDigits(digits[..|digits| - 1]) == if n < 0 then -n else n
  {
    var d := Digits(if n < 0 then -n else n);
    DigitsReadBack(if n < 0 then -n else n);
    assert (d + "x")[..|d|] == d;
    assert n < 0 ==> ("-" + (d + "x"))[1..] == d + "x";
  }

  /** The text is the word, in any case and with any white space around it. */
  ghost predicate Reads(s: string, word: string) {
    exists t :: IsTrimmed(s, t) && SameButCase(t, word)
  }

  predicate Small(word: string) {
    forall i :: 0 <= i < |word| ==> !(65 <= word[i] as int <= 90)
  }

  lemma ReadsRule(s: string, word: string)
    requires Small(word)
    ensures Reads(s, word) <==> Lower(TrimSpace(s)) == word
  {
    var t := TrimSpace(s);
    TrimSpaceTrims(s);
    SmallStays(word);
    LowerDecidesCase(t, word);
    if Reads(s, word) {
      var u :| IsTrimmed(s, u) && SameButCase(u, word);
      TrimUnique(s, u, t);
    }
  }

  ghost predicate OneYear(s: string) {
    Reads(s, "1") || Reads(s, "1yr") || Reads(s, "1y") || Reads(s, "p1y")
  }

  ghost predicate ThreeYears(s: string) {
    Reads(s, "3") || Reads(s, "3yr") || Reads(s, "3y") || Reads(s, "p3y")
  }

  lemma TermRule(s: string, stamp: string)
    ensures OneYear(s) ==> TermSegment(s, stamp) == "1yr"
    ensures ThreeYears(s) ==> TermSegment(s, stamp) == "3yr"
    ensures !OneYear(s) && !ThreeYears(s) ==> TermSegment(s, stamp) == Segment(s, stamp)
  {
    OneYearRule(s);
    ThreeYearsRule(s);
  }

  lemma OneYearRule(s: string)
    ensures OneYear(s) <==>
      var t := Lower(TrimSpace(s)); t == "1" || t == "1yr" || t == "1y" || t == "p1y"
  {
    ReadsRule(s, "1");
    ReadsRule(s, "1yr");
    ReadsRule(s, "1y");
    ReadsRule(s, "p1y");
  }

  lemma ThreeYearsRule(s: string)
    ensures ThreeYears(s) <==>
      var t := Lower(TrimSpace(s)); t == "3" || t == "3yr" || t == "3y" || t == "p3y"
  {
    ReadsRule(s, "3");
    ReadsRule(s, "3yr");
    ReadsRule(s, "3y");
    ReadsRule(s, "p3y");
  }

  ghost predicate AllUpfront(s: string) {
    Reads(s, "all-upfront") || Reads(s, "allupfront") || Reads(s, "upfront")
  }

  ghost predicate NoUpfront(s: string) {
    Reads(s, "no-upfront") || Reads(s, "noupfront")
  }

  ghost predicate PartialUpfront(s: string) {
    Reads(s, "partial-upfront") || Reads(s, "partialupfront") || Reads(s, "partial")
  }

  lemma AllUpfrontRule(s: string)
    ensures AllUpfront(s) <==>
      var t := Lower(TrimSpace(s)); t == "all-upfront" || t == "allupfront" || t == "upfront"
  {
    ReadsRule(s, "all-upfront");
    ReadsRule(s, "allupfront");
    ReadsRule(s, "upfront");
  }

  lemma NoUpfrontRule(s: string)
    ensures NoUpfront(s) <==> var t := Lower(TrimSpace(s)); t == "no-upfront" || t == "noupfront"
  {
    ReadsRule(s, "no-upfront");
    ReadsRule(s, "noupfront");
  }

  lemma PartialUpfrontRule(s: string)
    ensures PartialUpfront(s) <==>
      var t := Lower(TrimSpace(s)); t == "partial-upfront" || t == "partialupfront" || t == "partial"
  {
    ReadsRule(s, "partial-upfront");
    ReadsRule(s, "partialupfront");
    ReadsRule(s, "partial");
  }

  /** Known payments get a short form, no payment none, and any other at most six characters. */
  lemma PaymentRule(s: string, stamp: string)
    ensures AllUpfront(s) ==> PaymentSegment(s, stamp) == "allup"
    ensures NoUpfront(s) ==> PaymentSegment(s, stamp) == "noup"
    ensures PartialUpfront(s) ==> PaymentSegment(s, stamp) == "partup"
    ensures Blank(s) ==> PaymentSegment(s, stamp) == ""
    ensures !AllUpfront(s) && !NoUpfront(s) && !PartialUpfront(s) && !Blank(s) ==>
      var out := Segment(s, stamp); PaymentSegment(s, stamp) == out[..if |out| <= 6 then |out| else 6]
  {
    AllUpfrontRule(s);
    NoUpfrontRule(s);
    PartialUpfrontRule(s);
    TrimSpaceTrims(s);
    var out := Segment(s, stamp);
    assert out[..|out|] == out;
  }
}
