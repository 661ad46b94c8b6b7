/** Reservation names: sanitizing, assembling and fitting them into the length cap. */
module ReservationNames {
  import opened Wrappers
  import opened Text

  const MAX_LEN := 60

  predicate IsAlnum(c: char) {
    'a' <= c <= 'z' || 'A' <= c <= 'Z' || '0' <= c <= '9'
  }

  predicate IsAllowed(c: char) {
    IsAlnum(c) || c == '-'
  }

  predicate AllAlnum(s: string) {
    forall i :: 0 <= i < |s| ==> IsAlnum(s[i])
  }

  predicate AllAllowed(s: string) {
    forall i :: 0 <= i < |s| ==> IsAllowed(s[i])
  }

  predicate DoubleAt(s: string, i: int) {
    0 <= i < |s| - 1 && s[i] == '-' && s[i + 1] == '-'
  }

  predicate HasDouble(s: string) {
    exists i :: 0 <= i < |s| && DoubleAt(s, i)
  }

  /** An acceptable name: allowed characters, no leading, trailing or doubled hyphen, not empty. */
  predicate Clean(s: string) {
    && s != "" && AllAllowed(s) && !HasDouble(s)
    && s[0] != '-' && s[|s| - 1] != '-'
  }

  // ---- Sanitizing -------------------------------------------------------------------------

  /** Allowed characters of an identifier, dots turned into hyphens. */
  function Filtered(s: string): string {
    if s == "" then ""
    else
      var rest, c := Filtered(s[..|s| - 1]), s[|s| - 1];
      if IsAllowed(c) then rest + [c] else if c == '.' then rest + "-" else rest
  }

  /** Every pair of hyphens, scanning from the left, becomes one. */
  function ReplaceDoubles(s: string): string {
    if |s| < 2 then s
    else if s[0] == '-' && s[1] == '-' then "-" + ReplaceDoubles(s[2..])
    else [s[0]] + ReplaceDoubles(s[1..])
  }

  /** Every run of hyphens becomes one. */
  function Squeezed(s: string): string {
    if |s| < 2 then s
    else if s[0] == '-' && s[1] == '-' then Squeezed(s[1..])
    else [s[0]] + Squeezed(s[1..])
  }

  function TrimRightHyphens(s: string): string {
    if s != "" && s[|s| - 1] == '-' then TrimRightHyphens(s[..|s| - 1]) else s
  }

  function TrimLeftHyphens(s: string): string {
    if s != "" && s[0] == '-' then TrimLeftHyphens(s[1..]) else s
  }

  function TrimHyphens(s: string): string {
    TrimRightHyphens(TrimLeftHyphens(s))
  }

  /** fallback is the prefix and time stamp used when nothing is left. */
  function Sanitized(s: string, fallback: string): string {
    var t := TrimHyphens(Squeezed(Filtered(s)));
    if t == "" then fallback else t
  }

  lemma {:induction false} SqueezedHead(s: string)
    ensures s != "" ==> Squeezed(s) != "" && Squeezed(s)[0] == s[0]
    ensures |Squeezed(s)| <= |s|
  {
    if |s| >= 2 {
      SqueezedHead(s[1..]);
    }
  }

  /** Replacing pairs moves towards the squeezed form without leaving its class. */
  lemma {:induction false} ReplaceKeepsSqueezed(s: string)
    ensures Squeezed(ReplaceDoubles(s)) == Squeezed(s)
    ensures s != "" ==> ReplaceDoubles(s) != "" && ReplaceDoubles(s)[0] == s[0]
    decreases |s|
  {
    if |s| >= 2 {
      if s[0] == '-' && s[1] == '-' {
        ReplaceKeepsSqueezed(s[2..]);
        var rest := ReplaceDoubles(s[2..]);
        assert ReplaceDoubles(s) == "-" + rest;
        assert ("-" + rest)[1..] == rest;
        HyphenThenSqueezed(s[2..]);
        HyphenThenSqueezed(rest);
        assert s[1..] == "-" + s[2..];
      } else {
        ReplaceKeepsSqueezed(s[1..]);
        var rest := ReplaceDoubles(s[1..]);
        assert ([s[0]] + rest)[1..] == rest;
      }
    }
  }

  /** A hyphen in front disappears exactly when one already follows. */
  lemma HyphenThenSqueezed(s: string)
    ensures Squeezed("-" + s) == if s != "" && s[0] == '-' then Squeezed(s) else "-" + Squeezed(s)
  {
    assert s != "" ==> ("-" + s)[1..] == s;
  }

  lemma {:induction false} ReplaceShrinks(s: string)
    requires HasDouble(s)
    ensures |ReplaceDoubles(s)| < |s|
    decreases |s|
  {
    var i :| 0 <= i < |s| && DoubleAt(s, i);
    if s[0] == '-' && s[1] == '-' {
      ReplaceNeverGrows(s[2..]);
    } else {
      assert DoubleAt(s[1..], i - 1);
      ReplaceShrinks(s[1..]);
    }
  }

  lemma {:induction false} ReplaceNeverGrows(s: string)
    ensures |ReplaceDoubles(s)| <= |s|
    decreases |s|
  {
    if |s| >= 2 {
      ReplaceNeverGrows(if s[0] == '-' && s[1] == '-' then s[2..] else s[1..]);
    }
  }

  lemma NoDoubleInTail(s: string)
    requires s != "" && !HasDouble(s)
    ensures !HasDouble(s[1..])
  {
    var tail := s[1..];
    forall i | 0 <= i < |tail| ensures !DoubleAt(tail, i) {
      assert !DoubleAt(s, i + 1);
    }
  }

  lemma {:induction false} NoDoubleIsSqueezed(s: string)
    requires !HasDouble(s)
    ensures Squeezed(s) == s
  {
    if |s| >= 2 {
      NoDoubleInTail(s);
      assert !DoubleAt(s, 0);
      NoDoubleIsSqueezed(s[1..]);
    }
  }

  lemma {:induction false} SqueezedFacts(s: string)
    ensures !HasDouble(Squeezed(s))
    ensures AllAllowed(s) ==> AllAllowed(Squeezed(s))
  {
    if |s| >= 2 {
      var q := Squeezed(s[1..]);
      SqueezedFacts(s[1..]);
      SqueezedHead(s[1..]);
      if !(s[0] == '-' && s[1] == '-') {
        forall i | 0 <= i < |q| + 1 ensures !DoubleAt([s[0]] + q, i) {
          assert i > 0 && DoubleAt([s[0]] + q, i) ==> DoubleAt(q, i - 1);
        }
      }
    }
  }

  /** The builder loop and the repeat-until-stable loop compute the sanitized form. */
  method SanitizeReservationId(id: string, fallback: string) returns (s: string)
    ensures s == Sanitized(id, fallback)
  {
    s := "";
    for i := 0 to |id|
      invariant s == Filtered(id[..i])
    {
      assert id[..i + 1][..i] == id[..i];
      if IsAllowed(id[i]) {
        s := s + [id[i]];
      } else if id[i] == '.' {
        s := s + "-";
      }
    }
    assert id[..|id|] == id;
    while HasDouble(s)
      invariant Squeezed(s) == Squeezed(Filtered(id))
      decreases |s|
    {
      ReplaceKeepsSqueezed(s);
      ReplaceShrinks(s);
      s := ReplaceDoubles(s);
    }
    NoDoubleIsSqueezed(s);
    s := TrimHyphens(s);
    if s == "" {
      s := fallback;
    }
  }

  lemma {:induction false} FilteredIsAllowed(s: string)
    ensures AllAllowed(Filtered(s)) && |Filtered(s)| <= |s|
  {
    if s != "" {
      FilteredIsAllowed(s[..|s| - 1]);
    }
  }

  lemma {:induction false} AllowedIsFiltered(s: string)
    requires AllAllowed(s)
    ensures Filtered(s) == s
  {
    if s != "" {
      AllowedIsFiltered(s[..|s| - 1]);
      assert s == s[..|s| - 1] + [s[|s| - 1]];
    }
  }

  lemma {:induction false} TrimRightFacts(s: string)
    requires AllAllowed(s) && !HasDouble(s)
    ensures var t := TrimRightHyphens(s);
      t <= s && AllAllowed(t) && !HasDouble(t) && (t != "" ==> t[|t| - 1] != '-')
  {
    if s != "" && s[|s| - 1] == '-' {
      var rest := s[..|s| - 1];
      forall i | 0 <= i < |rest| ensures !DoubleAt(rest, i) {
        assert !DoubleAt(s, i);
      }
      TrimRightFacts(rest);
    }
  }

  lemma {:induction false} TrimLeftFacts(s: string)
    requires AllAllowed(s) && !HasDouble(s)
    ensures var t := TrimLeftHyphens(s);
      |t| <= |s| && AllAllowed(t) && !HasDouble(t) && (t != "" ==> t[0] != '-')
  {
    if s != "" && s[0] == '-' {
      NoDoubleInTail(s);
      TrimLeftFacts(s[1..]);
    }
  }

  /** Sanitizing yields a clean name whenever the fallback is one, and leaves clean names alone. */
  lemma SanitizedIsClean(s: string, fallback: string)
    requires Clean(fallback)
    ensures Clean(Sanitized(s, fallback))
    ensures Clean(s) ==> Sanitized(s, fallback) == s
    ensures Sanitized(Sanitized(s, fallback), fallback) == Sanitized(s, fallback)
  {
    FilteredIsAllowed(s);
    SqueezedFacts(Filtered(s));
    TrimLeftFacts(Squeezed(Filtered(s)));
    TrimRightFacts(TrimLeftHyphens(Squeezed(Filtered(s))));
    if Clean(s) {
      CleanIsFixed(s, fallback);
    }
    CleanIsFixed(Sanitized(s, fallback), fallback);
  }

  lemma CleanIsFixed(s: string, fallback: string)
    requires Clean(s)
    ensures Sanitized(s, fallback) == s
  {
    AllowedIsFiltered(s);
    NoDoubleIsSqueezed(s);
    NothingToTrim(s);
  }

  lemma NothingToTrim(s: string)
    requires s != "" && s[0] != '-' && s[|s| - 1] != '-'
    ensures TrimHyphens(s) == s
  {
  }

  // ---- A suffix behind a hyphen -----------------------------------------------------------

  /** Hyphens squeezed, and none at the end. */
  function Tidy(s: string): string {
    TrimRightHyphens(Squeezed(s))
  }

  /** Squeezing acts on what is before a hyphen and on what starts with it apart. */
  lemma {:induction false} SqueezedTail(x: string, tail: string)
    requires tail != "" && tail[0] == '-'
    ensures Squeezed(x + tail) == Tidy(x) + Squeezed(tail)
    decreases |x|
  {
    if x == "" {
      assert "" + tail == tail;
    } else {
      SqueezedTail(x[1..], tail);
      OneMoreBefore(x, tail);
    }
  }

  lemma OneMoreBefore(x: string, tail: string)
    requires x != "" && tail != "" && tail[0] == '-'
    requires Squeezed(x[1..] + tail) == Tidy(x[1..]) + Squeezed(tail)
    ensures Squeezed(x + tail) == Tidy(x) + Squeezed(tail)
  {
    TailOfJoined(x, tail);
    if x[0] == '-' && (|x| == 1 || x[1] == '-') {
      HyphenDropped(x);
      DoubledHead(x + tail);
    } else {
      OtherHead(x);
      OtherHead(x + tail);
      TrimAfterCons(x[0], x[1..]);
      ConsAssociates(x[0], Tidy(x[1..]), Squeezed(tail));
    }
  }

  lemma TailOfJoined(x: string, tail: string)
    requires x != "" && tail != ""
    ensures (x + tail)[1..] == x[1..] + tail && (x + tail)[0] == x[0]
    ensures (x + tail)[1] == if |x| == 1 then tail[0] else x[1]
  {
  }

  /** A hyphen that another one follows, or that ends the text, does not survive the trimmed squeeze. */
  lemma HyphenDropped(x: string)
    requires x != "" && x[0] == '-' && (|x| == 1 || x[1] == '-')
    ensures TrimRightHyphens(Squeezed(x)) == TrimRightHyphens(Squeezed(x[1..]))
  {
    if |x| == 1 {
      assert x == "-" && TrimRightHyphens("-") == TrimRightHyphens("");
    }
  }

  lemma DoubledHead(s: string)
    requires |s| >= 2 && s[0] == '-' && s[1] == '-'
    ensures Squeezed(s) == Squeezed(s[1..])
  {
  }

  lemma OtherHead(s: string)
    requires s != "" && !(|s| >= 2 && s[0] == '-' && s[1] == '-')
    ensures Squeezed(s) == [s[0]] + Squeezed(s[1..])
  {
  }

  lemma HyphenAndClean(r: string)
    requires r != "" && r[0] != '-' && !HasDouble(r)
    ensures Squeezed("-" + r) == "-" + r
  {
    NoDoubleIsSqueezed(r);
    HyphenThenSqueezed(r);
  }

  lemma TrimAfterCons(c: char, y: string)
    requires c != '-' || (y != "" && y[0] != '-')
    ensures TrimRightHyphens([c] + Squeezed(y)) == [c] + TrimRightHyphens(Squeezed(y))
  {
    SqueezedHead(y);
    TrimRightOfCons(c, Squeezed(y));
    if y != "" && y[0] != '-' {
      TrimRightKeepsHead(Squeezed(y));
    }
  }

  lemma ConsAssociates(c: char, a: string, b: string)
    ensures [c] + (a + b) == ([c] + a) + b
  {
  }

  lemma {:induction false} TrimRightOfCons(c: char, s: string)
    ensures c != '-' || TrimRightHyphens(s) != "" ==> TrimRightHyphens([c] + s) == [c] + TrimRightHyphens(s)
    ensures c == '-' && TrimRightHyphens(s) == "" ==> TrimRightHyphens([c] + s) == ""
  {
    if s != "" && s[|s| - 1] == '-' {
      TrimRightOfCons(c, s[..|s| - 1]);
      assert ([c] + s)[..|s|] == [c] + s[..|s| - 1];
    } else if s == "" {
      assert [c] + s == [c] && [c][..0] == "";
    } else {
      assert ([c] + s)[|s|] == s[|s| - 1];
    }
  }

  lemma {:induction false} TrimRightKeepsHead(s: string)
    requires s != "" && s[0] != '-'
    ensures TrimRightHyphens(s) != "" && TrimRightHyphens(s)[0] == s[0]
    ensures TrimRightHyphens(s) <= s && TrimRightHyphens(s)[|TrimRightHyphens(s)| - 1] != '-'
  {
    if s[|s| - 1] == '-' {
      TrimRightKeepsHead(s[..|s| - 1]);
    }
  }

  lemma AlnumHasNoDouble(r: string)
    requires AllAlnum(r)
    ensures !HasDouble(r)
  {
  }

  predicate EndsWith(s: string, tail: string) {
    |tail| <= |s| && s[|s| - |tail|..] == tail
  }

  /** A clean name within a length, ending in a hyphen and the whole suffix. */
  predicate GoodName(name: string, suffix: string, limit: int) {
    Clean(name) && |name| <= limit && EndsWith(name, "-" + suffix)
  }

  /** Squeezing and trimming keep what a name starts with. */
  lemma TrimmedHead(x: string)
    requires x != "" && x[0] != '-'
    ensures var b := TrimRightHyphens(Squeezed(x));
      b != "" && b[0] == x[0] && b[|b| - 1] != '-' && b <= Squeezed(x) && |b| <= |x|
  {
    SqueezedHead(x);
    TrimRightKeepsHead(Squeezed(x));
  }

  lemma AllowedWithSuffix(x: string, r: string)
    requires AllAllowed(x) && AllAlnum(r)
    ensures AllAllowed(x + ("-" + r))
  {
  }

  /** What sanitizing leaves of a name that ends in a hyphen and an alphanumeric suffix. */
  lemma SanitizedSuffix(x: string, r: string, fallback: string)
    requires x != "" && AllAllowed(x) && x[0] != '-' && r != "" && AllAlnum(r)
    ensures Sanitized(x + ("-" + r), fallback) == TrimRightHyphens(Squeezed(x)) + ("-" + r)
  {
    AllowedWithSuffix(x, r);
    AllowedIsFiltered(x + ("-" + r));
    AlnumHasNoDouble(r);
    HyphenAndClean(r);
    SqueezedTail(x, "-" + r);
    TrimmedHead(x);
    var b := TrimRightHyphens(Squeezed(x));
    SuffixNotTrimmed(b, r);
  }

  lemma SuffixNotTrimmed(base: string, r: string)
    requires base != "" && base[0] != '-' && r != "" && AllAlnum(r)
    ensures TrimHyphens(base + ("-" + r)) == base + ("-" + r)
  {
    var name := base + ("-" + r);
    assert name[|name| - 1] == r[|r| - 1];
    NothingToTrim(name);
  }

  /** Sanitizing a name that ends in a hyphen and an alphanumeric suffix keeps them both. */
  lemma SuffixSurvives(x: string, r: string, fallback: string)
    requires x != "" && AllAllowed(x) && x[0] != '-' && r != "" && AllAlnum(r)
    ensures GoodName(Sanitized(x + "-" + r, fallback), r, |x| + 1 + |r|)
  {
    SanitizedSuffix(x, r, fallback);
    assert x + "-" + r == x + ("-" + r);
    TrimmedHead(x);
    SqueezedFacts(x);
    TrimRightFacts(Squeezed(x));
    CleanWithSuffix(TrimRightHyphens(Squeezed(x)), r);
  }

  lemma CleanWithSuffix(base: string, r: string)
    requires Clean(base) && r != "" && AllAlnum(r)
    ensures Clean(base + ("-" + r)) && EndsWith(base + ("-" + r), "-" + r)
  {
    var s := base + ("-" + r);
    forall i | 0 <= i < |s| ensures !DoubleAt(s, i) {
      if i < |base| - 1 {
        assert !DoubleAt(base, i);
      }
    }
  }

  // ---- Joining and assembling -------------------------------------------------------------

  /** Non-empty parts, separated by hyphens. */
  function Joined(parts: seq<string>): string {
    if parts == [] then ""
    else
      var rest, p := Joined(parts[..|parts| - 1]), parts[|parts| - 1];
      if p == "" then rest else if rest == "" then p else rest + "-" + p
  }

  method JoinNonEmpty(parts: seq<string>) returns (s: string)
    ensures s == Joined(parts)
  {
    s := "";
    for i := 0 to |parts|
      invariant s == Joined(parts[..i])
    {
      assert parts[..i + 1][..i] == parts[..i];
      if parts[i] != "" {
        s := if s == "" then parts[i] else s + "-" + parts[i];
      }
    }
    assert parts[..|parts|] == parts;
  }

  /** Allowed parts, the first of them starting with a letter or digit. */
  predicate GoodParts(parts: seq<string>) {
    && parts != [] && parts[0] != "" && parts[0][0] != '-'
    && forall i :: 0 <= i < |parts| ==> AllAllowed(parts[i])
  }

  lemma {:induction false} JoinedFacts(parts: seq<string>)
    requires GoodParts(parts)
    ensures Joined(parts) != "" && AllAllowed(Joined(parts)) && Joined(parts)[0] == parts[0][0]
  {
    if |parts| == 1 {
      assert parts[..0] == [];
    } else {
      var rest := parts[..|parts| - 1];
      assert forall i :: 0 <= i < |rest| ==> rest[i] == parts[i];
      JoinedFacts(rest);
    }
  }

  function Assembled(required: seq<string>, optional: seq<string>, suffix: string, fallback: string): string {
    Sanitized(Joined(required + optional + [suffix]), fallback)
  }

  lemma AssembledIsGood(required: seq<string>, optional: seq<string>, suffix: string, fallback: string)
    requires GoodParts(required + optional) && suffix != "" && AllAlnum(suffix)
    ensures GoodName(Assembled(required, optional, suffix, fallback), suffix,
                     |Joined(required + optional)| + 1 + |suffix|)
  {
    var parts := required + optional;
    JoinedFacts(parts);
    assert (parts + [suffix])[..|parts|] == parts;
    SuffixSurvives(Joined(parts), suffix, fallback);
  }

  // ---- Segments ---------------------------------------------------------------------------

  datatype Fields = Fields(service: string, region: string, resourceType: string, count: int, term: string,
                           payment: string, timestamp: string)

  /** A time stamp of digits stands in for a segment with nothing left. */
  function Segment(s: string, stamp: string): string {
    Sanitized(s, stamp)
  }

  function TermSegment(s: string, stamp: string): string {
    var t := Lower(TrimSpace(s));
    if t == "1" || t == "1yr" || t == "1y" || t == "p1y" then "1yr"
    else if t == "3" || t == "3yr" || t == "3y" || t == "p3y" then "3yr"
    else Segment(s, stamp)
  }

  function PaymentSegment(s: string, stamp: string): string {
    var t := Lower(TrimSpace(s));
    if t == "all-upfront" || t == "allupfront" || t == "upfront" then "allup"
    else if t == "no-upfront" || t == "noupfront" then "noup"
    else if t == "partial-upfront" || t == "partialupfront" || t == "partial" then "partup"
    else if t == "" then ""
    else
      var out := Segment(s, stamp);
      if |out| > 6 then out[..6] else out
  }

  /** The count without its sign. */
  function CountText(n: int): string {
    Digits(if n < 0 then -n else n) + "x"
  }

  function CountSegment(n: int): string {
    if n < 0 then "-" + CountText(n) else CountText(n)
  }

  predicate Stamp(s: string) {
    s != "" && AllAlnum(s)
  }

  lemma StampIsClean(s: string)
    requires Stamp(s)
    ensures Clean(s)
  {
  }

  lemma SegmentIsClean(s: string, stamp: string)
    requires Stamp(stamp)
    ensures Clean(Segment(s, stamp))
  {
    StampIsClean(stamp);
    SanitizedIsClean(s, stamp);
  }

  lemma TermIsClean(s: string, stamp: string)
    requires Stamp(stamp)
    ensures Clean(TermSegment(s, stamp))
  {
    SegmentIsClean(s, stamp);
  }

  lemma PaymentIsAllowed(s: string, stamp: string)
    requires Stamp(stamp)
    ensures AllAllowed(PaymentSegment(s, stamp))
  {
    SegmentIsClean(s, stamp);
  }

  lemma CountIsClean(n: int)
    ensures Clean(CountText(n)) && AllAllowed(CountSegment(n))
  {
    AlnumHasNoDouble(CountText(n));
  }

  // ---- The five required segments ---------------------------------------------------------

  datatype Parts = Parts(svc: string, region: string, sku: string, count: int, term: string)

  function PartsOf(f: Fields, stamp: string): Parts {
    Parts(Segment(f.service, stamp), Segment(f.region, stamp), Segment(f.resourceType, stamp), f.count,
          TermSegment(f.term, stamp))
  }

  function RequiredOf(p: Parts): seq<string> {
    [p.svc, p.region, p.sku, CountSegment(p.count), p.term]
  }

  predicate CleanParts(p: Parts) {
    Clean(p.svc) && Clean(p.region) && Clean(p.sku) && Clean(p.term)
  }

  /** The required segments as they read at the head of a name. */
  function HeadOf(p: Parts): string {
    p.svc + ("-" + p.region) + ("-" + p.sku) + ("-" + CountText(p.count)) + ("-" + p.term)
  }

  function CutSku(p: Parts, k: nat): Parts
    requires k <= |p.sku|
  {
    p.(sku := p.sku[..k])
  }

  /** The name starts with service, region, a non-empty start of the SKU, count and term. */
  predicate KeepsSegments(name: string, p: Parts) {
    exists k :: 1 <= k <= |p.sku| && StartsWith(name, CutSku(p, k))
  }

  predicate StartsWith(name: string, p: Parts) {
    HeadOf(p) + "-" <= name
  }

  /** The required segments and the suffix fit as they are. */
  predicate AllFit(p: Parts, suffix: string) {
    |HeadOf(p)| + 1 + |suffix| <= 60
  }

  /** The other segments and the suffix leave room for one character of the SKU. */
  predicate OthersFit(p: Parts, suffix: string) {
    |HeadOf(p)| - |p.sku| + 1 + 1 + |suffix| <= 60
  }

  lemma PartsAreClean(f: Fields, stamp: string)
    requires Stamp(stamp)
    ensures CleanParts(PartsOf(f, stamp))
  {
    SegmentIsClean(f.service, stamp);
    SegmentIsClean(f.region, stamp);
    SegmentIsClean(f.resourceType, stamp);
    TermIsClean(f.term, stamp);
  }

  lemma CutIsGood(p: Parts, k: nat)
    requires CleanParts(p) && 1 <= k <= |p.sku|
    ensures GoodParts(RequiredOf(CutSku(p, k)))
  {
    CountIsClean(p.count);
  }

  lemma {:induction false} TrimOfConcat(a: string, b: string)
    requires a != "" && a[|a| - 1] != '-'
    ensures TrimRightHyphens(a + b) == a + TrimRightHyphens(b)
  {
    if b == "" {
      assert a + b == a && a + "" == a;
    } else {
      assert (a + b)[|a + b| - 1] == b[|b| - 1];
      if b[|b| - 1] == '-' {
        assert (a + b)[..|a + b| - 1] == a + b[..|b| - 1];
        TrimOfConcat(a, b[..|b| - 1]);
      }
    }
  }

  /** Tidying leaves what is before a hyphen and tidies the rest. */
  lemma TidyTail(x: string, tail: string)
    requires x != "" && x[0] != '-' && tail != "" && tail[0] == '-'
    ensures Tidy(x + tail) == Tidy(x) + Tidy(tail)
  {
    SqueezedTail(x, tail);
    TrimmedHead(x);
    TrimOfConcat(Tidy(x), Squeezed(tail));
  }

  lemma TidyOfClean(s: string)
    requires Clean(s)
    ensures Tidy(s) == s
  {
    NoDoubleIsSqueezed(s);
  }

  /** The start of a clean segment, behind a hyphen: at most its last hyphen goes. */
  lemma TidyCut(s: string, k: nat)
    requires Clean(s) && 1 <= k <= |s|
    ensures Tidy("-" + s[..k]) == "-" + TrimRightHyphens(s[..k])
    ensures TrimRightHyphens(s[..k]) != "" && TrimRightHyphens(s[..k]) <= s
  {
    var cut := s[..k];
    forall i | 0 <= i < |cut| ensures !DoubleAt(cut, i) {
      assert !DoubleAt(s, i);
    }
    HyphenAndClean(cut);
    TrimRightKeepsHead(cut);
    TrimRightOfCons('-', cut);
  }

  lemma TidyBehindHyphen(s: string)
    requires Clean(s)
    ensures Tidy("-" + s) == "-" + s
  {
    TidyCut(s, |s|);
    assert s[..|s|] == s && TrimRightHyphens(s) == s;
  }

  /** A count's sign is one more hyphen and goes. */
  lemma TidyCount(n: int)
    ensures Tidy("-" + CountSegment(n)) == "-" + CountText(n)
  {
    var c := CountText(n);
    CountIsClean(n);
    TidyBehindHyphen(c);
    if n < 0 {
      assert "-" + CountSegment(n) == "--" + c && ("--" + c)[1..] == "-" + c;
      DoubledHead("--" + c);
    }
  }

  lemma JoinedRequired(p: Parts)
    requires p.svc != "" && p.region != "" && p.sku != "" && p.term != ""
    ensures Joined(RequiredOf(p))
         == p.svc + ("-" + p.region) + ("-" + p.sku) + ("-" + CountSegment(p.count)) + ("-" + p.term)
  {
    var r := RequiredOf(p);
    assert r[..5] == r && r[..4] == r[..5][..4] && r[..3] == r[..4][..3];
    assert r[..2] == r[..3][..2] && r[..1] == r[..2][..1];
    assert r[..1][..0] == [] && Joined(r[..1]) == p.svc;
    assert Joined(r[..2]) == p.svc + ("-" + p.region);
    assert Joined(r[..3]) == Joined(r[..2]) + ("-" + p.sku);
    assert Joined(r[..4]) == Joined(r[..3]) + ("-" + CountSegment(p.count));
    assert Joined(r) == Joined(r[..4]) + ("-" + p.term);
  }

  /** What tidying leaves of the required segments with the SKU cut short. */
  lemma TidyRequired(p: Parts, k: nat)
    requires CleanParts(p) && 1 <= k <= |p.sku|
    ensures var kept := |TrimRightHyphens(p.sku[..k])|;
      && 1 <= kept <= k
      && Tidy(Joined(RequiredOf(CutSku(p, k)))) == HeadOf(CutSku(p, kept))
  {
    var q := CutSku(p, k);
    JoinedRequired(q);
    TidyCut(p.sku, k);
    TidyOfClean(p.svc);
    TidyBehindHyphen(p.region);
    TidyCount(p.count);
    TidyBehindHyphen(p.term);
    var a := p.svc + ("-" + p.region);
    TidyTail(p.svc, "-" + p.region);
    TidyTail(a, "-" + q.sku);
    TidyTail(a + ("-" + q.sku), "-" + CountSegment(p.count));
    TidyTail(a + ("-" + q.sku) + ("-" + CountSegment(p.count)), "-" + p.term);
    var kept := TrimRightHyphens(q.sku);
    TrimRightKeepsHead(q.sku);
    assert p.sku[..|kept|] == kept;
  }

  /** Non-empty parts behind others start with a hyphen. */
  lemma {:induction false} JoinedConcat(a: seq<string>, b: seq<string>)
    requires Joined(a) != ""
    ensures Joined(a + b) == if Joined(b) == "" then Joined(a) else Joined(a) + ("-" + Joined(b))
  {
    if b == [] {
      assert a + b == a;
    } else {
      JoinedConcat(a, b[..|b| - 1]);
      assert (a + b)[..|a + b| - 1] == a + b[..|b| - 1];
    }
  }

  /** Whatever optional segments follow, an assembled name starts with the required ones. */
  lemma AssembledKeeps(p: Parts, k: nat, optional: seq<string>, suffix: string, fallback: string)
    requires CleanParts(p) && 1 <= k <= |p.sku|
    requires GoodParts(RequiredOf(CutSku(p, k)) + optional) && suffix != "" && AllAlnum(suffix)
    ensures var name := Assembled(RequiredOf(CutSku(p, k)), optional, suffix, fallback);
      var kept := |TrimRightHyphens(p.sku[..k])|;
      && 1 <= kept <= k && StartsWith(name, CutSku(p, kept))
      && (optional == [] ==> |name| == |HeadOf(p)| - |p.sku| + kept + 1 + |suffix|)
  {
    var required := RequiredOf(CutSku(p, k));
    var parts := required + optional;
    JoinedFacts(parts);
    OneMorePart(parts, suffix);
    SanitizedSuffix(Joined(parts), suffix, fallback);
    CutIsGood(p, k);
    TidyRequired(p, k);
    TidyKeeps(required, optional, suffix);
    assert required + [] == required;
  }

  lemma OneMorePart(parts: seq<string>, p: string)
    requires Joined(parts) != "" && p != ""
    ensures Joined(parts + [p]) == Joined(parts) + ("-" + p)
  {
    assert (parts + [p])[..|parts|] == parts;
  }

  /** Segments that follow leave the tidied ones before them, and a hyphen, in place. */
  lemma TidyKeeps(required: seq<string>, optional: seq<string>, suffix: string)
    requires GoodParts(required)
    ensures Tidy(Joined(required)) + "-" <= Tidy(Joined(required + optional)) + ("-" + suffix)
  {
    var x, y := Joined(required), Joined(optional);
    JoinedFacts(required);
    JoinedConcat(required, optional);
    if y != "" {
      TidyTail(x, "-" + y);
      TidyHead("-" + y);
    }
  }

  lemma TidyHead(s: string)
    requires s != "" && s[0] == '-'
    ensures Tidy(s) == "" || Tidy(s)[0] == '-'
  {
    SqueezedHead(s);
    TrimRightIsPrefix(Squeezed(s));
  }

  lemma {:induction false} TrimRightIsPrefix(s: string)
    ensures TrimRightHyphens(s) <= s
  {
    if s != "" && s[|s| - 1] == '-' {
      TrimRightIsPrefix(s[..|s| - 1]);
    }
  }

  /** The hyphen before the suffix is the last one, so a name within the cap has room for all it
      starts with. */
  lemma HeadFits(name: string, p: Parts, suffix: string)
    requires GoodName(name, suffix, MAX_LEN) && AllAlnum(suffix) && StartsWith(name, p)
    ensures AllFit(p, suffix)
  {
    var head := HeadOf(p) + "-";
    var tail := |name| - |suffix|;
    forall j | tail <= j < |name| ensures name[j] != '-' {
      assert name[tail - 1..][j - tail + 1] == suffix[j - tail];
    }
    assert name[|head| - 1] == '-';
  }

  lemma KeptSegmentsFit(name: string, p: Parts, suffix: string)
    requires GoodName(name, suffix, MAX_LEN) && AllAlnum(suffix) && KeepsSegments(name, p)
    ensures OthersFit(p, suffix)
  {
    var k :| 1 <= k <= |p.sku| && StartsWith(name, CutSku(p, k));
    HeadFits(name, CutSku(p, k), suffix);
  }

  /** The required segments are not always kept, whatever the suffix: here the region alone fills the cap. */
  lemma LongRegionLosesSegments(suffix: string, stamp: string) returns (f: Fields)
    requires Stamp(stamp) && AllAlnum(suffix)
    ensures !OthersFit(PartsOf(f, stamp), suffix)
    ensures forall name :: GoodName(name, suffix, MAX_LEN) ==> !KeepsSegments(name, PartsOf(f, stamp))
  {
    var region := seq(MAX_LEN, _ => 'r');
    f := Fields("rds", region, "m5", 1, "1yr", "", "");
    AlnumHasNoDouble(region);
    CleanIsFixed(region, stamp);
    forall name | GoodName(name, suffix, MAX_LEN) ensures !KeepsSegments(name, PartsOf(f, stamp)) {
      if KeepsSegments(name, PartsOf(f, stamp)) {
        KeptSegmentsFit(name, PartsOf(f, stamp), suffix);
      }
    }
  }

  // ---- Building ---------------------------------------------------------------------------

  /** As much of a text as there is room for, without hyphens at its end. */
  function CutText(s: string, room: nat): string {
    var base := TrimRightHyphens(s);
    TrimRightHyphens(if |base| <= room then base else base[..room])
  }

  /** As much of the joined segments as there is room for in front of the suffix. */
  function LastResort(required: seq<string>, suffix: string, fallback: string): string
    requires |suffix| < 59
  {
    Sanitized(CutText(Joined(required), 60 - 1 - |suffix|) + "-" + suffix, fallback)
  }

  /** The start of a text that begins with a letter or digit. */
  method CutStart(s: string, room: int) returns (cut: string)
    requires s != "" && s[0] != '-' && AllAllowed(s)
    ensures var atLeast := if room < 1 then 1 else room;
      cut == CutText(s, atLeast) && |cut| <= atLeast
    ensures cut != "" && cut[0] != '-' && AllAllowed(cut)
  {
    TrimRightKeepsHead(s);
    var base := TrimRightHyphens(s);
    var keep := room;
    if keep < 1 {
      keep := 1;
    }
    if keep > |base| {
      keep := |base|;
    }
    TrimRightKeepsHead(base[..keep]);
    assert keep == |base| ==> base[..keep] == base;
    cut := TrimRightHyphens(base[..keep]);
  }

  /** The part of a name cut to make room for the suffix. */
  method CutBase(required: seq<string>, suffix: string, fallback: string) returns (name: string)
    requires GoodParts(required) && suffix != "" && AllAlnum(suffix) && |suffix| < MAX_LEN - 1
    ensures GoodName(name, suffix, MAX_LEN)
    ensures name == LastResort(required, suffix, fallback)
  {
    JoinedFacts(required);
    var joined := JoinNonEmpty(required);
    var cut := CutStart(joined, MAX_LEN - |suffix| - 1);
    SuffixSurvives(cut, suffix, fallback);
    name := SanitizeReservationId(cut + "-" + suffix, fallback);
  }

  method Assemble(required: seq<string>, optional: seq<string>, suffix: string, fallback: string) returns (name: string)
    ensures name == Assembled(required, optional, suffix, fallback)
  {
    var joined := JoinNonEmpty(required + optional + [suffix]);
    name := SanitizeReservationId(joined, fallback);
  }

  /** The time stamp is dropped first, and the payment only when that is not enough. */
  ghost predicate FirstFits(name: string, required: seq<string>, payment: string, timestamp: string, suffix: string,
                            fallback: string)
  {
    var full := Assembled(required, [payment, timestamp], suffix, fallback);
    var paid := Assembled(required, [payment], suffix, fallback);
    name == if |full| <= 60 then full else if |paid| <= 60 then paid else Assembled(required, [], suffix, fallback)
  }

  /** None of the first i names fits. */
  ghost predicate NoneFits(required: seq<string>, optionals: seq<seq<string>>, i: nat, suffix: string, fallback: string)
    requires i <= |optionals|
  {
    forall k :: 0 <= k < i ==> MAX_LEN < |Assembled(required, optionals[k], suffix, fallback)|
  }

  lemma FirstFound(required: seq<string>, payment: string, timestamp: string, i: nat, suffix: string, fallback: string)
    requires i < 3 && NoneFits(required, [[payment, timestamp], [payment], []], i, suffix, fallback)
    requires |Assembled(required, [[payment, timestamp], [payment], []][i], suffix, fallback)| <= MAX_LEN
    ensures FirstFits(Assembled(required, [[payment, timestamp], [payment], []][i], suffix, fallback),
                      required, payment, timestamp, suffix, fallback)
  {
    var optionals := [[payment, timestamp], [payment], []];
    assert 0 < i ==> MAX_LEN < |Assembled(required, optionals[0], suffix, fallback)|;
    assert 1 < i ==> MAX_LEN < |Assembled(required, optionals[1], suffix, fallback)|;
  }

  /** A name with these optional segments, whatever its length. */
  method Candidate(p: Parts, optional: seq<string>, suffix: string, fallback: string) returns (name: string)
    requires CleanParts(p) && suffix != "" && AllAlnum(suffix)
    requires forall k :: 0 <= k < |optional| ==> AllAllowed(optional[k])
    ensures name == Assembled(RequiredOf(p), optional, suffix, fallback)
    ensures GoodName(name, suffix, |name|) && StartsWith(name, p)
  {
    var required := RequiredOf(p);
    CutIsGood(p, |p.sku|);
    assert CutSku(p, |p.sku|) == p && p.sku[..|p.sku|] == p.sku;
    AssembledIsGood(required, optional, suffix, fallback);
    AssembledKeeps(p, |p.sku|, optional, suffix, fallback);
    name := Assemble(required, optional, suffix, fallback);
  }

  /** The first of the names with fewer and fewer optional segments that fits. */
  method FirstFitting(p: Parts, payment: string, timestamp: string, suffix: string, fallback: string)
    returns (name: Option<string>)
    requires CleanParts(p) && AllAllowed(payment) && AllAllowed(timestamp) && suffix != "" && AllAlnum(suffix)
    ensures name.Some? ==> GoodName(name.value, suffix, MAX_LEN) && StartsWith(name.value, p)
    ensures name.Some? ==> FirstFits(name.value, RequiredOf(p), payment, timestamp, suffix, fallback)
    ensures name.None? ==> !AllFit(p, suffix) && MAX_LEN < |Assembled(RequiredOf(p), [], suffix, fallback)|
  {
    var optionals := [[payment, timestamp], [payment], []];
    for i := 0 to 3
      invariant NoneFits(RequiredOf(p), optionals, i, suffix, fallback)
    {
      var candidate := Candidate(p, optionals[i], suffix, fallback);
      if |candidate| <= MAX_LEN {
        FirstFound(RequiredOf(p), payment, timestamp, i, suffix, fallback);
        return Some(candidate);
      }
    }
    assert optionals[2] == [];
    FullLength(p, suffix, fallback);
    return None;
  }

  /** Length of the required segments and the suffix before anything is cut. */
  lemma FullLength(p: Parts, suffix: string, fallback: string)
    requires CleanParts(p) && suffix != "" && AllAlnum(suffix)
    ensures |Assembled(RequiredOf(p), [], suffix, fallback)| == |HeadOf(p)| + 1 + |suffix|
  {
    assert CutSku(p, |p.sku|) == p && p.sku[..|p.sku|] == p.sku;
    CutIsGood(p, |p.sku|);
    assert RequiredOf(p) + [] == RequiredOf(p);
    AssembledKeeps(p, |p.sku|, [], suffix, fallback);
  }

  /** With the SKU cut to k characters the name is good for its length, keeps the segments, and is
      at most that much shorter. */
  lemma CutLength(p: Parts, k: nat, suffix: string, fallback: string)
    requires CleanParts(p) && 1 <= k <= |p.sku| && suffix != "" && AllAlnum(suffix)
    ensures GoodParts(RequiredOf(CutSku(p, k)))
    ensures var name := Assembled(RequiredOf(CutSku(p, k)), [], suffix, fallback);
      && GoodName(name, suffix, |name|)
      && KeepsSegments(name, p)
      && |HeadOf(p)| - |p.sku| + 1 + 1 + |suffix| <= |name| <= |HeadOf(p)| - |p.sku| + k + 1 + |suffix|
  {
    CutIsGood(p, k);
    var required := RequiredOf(CutSku(p, k));
    assert required + [] == required;
    AssembledIsGood(required, [], suffix, fallback);
    AssembledKeeps(p, k, [], suffix, fallback);
  }

  /** Characters that the other segments and the suffix leave for the SKU. */
  function Room(p: Parts, suffix: string): int {
    60 - (|HeadOf(p)| - |p.sku| + 1 + |suffix|)
  }

  /** A SKU that does not fit fills the room there is; with no room for a character of it the joined
      segments are cut, one character of the SKU among them. */
  ghost predicate FillsRoom(name: string, p: Parts, suffix: string, fallback: string)
    requires p.sku != "" && |suffix| < 59
  {
    if 1 <= Room(p, suffix) <= |p.sku|
    then name == Assembled(RequiredOf(CutSku(p, Room(p, suffix))), [], suffix, fallback)
    else name == LastResort(RequiredOf(CutSku(p, 1)), suffix, fallback)
  }

  /** The name with the SKU cut to the room there is, or to one character. */
  method CutToRoom(p: Parts, k: nat, suffix: string, fallback: string) returns (name: string)
    requires CleanParts(p) && suffix != "" && AllAlnum(suffix) && |suffix| < MAX_LEN - 1
    requires 1 <= k <= |p.sku| && Room(p, suffix) <= |p.sku| && k == if 1 <= Room(p, suffix) then Room(p, suffix) else 1
    ensures GoodName(name, suffix, MAX_LEN)
    ensures OthersFit(p, suffix) ==> KeepsSegments(name, p)
    ensures FillsRoom(name, p, suffix, fallback)
  {
    var required := RequiredOf(CutSku(p, k));
    CutLength(p, k, suffix, fallback);
    name := Assemble(required, [], suffix, fallback);
    if |name| > MAX_LEN {
      name := CutBase(required, suffix, fallback);
    }
  }

  /** The SKU cut by the overflow, or to one character. */
  method CutToFit(p: Parts, suffix: string, fallback: string) returns (name: string)
    requires CleanParts(p) && suffix != "" && AllAlnum(suffix) && |suffix| < MAX_LEN - 1
    requires MAX_LEN < |Assembled(RequiredOf(p), [], suffix, fallback)|
    ensures GoodName(name, suffix, MAX_LEN)
    ensures OthersFit(p, suffix) ==> KeepsSegments(name, p)
    ensures FillsRoom(name, p, suffix, fallback)
  {
    FullLength(p, suffix, fallback);
    var full := Assemble(RequiredOf(p), [], suffix, fallback);
    var newLen := |p.sku| - (|full| - MAX_LEN);
    if newLen < 1 {
      newLen := 1;
    }
    name := CutToRoom(p, newLen, suffix, fallback);
  }

  /** What a name built from these parts promises. */
  ghost predicate Built(name: string, p: Parts, payment: string, timestamp: string, suffix: string, fallback: string)
    requires p.sku != "" && |suffix| < 59
  {
    && GoodName(name, suffix, 60)
    && (KeepsSegments(name, p) <==> OthersFit(p, suffix))
    && (AllFit(p, suffix) <==> |Assembled(RequiredOf(p), [], suffix, fallback)| <= 60)
    && (AllFit(p, suffix) ==>
          StartsWith(name, p) && FirstFits(name, RequiredOf(p), payment, timestamp, suffix, fallback))
    && (!AllFit(p, suffix) ==> FillsRoom(name, p, suffix, fallback))
  }

  method BuildFromParts(p: Parts, payment: string, timestamp: string, suffix: string, fallback: string)
    returns (name: string)
    requires CleanParts(p) && AllAllowed(payment) && AllAllowed(timestamp)
    requires suffix != "" && AllAlnum(suffix) && |suffix| < MAX_LEN - 1
    ensures Built(name, p, payment, timestamp, suffix, fallback)
  {
    FullLength(p, suffix, fallback);
    var fitting := FirstFitting(p, payment, timestamp, suffix, fallback);
    if fitting.Some? {
      name := fitting.value;
      WholeSkuKept(name, p);
      HeadFits(name, p, suffix);
    } else {
      name := CutToFit(p, suffix, fallback);
    }
    if KeepsSegments(name, p) {
      KeptSegmentsFit(name, p, suffix);
    }
  }

  lemma WholeSkuKept(name: string, p: Parts)
    requires p.sku != "" && StartsWith(name, p)
    ensures KeepsSegments(name, p)
  {
    assert CutSku(p, |p.sku|) == p;
  }

  /** Every name fits the cap, is clean, and ends with a hyphen and the whole random suffix, through
      all stages of dropping and truncation. It starts with service, region, a non-empty start of the
      SKU, count and term exactly when the others leave room for one character of the SKU. When the
      SKU fits it is whole, and what is dropped first is the time stamp, then the payment. */
  method BuildReservationName(f: Fields, suffix: string, fallback: string, stamp: string) returns (name: string)
    requires suffix != "" && AllAlnum(suffix) && |suffix| < MAX_LEN - 1
    requires Stamp(stamp) && AllAllowed(f.timestamp)
    ensures CleanParts(PartsOf(f, stamp))
    ensures Built(name, PartsOf(f, stamp), PaymentSegment(f.payment, stamp), f.timestamp, suffix, fallback)
  {
    PartsAreClean(f, stamp);
    PaymentIsAllowed(f.payment, stamp);
    name := BuildFromParts(PartsOf(f, stamp), PaymentSegment(f.payment, stamp), f.timestamp, suffix, fallback);
  }
}
