/** AmneziaWG obfuscation parameters: the generator of
    apps/api/src/inbounds/amneziawg-domain.ts against the validator of
    packages/shared/src/schemas.ts. Each `randomInt` is an input with its range; a loop
    that draws again takes its draws from a sequence, and gives no result if that ends. */
module AmneziawgParams {
  import opened Options
  import opened Text

  const MAX_HEADER := 2_147_483_647

  // ---------------------------------------------------------------- header ranges

  datatype Span = Span(lo: int, hi: int)

  predicate Overlap(a: Span, b: Span) { a.hi >= b.lo && b.hi >= a.lo }

  /** ... as the generator asks it. */
  predicate Collides(span: Span, lo: int, hi: int) { !(hi < span.lo || lo > span.hi) }

  predicate Disjoint(spans: seq<Span>) {
    forall i, j :: 0 <= i < j < |spans| ==> !Overlap(spans[i], spans[j])
  }

  predicate Number(s: string) { s != "" && Digits(s) }

  /** The header schema: digits, or digits, '-' and digits. */
  predicate HeaderText(s: string) {
    var parts := Split(s, '-');
    |parts| <= 2 && Number(parts[0]) && (|parts| == 2 ==> Number(parts[1]))
  }

  /** `parseAmneziawgHeaderRange`. */
  function ParseHeader(s: string): Span
    requires HeaderText(s)
  {
    var parts := Split(s, '-');
    var lo := Value(parts[0]);
    Span(lo, if |parts| == 2 then Value(parts[1]) else lo)
  }

  lemma DigitsHaveNoDash(s: string)
    requires Digits(s)
    ensures '-' !in s
  {
  }

  /** A header is a number, or two with a '-' between them, and is parsed as such. */
  lemma HeadersAreRanges(s: string)
    ensures HeaderText(s) <==>
      Number(s) || exists left, right :: Number(left) && Number(right) && s == left + "-" + right
    ensures Number(s) ==> HeaderText(s) && ParseHeader(s) == Span(Value(s), Value(s))
    ensures forall left, right :: Number(left) && Number(right) && s == left + "-" + right ==>
      HeaderText(s) && ParseHeader(s) == Span(Value(left), Value(right))
  {
    hide Digits, Value;
    if Number(s) {
      DigitsHaveNoDash(s);
      SplitFirst(s, "", '-');
    }
    forall left, right | Number(left) && Number(right) && s == left + "-" + right
      ensures Split(s, '-') == [left, right]
    {
      DigitsHaveNoDash(left);
      DigitsHaveNoDash(right);
      SplitFirst(left, right, '-');
      SplitFirst(right, "", '-');
      assert left + ['-'] + right == s;
    }
    if HeaderText(s) {
      JoinSplit(s, '-');
      var parts := Split(s, '-');
      if |parts| == 1 {
        assert s == parts[0];
      } else {
        assert parts[1..] == [parts[1]];
        assert s == parts[0] + "-" + parts[1];
      }
    }
  }

  function HeaderOf(span: Span): string
    requires span.lo >= 0 && span.hi >= 0
  {
    Decimal(span.lo) + "-" + Decimal(span.hi)
  }

  lemma HeaderRoundTrip(span: Span)
    requires span.lo >= 0 && span.hi >= 0
    ensures HeaderText(HeaderOf(span)) && ParseHeader(HeaderOf(span)) == span
  {
    var left, right := Decimal(span.lo), Decimal(span.hi);
    SplitFirst(left, right, '-');
    SplitFirst(right, "", '-');
    assert left + ['-'] + right == HeaderOf(span);
    PrintedIsRead(span.lo);
    PrintedIsRead(span.hi);
  }

  // ---------------------------------------------------------------- the validator

  datatype Obfuscation = Obfuscation(
    jc: int, jmin: int, jmax: int, s1: int, s2: int, s3: int, s4: int,
    h1: string, h2: string, h3: string, h4: string,
    i1: string, i2: Option<string>, i3: Option<string>, i4: Option<string>, i5: Option<string>)

  predicate Packet(i: Option<string>) { i.Some? ==> |i.value| <= 4_096 }

  /** The field schemas, with `i1` optional text as the settings have it. */
  predicate FieldsFit(o: Obfuscation) {
    1 <= o.jc <= 128 && 1 <= o.jmin <= 1_280 && 1 <= o.jmax <= 1_280
    && 0 <= o.s1 <= 150 && 0 <= o.s2 <= 150 && 0 <= o.s3 <= 150 && 0 <= o.s4 <= 150
    && HeaderText(o.h1) && HeaderText(o.h2) && HeaderText(o.h3) && HeaderText(o.h4)
    && |o.i1| <= 4_096 && Packet(o.i2) && Packet(o.i3) && Packet(o.i4) && Packet(o.i5)
  }

  function Headers(o: Obfuscation): seq<Span>
    requires FieldsFit(o)
  {
    [ParseHeader(o.h1), ParseHeader(o.h2), ParseHeader(o.h3), ParseHeader(o.h4)]
  }

  predicate InRange(h: Span) { 1 <= h.lo <= h.hi <= MAX_HEADER }

  /** What the obfuscation parameters must satisfy together. */
  predicate Consistent(o: Obfuscation)
    requires FieldsFit(o)
  {
    o.jmin <= o.jmax && o.s2 != o.s1 + 56
    && (forall i :: 0 <= i < 4 ==> InRange(Headers(o)[i])) && Disjoint(Headers(o))
  }

  datatype Issue = JmaxBelowJmin | S2IsS1Plus56 | BadHeader(index: nat) | HeadersOverlap(index: nat)

  /** Some header before `j`, among the first `n`, overlaps header `j`. */
  predicate Earlier(headers: seq<Span>, j: nat, n: nat)
    requires j < |headers|
  {
    exists i :: 0 <= i < j && i < n && Overlap(headers[i], headers[j])
  }

  /** The issues that must be reported, and no other. */
  predicate IsIssue(o: Obfuscation, headers: seq<Span>, x: Issue)
    requires |headers| == 4
  {
    match x
    case JmaxBelowJmin => o.jmax < o.jmin
    case S2IsS1Plus56 => o.s2 == o.s1 + 56
    case BadHeader(i) => i < 4 && !InRange(headers[i])
    case HeadersOverlap(j) => j < 4 && Earlier(headers, j, 4)
  }

  method RangeIssues(headers: seq<Span>) returns (issues: seq<Issue>)
    requires |headers| == 4
    ensures forall x :: x in issues <==> x.BadHeader? && x.index < 4 && !InRange(headers[x.index])
  {
    issues := [];
    var k := 0;
    while k < 4
      invariant 0 <= k <= 4
      invariant forall x :: x in issues <==> x.BadHeader? && x.index < k && !InRange(headers[x.index])
    {
      if headers[k].lo < 1 || headers[k].hi > MAX_HEADER || headers[k].hi < headers[k].lo {
        issues := issues + [BadHeader(k)];
      }
      k := k + 1;
    }
  }

  method OverlapIssues(headers: seq<Span>) returns (issues: seq<Issue>)
    requires |headers| == 4
    ensures forall x :: x in issues <==> x.HeadersOverlap? && x.index < 4 && Earlier(headers, x.index, 4)
  {
    issues := [];
    var i := 0;
    while i < 4
      invariant 0 <= i <= 4
      invariant forall x :: x in issues <==> x.HeadersOverlap? && x.index < 4 && Earlier(headers, x.index, i)
    {
      var j := i + 1;
      var before := issues;
      while j < 4
        invariant i < j <= 4
        invariant forall x :: x in issues <==>
          x in before || (x.HeadersOverlap? && i < x.index < j && Overlap(headers[i], headers[x.index]))
      {
        if headers[i].hi >= headers[j].lo && headers[j].hi >= headers[i].lo {
          issues := issues + [HeadersOverlap(j)];
        }
        j := j + 1;
      }
      i := i + 1;
    }
  }

  /** `refineAmneziawgObfuscation`: it reports exactly the issues there are, and none
      exactly for consistent parameters. */
  method Refine(o: Obfuscation) returns (issues: seq<Issue>)
    requires FieldsFit(o)
    ensures issues == [] <==> Consistent(o)
    ensures forall x :: x in issues <==> IsIssue(o, Headers(o), x)
  {
    hide Headers, InRange, Overlap, FieldsFit, Earlier;
    issues := [];
    if o.jmax < o.jmin { issues := issues + [JmaxBelowJmin]; }
    if o.s1 + 56 == o.s2 { issues := issues + [S2IsS1Plus56]; }
    HeadersAreFour(o);
    var headers := Headers(o);
    var bad := RangeIssues(headers);
    var overlapping := OverlapIssues(headers);
    var two := issues;
    assert forall x :: x in two <==> !x.BadHeader? && !x.HeadersOverlap? && IsIssue(o, headers, x);
    issues := issues + bad + overlapping;
    assert forall x :: x in issues <==> x in two || x in bad || x in overlapping;
    assert forall x :: x in issues <==> IsIssue(o, headers, x);
    NoIssue(o);
    assert issues != [] ==> issues[0] in issues;
  }

  lemma HeadersAreFour(o: Obfuscation)
    requires FieldsFit(o)
    ensures |Headers(o)| == 4
  {
  }

  lemma NoIssue(o: Obfuscation)
    requires FieldsFit(o)
    ensures (forall x :: !IsIssue(o, Headers(o), x)) <==> Consistent(o)
  {
    hide InRange, Overlap, FieldsFit, Headers;
    HeadersAreFour(o);
    var headers := Headers(o);
    if forall x :: !IsIssue(o, headers, x) {
      assert !IsIssue(o, headers, JmaxBelowJmin) && !IsIssue(o, headers, S2IsS1Plus56);
      forall i | 0 <= i < 4 ensures InRange(headers[i]) { assert !IsIssue(o, headers, BadHeader(i)); }
      forall i, j | 0 <= i < j < 4 ensures !Overlap(headers[i], headers[j]) {
        assert !IsIssue(o, headers, HeadersOverlap(j));
      }
      assert Disjoint(headers);
    }
    if Consistent(o) {
      forall x ensures !IsIssue(o, headers, x) {
      }
    }
  }

  /** `amneziawgObfuscationSchema`. */
  predicate Accepts(o: Obfuscation) { FieldsFit(o) && |o.i1| >= 1 && Consistent(o) }

  // ---------------------------------------------------------------- the generator

  /** One round of the loop: `width` in 10000..100000 and `lo` in 1..max-width-1. */
  datatype Draw = Draw(width: int, lo: int)

  predicate IsDraw(d: Draw) { 10_000 <= d.width <= 100_000 && 1 <= d.lo < MAX_HEADER - d.width }

  function SpanOf(d: Draw): Span { Span(d.lo, d.lo + d.width) }

  predicate Fits(spans: seq<Span>, d: Draw) {
    forall i :: 0 <= i < |spans| ==> !Collides(spans[i], d.lo, d.lo + d.width)
  }

  /** The draws that are kept when each is kept unless it collides with an earlier one. */
  function Kept(draws: seq<Draw>): seq<Span> {
    if draws == [] then []
    else
      var before, d := Kept(draws[..|draws| - 1]), draws[|draws| - 1];
      if Fits(before, d) then before + [SpanOf(d)] else before
  }

  predicate SpansFit(spans: seq<Span>) {
    Disjoint(spans) && forall i :: 0 <= i < |spans| ==>
      InRange(spans[i]) && 10_000 <= spans[i].hi - spans[i].lo <= 100_000
  }

  lemma {:induction false} KeptFit(draws: seq<Draw>)
    requires forall i :: 0 <= i < |draws| ==> IsDraw(draws[i])
    ensures SpansFit(Kept(draws))
  {
    if draws != [] { KeptFit(draws[..|draws| - 1]); }
  }

  lemma {:induction false} KeptGrows(draws: seq<Draw>, n: nat)
    requires n <= |draws|
    ensures Kept(draws[..n]) <= Kept(draws)
  {
    if n < |draws| {
      assert draws[..|draws| - 1][..n] == draws[..n];
      KeptGrows(draws[..|draws| - 1], n);
    } else {
      assert draws[..n] == draws;
    }
  }

  /** The loop of `generateHeaderRanges`: the first four draws that do not collide. */
  method GenerateHeaderRanges(draws: seq<Draw>) returns (r: Option<seq<Span>>)
    requires forall i :: 0 <= i < |draws| ==> IsDraw(draws[i])
    ensures r.Some? <==> |Kept(draws)| >= 4
    ensures r.Some? ==> r.value == Kept(draws)[..4] && SpansFit(r.value)
  {
    var spans: seq<Span> := [];
    var n := 0;
    while |spans| < 4 && n < |draws|
      invariant 0 <= n <= |draws| && |spans| <= 4
      invariant spans == Kept(draws[..n])
    {
      var hi := draws[n].lo + draws[n].width;
      assert draws[..n + 1][..n] == draws[..n];
      if !(exists i :: 0 <= i < |spans| && Collides(spans[i], draws[n].lo, hi)) {
        spans := spans + [Span(draws[n].lo, hi)];
      }
      n := n + 1;
    }
    KeptGrows(draws, n);
    KeptFit(draws[..n]);
    if |spans| < 4 {
      assert draws[..n] == draws;
      return None;
    }
    r := Some(spans);
  }

  function Candidate(k: nat): Draw { Draw(10_000, 1 + 200_000 * k) }

  predicate Hits(s: Span, k: nat) { Collides(s, Candidate(k).lo, Candidate(k).lo + 10_000) }

  lemma OneCandidateEach(s: Span)
    requires s.hi - s.lo <= 100_000
    ensures forall k, m :: Hits(s, k) && Hits(s, m) ==> k == m
  {
  }

  lemma HitBySome(spans: seq<Span>, k: nat)
    requires !Fits(spans, Candidate(k))
    ensures exists i :: 0 <= i < |spans| && Hits(spans[i], k)
  {
    var i :| 0 <= i < |spans| && Collides(spans[i], Candidate(k).lo, Candidate(k).lo + Candidate(k).width);
    assert Hits(spans[i], k);
  }

  /** The loop never gets stuck: with fewer than four ranges chosen some next draw is kept. */
  lemma SomeDrawFits(spans: seq<Span>)
    requires SpansFit(spans) && |spans| < 4
    ensures exists d :: IsDraw(d) && Fits(spans, d)
  {
    assert IsDraw(Candidate(0)) && IsDraw(Candidate(1)) && IsDraw(Candidate(2)) && IsDraw(Candidate(3));
    forall i | 0 <= i < |spans| ensures forall k, m :: Hits(spans[i], k) && Hits(spans[i], m) ==> k == m {
      OneCandidateEach(spans[i]);
    }
    hide Hits, Candidate, Fits, IsDraw, SpansFit;
    if !Fits(spans, Candidate(0)) && !Fits(spans, Candidate(1)) && !Fits(spans, Candidate(2))
      && !Fits(spans, Candidate(3)) {
      HitBySome(spans, 0);
      HitBySome(spans, 1);
      HitBySome(spans, 2);
      HitBySome(spans, 3);
      assert false;
    }
  }

  /** The numbers drawn once. */
  datatype Drawn = Drawn(jc: int, jmin: int, gap: int, s1: int, s3: int, s4: int)

  predicate IsDrawn(d: Drawn) {
    3 <= d.jc < 7 && 40 <= d.jmin < 70 && 50 <= d.gap < 121 && 15 <= d.s1 < 151 && 8 <= d.s3 < 56 && 4 <= d.s4 < 28
  }

  function FirstAdmissible(s1: int, s2s: seq<int>): Option<int> {
    if s2s == [] then None else if s1 + 56 != s2s[0] then Some(s2s[0]) else FirstAdmissible(s1, s2s[1..])
  }

  /** `generateAmneziawgObfuscation`. Whatever is drawn, the validator accepts the result. */
  method Generate(d: Drawn, s2s: seq<int>, draws: seq<Draw>) returns (r: Option<Obfuscation>)
    requires IsDrawn(d) && forall i :: 0 <= i < |s2s| ==> 15 <= s2s[i] < 151
    requires forall i :: 0 <= i < |draws| ==> IsDraw(draws[i])
    ensures r.Some? <==> FirstAdmissible(d.s1, s2s).Some? && |Kept(draws)| >= 4
    ensures r.Some? ==> Accepts(r.value) && Headers(r.value) == Kept(draws)[..4]
    ensures r.Some? ==> r.value.s2 == FirstAdmissible(d.s1, s2s).value
    ensures r.Some? ==>
      r.value.jc == d.jc && r.value.jmin == d.jmin && r.value.jmax == d.jmin + d.gap
      && r.value.s1 == d.s1 && r.value.s3 == d.s3 && r.value.s4 == d.s4 && r.value.i1 == "<r 128>"
      && r.value.i2 == r.value.i3 == r.value.i4 == r.value.i5 == None
  {
    hide Kept, ParseHeader, HeaderText, HeaderOf;
    var n := 0;
    while n < |s2s| && d.s1 + 56 == s2s[n]
      invariant 0 <= n <= |s2s|
      invariant FirstAdmissible(d.s1, s2s) == FirstAdmissible(d.s1, s2s[n..])
    {
      n := n + 1;
    }
    if n == |s2s| { return None; }
    var s2 := s2s[n];
    assert FirstAdmissible(d.s1, s2s) == Some(s2);
    var spans := GenerateHeaderRanges(draws);
    if spans.None? { return None; }
    var h := spans.value;
    forall i | 0 <= i < 4 ensures HeaderText(HeaderOf(h[i])) && ParseHeader(HeaderOf(h[i])) == h[i] {
      HeaderRoundTrip(h[i]);
    }
    var o := Obfuscation(
      d.jc, d.jmin, d.jmin + d.gap, d.s1, s2, d.s3, d.s4,
      HeaderOf(h[0]), HeaderOf(h[1]), HeaderOf(h[2]), HeaderOf(h[3]),
      "<r 128>", None, None, None, None);
    assert FieldsFit(o);
    assert Headers(o) == h;
    r := Some(o);
  }

  // ---------------------------------------------------------------- settings

  /** The optional fields of an inbound's settings. */
  datatype Settings = Settings(
    jc: Option<int>, jmin: Option<int>, jmax: Option<int>,
    s1: Option<int>, s2: Option<int>, s3: Option<int>, s4: Option<int>,
    h1: Option<string>, h2: Option<string>, h3: Option<string>, h4: Option<string>,
    i1: Option<string>, i2: Option<string>, i3: Option<string>, i4: Option<string>, i5: Option<string>)

  predicate AllSupplied(s: Settings) {
    s.jc.Some? && s.jmin.Some? && s.jmax.Some? && s.s1.Some? && s.s2.Some? && s.s3.Some? && s.s4.Some?
    && s.h1.Some? && s.h2.Some? && s.h3.Some? && s.h4.Some? && s.i1.Some?
  }

  predicate NoneSupplied(s: Settings) {
    s.jc.None? && s.jmin.None? && s.jmax.None? && s.s1.None? && s.s2.None? && s.s3.None? && s.s4.None?
    && s.h1.None? && s.h2.None? && s.h3.None? && s.h4.None? && s.i1.None?
  }

  function Supplied(s: Settings): Obfuscation
    requires AllSupplied(s)
  {
    Obfuscation(
      s.jc.value, s.jmin.value, s.jmax.value, s.s1.value, s.s2.value, s.s3.value, s.s4.value,
      s.h1.value, s.h2.value, s.h3.value, s.h4.value, s.i1.value, s.i2, s.i3, s.i4, s.i5)
  }

  /** `amneziawgInboundSettingsSchema` on these fields; unlike the obfuscation schema it
      has no minimal length for `i1`. */
  predicate SettingsAccepted(s: Settings) {
    (NoneSupplied(s) && Packet(s.i2) && Packet(s.i3) && Packet(s.i4) && Packet(s.i5))
    || (AllSupplied(s) && FieldsFit(Supplied(s)) && Consistent(Supplied(s)))
  }

  /** Every field of the settings is the one of these parameters. */
  predicate Holds(s: Settings, o: Obfuscation) {
    && s.jc == Some(o.jc) && s.jmin == Some(o.jmin) && s.jmax == Some(o.jmax)
    && s.s1 == Some(o.s1) && s.s2 == Some(o.s2) && s.s3 == Some(o.s3) && s.s4 == Some(o.s4)
    && s.h1 == Some(o.h1) && s.h2 == Some(o.h2) && s.h3 == Some(o.h3) && s.h4 == Some(o.h4)
    && s.i1 == Some(o.i1) && s.i2 == o.i2 && s.i3 == o.i3 && s.i4 == o.i4 && s.i5 == o.i5
  }

  /** Which of the twelve fields that belong together are given. */
  function Given(s: Settings): seq<bool> {
    [s.jc.Some?, s.jmin.Some?, s.jmax.Some?, s.s1.Some?, s.s2.Some?, s.s3.Some?, s.s4.Some?,
     s.h1.Some?, s.h2.Some?, s.h3.Some?, s.h4.Some?, s.i1.Some?]
  }

  /** Settings are accepted with all twelve fields or with none. */
  lemma AllOrNone(s: Settings)
    ensures AllSupplied(s) <==> forall i :: 0 <= i < 12 ==> Given(s)[i]
    ensures NoneSupplied(s) <==> forall i :: 0 <= i < 12 ==> !Given(s)[i]
    ensures SettingsAccepted(s) ==> forall i, j :: 0 <= i < 12 && 0 <= j < 12 ==> Given(s)[i] == Given(s)[j]
  {
    hide Consistent, FieldsFit, Packet;
    var g := Given(s);
    assert (forall i :: 0 <= i < 12 ==> g[i]) ==>
      g[0] && g[1] && g[2] && g[3] && g[4] && g[5] && g[6] && g[7] && g[8] && g[9] && g[10] && g[11];
    assert (forall i :: 0 <= i < 12 ==> !g[i]) ==>
      !g[0] && !g[1] && !g[2] && !g[3] && !g[4] && !g[5] && !g[6] && !g[7] && !g[8] && !g[9] && !g[10] && !g[11];
  }

  /** `resolveObfuscation`. */
  method ResolveObfuscation(s: Settings, previous: Option<Obfuscation>, d: Drawn, s2s: seq<int>, draws: seq<Draw>)
      returns (r: Option<Obfuscation>)
    requires IsDrawn(d) && forall i :: 0 <= i < |s2s| ==> 15 <= s2s[i] < 151
    requires forall i :: 0 <= i < |draws| ==> IsDraw(draws[i])
    ensures AllSupplied(s) ==> r == Some(Supplied(s)) && Holds(s, r.value)
    ensures !AllSupplied(s) && previous.Some? ==> r == previous
    ensures SettingsAccepted(s) && (previous.Some? ==> Accepts(previous.value)) && r.Some? ==>
      (Accepts(r.value) <==> !(AllSupplied(s) && s.i1.value == ""))
  {
    if AllSupplied(s) { return Some(Supplied(s)); }
    if previous.Some? { return previous; }
    r := Generate(d, s2s, draws);
  }

  const PLAIN := Obfuscation(4, 40, 70, 0, 0, 0, 0, "1", "2", "3", "4", "", None, None, None, None)

  function AsSettings(o: Obfuscation): Settings {
    Settings(
      Some(o.jc), Some(o.jmin), Some(o.jmax), Some(o.s1), Some(o.s2), Some(o.s3), Some(o.s4),
      Some(o.h1), Some(o.h2), Some(o.h3), Some(o.h4), Some(o.i1), o.i2, o.i3, o.i4, o.i5)
  }

  /** Parameters are the same as settings. */
  lemma SettingsHold(o: Obfuscation)
    ensures Holds(AsSettings(o), o) && AllSupplied(AsSettings(o)) && Supplied(AsSettings(o)) == o
  {
  }

  /** Settings with an empty `i1` are accepted, and what is stored for them is not. */
  lemma EmptyPacketSlipsThrough()
    ensures SettingsAccepted(AsSettings(PLAIN)) && Supplied(AsSettings(PLAIN)) == PLAIN && !Accepts(PLAIN)
  {
    OneDigit('1');
    OneDigit('2');
    OneDigit('3');
    OneDigit('4');
    hide HeaderText, ParseHeader;
    assert FieldsFit(PLAIN);
    assert Headers(PLAIN) == [Span(1, 1), Span(2, 2), Span(3, 3), Span(4, 4)];
  }

  lemma OneDigit(c: char)
    requires '0' <= c <= '9'
    ensures HeaderText([c]) && ParseHeader([c]) == Span(c as int - '0' as int, c as int - '0' as int)
  {
    SplitFirst([c], "", '-');
    assert [c][..0] == "" && Value("") == 0;
  }
}
