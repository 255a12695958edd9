/** The overall site score and the row bookkeeping of the metric tables in the PDF report. */
module PdfBuilder {
  import opened Prelude

  // ---------------------------------------------------------------------------------- rounding

  /** Rounding to the nearest integer, halves to even. */
  function Round(x: real): int
  {
    var f := x.Floor;
    var rest := x - f as real;
    if rest < 0.5 then f else if rest > 0.5 then f + 1 else if f % 2 == 0 then f else f + 1
  }

  /** The nearest integer; of two equally near ones the even one. */
  lemma RoundIs(x: real)
    ensures -0.5 <= Round(x) as real - x <= 0.5
    ensures Round(x) as real - x == 0.5 || x - Round(x) as real == 0.5 ==> Round(x) % 2 == 0
  {
  }

  lemma RoundMonotone(x: real, y: real)
    requires x <= y
    ensures Round(x) <= Round(y)
  {
  }

  lemma RoundInteger(n: int)
    ensures Round(n as real) == n
  {
  }

  function Clamp(x: real): int
  {
    var r := Round(x);
    if r < 0 then 0 else if r > 100 then 100 else r
  }

  // ------------------------------------------------------------------------------- the sub-scores

  function SumOf(xs: seq<real>): real
  {
    if xs == [] then 0.0 else SumOf(xs[..|xs| - 1]) + xs[|xs| - 1]
  }

  function Present(xs: seq<Option<real>>): seq<real>
  {
    if xs == [] then []
    else
      var last := xs[|xs| - 1];
      Present(xs[..|xs| - 1]) + if last.Some? then [last.value] else []
  }

  function Mean(xs: seq<real>): Option<int>
  {
    if xs == [] then None else Some(Round(SumOf(xs) / |xs| as real))
  }

  /** `_mean_score`: values that are not numbers are left out. */
  function MeanScore(xs: seq<Option<real>>): Option<int>
  {
    Mean(Present(xs))
  }

  datatype Grade = APlus | A | B | C | D | F | T | NoGrade

  datatype PageSpeed = PageSpeed(performance: Option<real>, accessibility: Option<real>, bestPractices: Option<real>, seo: Option<real>)
  datatype Gtmetrix = Gtmetrix(performance: Option<real>, structure: Option<real>)
  datatype Wave = Wave(errors: nat, contrast: nat)
  datatype Ssl = Ssl(grade: Grade, untrusted: bool, vulnerable: bool)
  datatype Links = Links(total: nat, broken: nat)
  datatype Structured = Structured(total: nat, valid: nat, errors: nat)

  /** The tools whose status is "ok"; the others are `None`. */
  datatype Report = Report(
    pagespeed: Option<PageSpeed>,
    gtmetrix: Option<Gtmetrix>,
    accessibility: Option<Wave>,
    ssl: Option<Ssl>,
    links: Option<Links>,
    structured: Option<Structured>)

  function PageSpeedScore(d: PageSpeed): Option<int> { MeanScore([d.performance, d.accessibility, d.bestPractices, d.seo]) }

  function GtmetrixScore(d: Gtmetrix): Option<int> { MeanScore([d.performance, d.structure]) }

  function AccessibilityScore(d: Wave): int { Clamp((100 - 3 * d.errors - 2 * d.contrast) as real) }

  function GradeScore(g: Grade): Option<int>
  {
    match g
    case APlus => Some(100)
    case A => Some(95)
    case B => Some(80)
    case C => Some(65)
    case D => Some(50)
    case F => Some(30)
    case T => Some(30)
    case NoGrade => None
  }

  function SslScore(d: Ssl): Option<int>
  {
    match GradeScore(d.grade)
    case None => None
    case Some(s) => if (d.untrusted || d.vulnerable) && s > 40 then Some(40) else Some(s)
  }

  function LinksScore(d: Links): Option<int>
  {
    if d.total == 0 then None
    else Some(Clamp((100 * (d.total - d.broken)) as real / d.total as real))
  }

  function StructuredScore(d: Structured): Option<int>
  {
    if d.total == 0 then None
    else Some(Clamp((100 * d.valid) as real / d.total as real - (5 * d.errors) as real))
  }

  /** Three points off for an error and two for a contrast error, down to 0. */
  lemma AccessibilityIs(d: Wave)
    ensures AccessibilityScore(d) == if 3 * d.errors + 2 * d.contrast >= 100 then 0 else 100 - 3 * d.errors - 2 * d.contrast
  {
    RoundInteger(100 - 3 * d.errors - 2 * d.contrast);
  }

  /** The points of a grade; at most 40 when the certificate is not trusted or the site is vulnerable. */
  lemma SslIs(d: Ssl)
    ensures d.grade == NoGrade ==> SslScore(d) == None
    ensures d.grade != NoGrade && !d.untrusted && !d.vulnerable ==>
              SslScore(d) == Some(match d.grade case APlus => 100 case A => 95 case B => 80 case C => 65 case D => 50 case _ => 30)
    ensures d.grade != NoGrade && (d.untrusted || d.vulnerable) ==>
              SslScore(d) == Some(if d.grade == F || d.grade == T then 30 else 40)
  {
  }

  /** The nearest integer to `x`, cut to 0..100. */
  ghost predicate CutNear(n: int, x: real)
  {
    if x < 0.0 then n == 0 else if x > 100.0 then n == 100
    else 0 <= n <= 100 && -0.5 <= n as real - x <= 0.5 && (n as real - x == 0.5 || x - n as real == 0.5 ==> n % 2 == 0)
  }

  lemma ClampIs(x: real)
    ensures CutNear(Clamp(x), x)
  {
    RoundIs(x);
  }

  /** The percentage of links that are not broken. */
  lemma LinksIs(d: Links)
    ensures d.total == 0 <==> LinksScore(d) == None
    ensures d.total > 0 ==> CutNear(LinksScore(d).value, (100 * (d.total - d.broken)) as real / d.total as real)
  {
    if d.total > 0 {
      ClampIs((100 * (d.total - d.broken)) as real / d.total as real);
    }
  }

  /** The percentage of valid objects, with five points off for an error. */
  lemma StructuredIs(d: Structured)
    ensures d.total == 0 <==> StructuredScore(d) == None
    ensures d.total > 0 ==> CutNear(StructuredScore(d).value, (100 * d.valid) as real / d.total as real - (5 * d.errors) as real)
  {
    if d.total > 0 {
      ClampIs((100 * d.valid) as real / d.total as real - (5 * d.errors) as real);
    }
  }

  function Or0(x: Option<real>): real { if x.Some? then x.value else 0.0 }
  function One(x: Option<real>): int { if x.Some? then 1 else 0 }

  lemma PresentLast(ys: seq<Option<real>>, xs: seq<Option<real>>, x: Option<real>)
    requires ys == xs + [x]
    ensures SumOf(Present(ys)) == SumOf(Present(xs)) + Or0(x)
    ensures |Present(ys)| == |Present(xs)| + One(x)
  {
    assert ys[..|ys| - 1] == xs;
    if x.Some? {
      SumAppend(Present(xs), x.value);
    } else {
      assert Present(xs) + [] == Present(xs);
    }
  }

  /** The rounded mean of `n` numbers with this sum; none when there are none. */
  ghost predicate IsMean(score: Option<int>, sum: real, n: int)
  {
    (n == 0 <==> score == None) && (score.Some? ==> n > 0 && score.value == Round(sum / n as real))
  }

  lemma MeanIs(xs: seq<real>)
    ensures IsMean(Mean(xs), SumOf(xs), |xs|)
  {
  }

  lemma PresentTwo(a: Option<real>, b: Option<real>)
    ensures SumOf(Present([a, b])) == Or0(a) + Or0(b) && |Present([a, b])| == One(a) + One(b)
  {
    PresentLast([a], [], a);
    PresentLast([a, b], [a], b);
  }

  lemma PresentFour(a: Option<real>, b: Option<real>, c: Option<real>, d: Option<real>)
    ensures SumOf(Present([a, b, c, d])) == Or0(a) + Or0(b) + Or0(c) + Or0(d)
    ensures |Present([a, b, c, d])| == One(a) + One(b) + One(c) + One(d)
  {
    PresentTwo(a, b);
    PresentLast([a, b, c], [a, b], c);
    PresentLast([a, b, c, d], [a, b, c], d);
  }

  /** PageSpeed: the mean of the four category scores that are there. */
  lemma PageSpeedIs(d: PageSpeed)
    ensures IsMean(PageSpeedScore(d),
                   Or0(d.performance) + Or0(d.accessibility) + Or0(d.bestPractices) + Or0(d.seo),
                   One(d.performance) + One(d.accessibility) + One(d.bestPractices) + One(d.seo))
  {
    PresentFour(d.performance, d.accessibility, d.bestPractices, d.seo);
    MeanIs(Present([d.performance, d.accessibility, d.bestPractices, d.seo]));
  }

  lemma GtmetrixIs(d: Gtmetrix)
    ensures IsMean(GtmetrixScore(d), Or0(d.performance) + Or0(d.structure), One(d.performance) + One(d.structure))
  {
    PresentTwo(d.performance, d.structure);
    MeanIs(Present([d.performance, d.structure]));
  }

  // ----------------------------------------------------------------------------- the overall score

  const TOOLS := 6

  /** The vote of tool `k`, in the order of the scorer table; `None` when it does not score. */
  function Vote(r: Report, k: nat): Option<int>
  {
    if k == 0 then (if r.pagespeed.Some? then PageSpeedScore(r.pagespeed.value) else None)
    else if k == 1 then (if r.gtmetrix.Some? then GtmetrixScore(r.gtmetrix.value) else None)
    else if k == 2 then (if r.accessibility.Some? then Some(AccessibilityScore(r.accessibility.value)) else None)
    else if k == 3 then (if r.ssl.Some? then SslScore(r.ssl.value) else None)
    else if k == 4 then (if r.links.Some? then LinksScore(r.links.value) else None)
    else if r.structured.Some? then StructuredScore(r.structured.value) else None
  }

  /** The votes of the first `n` tools. */
  function Votes(r: Report, n: nat): seq<real>
  {
    if n == 0 then []
    else Votes(r, n - 1) + if Vote(r, n - 1).Some? then [Vote(r, n - 1).value as real] else []
  }

  method Total(xs: seq<real>) returns (sum: real)
    ensures sum == SumOf(xs)
  {
    sum := 0.0;
    for k := 0 to |xs|
      invariant sum == SumOf(xs[..k])
    {
      assert xs[..k + 1][..k] == xs[..k];
      sum := sum + xs[k];
    }
    assert xs[..|xs|] == xs;
  }

  /** `_overall_score`. */
  method OverallScore(r: Report) returns (score: Option<int>)
    ensures score == Mean(Votes(r, TOOLS))
    ensures score.None? <==> forall k :: 0 <= k < TOOLS ==> Vote(r, k).None?
    ensures score.Some? ==>
              && (exists k :: 0 <= k < TOOLS && Vote(r, k).Some? && Vote(r, k).value <= score.value)
              && (exists k :: 0 <= k < TOOLS && Vote(r, k).Some? && score.value <= Vote(r, k).value)
  {
    var subs: seq<real> := [];
    for k := 0 to TOOLS
      invariant subs == Votes(r, k)
    {
      var sub := Vote(r, k);
      if sub.Some? {
        subs := subs + [sub.value as real];
      }
    }
    VotesMembers(r, TOOLS);
    if subs == [] {
      return None;
    }
    var sum := Total(subs);
    score := Some(Round(sum / |subs| as real));
    MeanBetween(subs);
  }

  function Points(v: Option<int>): real { if v.Some? then v.value as real else 0.0 }
  function Counted(v: Option<int>): int { if v.Some? then 1 else 0 }

  /** The votes of the six tools: those that ran, each by its own score. */
  lemma VotesAre(r: Report)
    ensures Vote(r, 0) == (match r.pagespeed case Some(d) => PageSpeedScore(d) case None => None)
    ensures Vote(r, 1) == (match r.gtmetrix case Some(d) => GtmetrixScore(d) case None => None)
    ensures Vote(r, 2) == (match r.accessibility case Some(d) => Some(AccessibilityScore(d)) case None => None)
    ensures Vote(r, 3) == (match r.ssl case Some(d) => SslScore(d) case None => None)
    ensures Vote(r, 4) == (match r.links case Some(d) => LinksScore(d) case None => None)
    ensures Vote(r, 5) == (match r.structured case Some(d) => StructuredScore(d) case None => None)
  {
  }

  lemma VotesLast(r: Report, n: nat)
    ensures SumOf(Votes(r, n + 1)) == SumOf(Votes(r, n)) + Points(Vote(r, n))
    ensures |Votes(r, n + 1)| == |Votes(r, n)| + Counted(Vote(r, n))
  {
    if Vote(r, n).Some? {
      SumAppend(Votes(r, n), Vote(r, n).value as real);
    } else {
      assert Votes(r, n) + [] == Votes(r, n);
    }
  }

  /** The overall score is the rounded mean of the six votes that are there. */
  lemma OverallIs(r: Report)
    ensures IsMean(Mean(Votes(r, TOOLS)),
                   Points(Vote(r, 0)) + Points(Vote(r, 1)) + Points(Vote(r, 2)) + Points(Vote(r, 3)) + Points(Vote(r, 4)) + Points(Vote(r, 5)),
                   Counted(Vote(r, 0)) + Counted(Vote(r, 1)) + Counted(Vote(r, 2)) + Counted(Vote(r, 3)) + Counted(Vote(r, 4)) + Counted(Vote(r, 5)))
  {
    for n := 0 to TOOLS
      invariant SumOf(Votes(r, n)) == PointsUpTo(r, n) && |Votes(r, n)| == CountedUpTo(r, n)
    {
      VotesLast(r, n);
    }
    MeanIs(Votes(r, TOOLS));
    SixTerms(r, TOOLS);
  }

  function PointsUpTo(r: Report, n: nat): real { if n == 0 then 0.0 else PointsUpTo(r, n - 1) + Points(Vote(r, n - 1)) }
  function CountedUpTo(r: Report, n: nat): int { if n == 0 then 0 else CountedUpTo(r, n - 1) + Counted(Vote(r, n - 1)) }

  lemma SixTerms(r: Report, n: nat)
    requires n == 6
    ensures PointsUpTo(r, n) ==
            Points(Vote(r, 0)) + Points(Vote(r, 1)) + Points(Vote(r, 2)) + Points(Vote(r, 3)) + Points(Vote(r, 4)) + Points(Vote(r, 5))
    ensures CountedUpTo(r, n) ==
            Counted(Vote(r, 0)) + Counted(Vote(r, 1)) + Counted(Vote(r, 2)) + Counted(Vote(r, 3)) + Counted(Vote(r, 4)) + Counted(Vote(r, 5))
  {
    for k := 0 to n
      invariant PointsUpTo(r, k) ==
                (if k > 0 then Points(Vote(r, 0)) else 0.0) + (if k > 1 then Points(Vote(r, 1)) else 0.0)
                + (if k > 2 then Points(Vote(r, 2)) else 0.0) + (if k > 3 then Points(Vote(r, 3)) else 0.0)
                + (if k > 4 then Points(Vote(r, 4)) else 0.0) + (if k > 5 then Points(Vote(r, 5)) else 0.0)
      invariant CountedUpTo(r, k) ==
                (if k > 0 then Counted(Vote(r, 0)) else 0) + (if k > 1 then Counted(Vote(r, 1)) else 0)
                + (if k > 2 then Counted(Vote(r, 2)) else 0) + (if k > 3 then Counted(Vote(r, 3)) else 0)
                + (if k > 4 then Counted(Vote(r, 4)) else 0) + (if k > 5 then Counted(Vote(r, 5)) else 0)
    {
      assert k == 0 || k == 1 || k == 2 || k == 3 || k == 4 || k == 5;
    }
  }

  lemma {:induction false} VotesMembers(r: Report, n: nat)
    ensures Votes(r, n) == [] <==> forall k :: 0 <= k < n ==> Vote(r, k).None?
    ensures forall x :: x in Votes(r, n) ==> exists k :: 0 <= k < n && Vote(r, k).Some? && x == Vote(r, k).value as real
  {
    if n > 0 {
      VotesMembers(r, n - 1);
    }
  }

  lemma {:induction false} SumBounds(xs: seq<real>, lo: real, hi: real)
    requires forall x :: x in xs ==> lo <= x <= hi
    ensures |xs| as real * lo <= SumOf(xs) <= |xs| as real * hi
  {
    if xs != [] {
      var n := |xs| - 1;
      assert xs[n] in xs && forall x :: x in xs[..n] ==> x in xs;
      SumBounds(xs[..n], lo, hi);
      assert |xs| as real == n as real + 1.0;
      Distribute(n as real, lo);
      Distribute(n as real, hi);
    }
  }

  lemma Distribute(n: real, x: real)
    ensures (n + 1.0) * x == n * x + x
  {
  }

  lemma QuotientBetween(sum: real, n: real, lo: real, hi: real)
    requires n > 0.0 && n * lo <= sum <= n * hi
    ensures lo <= sum / n <= hi
  {
    var q := sum / n;
    assert q * n == sum;
    if q < lo {
      ScaleStrict(q, lo, n);
    }
    if q > hi {
      ScaleStrict(hi, q, n);
    }
  }

  lemma ScaleStrict(a: real, b: real, n: real)
    requires a < b && n > 0.0
    ensures a * n < b * n
  {
  }

  /** A least and a greatest element. */
  lemma {:induction false} Extremes(xs: seq<real>) returns (lo: real, hi: real)
    requires xs != []
    ensures lo in xs && hi in xs
    ensures forall x :: x in xs ==> lo <= x <= hi
  {
    var n := |xs| - 1;
    var last := xs[n];
    if n == 0 {
      return last, last;
    }
    lo, hi := Extremes(xs[..n]);
    assert xs == xs[..n] + [last];
    if last < lo {
      lo := last;
    }
    if last > hi {
      hi := last;
    }
  }

  /** The rounded mean of integers lies between the least and the greatest. */
  lemma MeanBetween(xs: seq<real>)
    requires xs != [] && forall x :: x in xs ==> x == x.Floor as real
    ensures exists lo, hi :: lo in xs && hi in xs && lo <= Mean(xs).value as real <= hi
  {
    var lo, hi := Extremes(xs);
    var m := SumOf(xs) / |xs| as real;
    SumBounds(xs, lo, hi);
    QuotientBetween(SumOf(xs), |xs| as real, lo, hi);
    RoundMonotone(lo, m);
    RoundMonotone(m, hi);
    RoundInteger(lo.Floor);
    RoundInteger(hi.Floor);
    assert lo in xs && hi in xs && lo <= Mean(xs).value as real <= hi;
  }

  // -------------------------------------------------------------------------- range and monotony

  predicate Percent(x: Option<real>) { x.Some? ==> 0.0 <= x.value <= 100.0 }

  /** The scores that the tools report themselves are between 0 and 100. */
  predicate PercentInputs(r: Report)
  {
    && (r.pagespeed.Some? ==>
          var d := r.pagespeed.value;
          Percent(d.performance) && Percent(d.accessibility) && Percent(d.bestPractices) && Percent(d.seo))
    && (r.gtmetrix.Some? ==> Percent(r.gtmetrix.value.performance) && Percent(r.gtmetrix.value.structure))
  }

  lemma {:induction false} PresentPercent(xs: seq<Option<real>>)
    requires forall k :: 0 <= k < |xs| ==> Percent(xs[k])
    ensures forall x :: x in Present(xs) ==> 0.0 <= x <= 100.0
  {
    if xs != [] {
      assert Percent(xs[|xs| - 1]);
      PresentPercent(xs[..|xs| - 1]);
    }
  }

  lemma MeanInRange(xs: seq<real>, lo: int, hi: int)
    requires xs != [] && forall x :: x in xs ==> lo as real <= x <= hi as real
    ensures lo <= Mean(xs).value <= hi
  {
    SumBounds(xs, lo as real, hi as real);
    QuotientBetween(SumOf(xs), |xs| as real, lo as real, hi as real);
    RoundMonotone(lo as real, SumOf(xs) / |xs| as real);
    RoundMonotone(SumOf(xs) / |xs| as real, hi as real);
    RoundInteger(lo);
    RoundInteger(hi);
  }

  lemma MeanScorePercent(xs: seq<Option<real>>)
    requires forall k :: 0 <= k < |xs| ==> Percent(xs[k])
    ensures MeanScore(xs).Some? ==> 0 <= MeanScore(xs).value <= 100
  {
    PresentPercent(xs);
    if Present(xs) != [] {
      MeanInRange(Present(xs), 0, 100);
    }
  }

  lemma VotePercent(r: Report, k: nat)
    requires PercentInputs(r) && k < TOOLS
    ensures Vote(r, k).Some? ==> 0 <= Vote(r, k).value <= 100
  {
    if k == 0 && r.pagespeed.Some? {
      var d := r.pagespeed.value;
      MeanScorePercent([d.performance, d.accessibility, d.bestPractices, d.seo]);
    } else if k == 1 && r.gtmetrix.Some? {
      MeanScorePercent([r.gtmetrix.value.performance, r.gtmetrix.value.structure]);
    }
  }

  /** The overall score is a percentage. */
  lemma OverallPercent(r: Report)
    requires PercentInputs(r) && Mean(Votes(r, TOOLS)).Some?
    ensures 0 <= Mean(Votes(r, TOOLS)).value <= 100
  {
    VotesMembers(r, TOOLS);
    forall x | x in Votes(r, TOOLS) ensures 0.0 <= x <= 100.0 {
      var k :| 0 <= k < TOOLS && Vote(r, k).Some? && x == Vote(r, k).value as real;
      VotePercent(r, k);
    }
    MeanInRange(Votes(r, TOOLS), 0, 100);
  }

  /** `s` scores the same tools as `r`, none of them higher. */
  ghost predicate NoBetter(s: Report, r: Report)
  {
    forall k :: 0 <= k < TOOLS ==>
      && (Vote(s, k).Some? <==> Vote(r, k).Some?)
      && (Vote(s, k).Some? ==> Vote(s, k).value <= Vote(r, k).value)
  }

  lemma {:induction false} VotesPointwise(s: Report, r: Report, n: nat)
    requires NoBetter(s, r) && n <= TOOLS
    ensures |Votes(s, n)| == |Votes(r, n)| && SumOf(Votes(s, n)) <= SumOf(Votes(r, n))
  {
    if n > 0 {
      VotesPointwise(s, r, n - 1);
      var v, w := Vote(s, n - 1), Vote(r, n - 1);
      assert v.Some? <==> w.Some?;
      if v.Some? {
        SumAppend(Votes(s, n - 1), v.value as real);
        SumAppend(Votes(r, n - 1), w.value as real);
        assert v.value <= w.value;
      } else {
        assert Votes(s, n) == Votes(s, n - 1) && Votes(r, n) == Votes(r, n - 1);
      }
    }
  }

  lemma SumAppend(xs: seq<real>, x: real)
    ensures SumOf(xs + [x]) == SumOf(xs) + x
  {
    assert (xs + [x])[..|xs|] == xs;
  }

  lemma DivideMonotone(a: real, b: real, n: real)
    requires a <= b && n > 0.0
    ensures a / n <= b / n
  {
    var x, y := a / n, b / n;
    assert x * n == a && y * n == b;
    if x > y {
      ScaleStrict(y, x, n);
    }
  }

  lemma NoBetterOverall(s: Report, r: Report)
    requires NoBetter(s, r)
    ensures var a, b := Mean(Votes(s, TOOLS)), Mean(Votes(r, TOOLS));
            (a.Some? <==> b.Some?) && (a.Some? ==> a.value <= b.value)
  {
    var a, b := Votes(s, TOOLS), Votes(r, TOOLS);
    VotesPointwise(s, r, TOOLS);
    if a != [] {
      DivideMonotone(SumOf(a), SumOf(b), |a| as real);
      RoundMonotone(SumOf(a) / |a| as real, SumOf(b) / |b| as real);
    }
  }

  lemma LinksMonotone(total: nat, broken: nat, more: nat)
    requires broken <= more && total > 0
    ensures LinksScore(Links(total, more)).value <= LinksScore(Links(total, broken)).value
  {
    var a, b := (100 * (total - more)) as real, (100 * (total - broken)) as real;
    DivideMonotone(a, b, total as real);
    RoundMonotone(a / total as real, b / total as real);
  }

  /** More accessibility errors, more broken links or more schema errors never raise the overall score. */
  lemma WorseNeverRaises(r: Report, s: Report)
    requires s == r.(accessibility := s.accessibility, links := s.links, structured := s.structured)
    requires r.accessibility.Some? == s.accessibility.Some? && r.links.Some? == s.links.Some?
             && r.structured.Some? == s.structured.Some?
    requires s.accessibility.Some? ==>
               r.accessibility.value.errors <= s.accessibility.value.errors
               && r.accessibility.value.contrast <= s.accessibility.value.contrast
    requires s.links.Some? ==>
               r.links.value.total == s.links.value.total && r.links.value.broken <= s.links.value.broken
    requires s.structured.Some? ==>
               r.structured.value.total == s.structured.value.total && r.structured.value.valid == s.structured.value.valid
               && r.structured.value.errors <= s.structured.value.errors
    ensures var a, b := Mean(Votes(s, TOOLS)), Mean(Votes(r, TOOLS));
            (a.Some? <==> b.Some?) && (a.Some? ==> a.value <= b.value)
  {
    if s.links.Some? && s.links.value.total > 0 {
      LinksMonotone(s.links.value.total, r.links.value.broken, s.links.value.broken);
    }
    if s.structured.Some? && s.structured.value.total > 0 {
      var base := (100 * s.structured.value.valid) as real / s.structured.value.total as real;
      RoundMonotone(base - (5 * s.structured.value.errors) as real, base - (5 * r.structured.value.errors) as real);
    }
    if s.accessibility.Some? {
      RoundMonotone((100 - 3 * s.accessibility.value.errors - 2 * s.accessibility.value.contrast) as real,
                    (100 - 3 * r.accessibility.value.errors - 2 * r.accessibility.value.contrast) as real);
    }
    forall k | 0 <= k < TOOLS
      ensures (Vote(s, k).Some? <==> Vote(r, k).Some?) && (Vote(s, k).Some? ==> Vote(s, k).value <= Vote(r, k).value)
    {
    }
    NoBetterOverall(s, r);
  }

  // ------------------------------------------------------------------------------ the metric table

  /** A row range with a background; `striped` tells the two backgrounds apart. */
  datatype Band = Band(first: nat, last: nat, striped: bool)

  /** The bands cover rows 1 to `rows - 1` without gap or overlap, one per entry, alternating. */
  ghost predicate Tiles(bands: seq<Band>, rows: nat)
  {
    && rows >= 1
    && (forall k :: 0 <= k < |bands| ==>
          && bands[k].first == (if k == 0 then 1 else bands[k - 1].last + 1)
          && bands[k].first <= bands[k].last <= bands[k].first + 1
          && bands[k].striped == (k % 2 == 1))
    && rows == (if bands == [] then 1 else bands[|bands| - 1].last + 1)
  }

  lemma TilesAppend(bands: seq<Band>, rows: nat, band: Band)
    requires Tiles(bands, rows)
    requires band.first == rows && rows <= band.last <= rows + 1 && band.striped == (|bands| % 2 == 1)
    ensures Tiles(bands + [band], band.last + 1)
  {
  }

  /** Table rows used by the header and these entries; the entries whose note row is merged. */
  function RowAfter(notes: seq<bool>): nat
  {
    if notes == [] then 1 else RowAfter(notes[..|notes| - 1]) + if notes[|notes| - 1] then 2 else 1
  }

  /** Which table rows are note rows. */
  function RowKinds(notes: seq<bool>): seq<bool>
  {
    if notes == [] then [false]
    else RowKinds(notes[..|notes| - 1]) + if notes[|notes| - 1] then [false, true] else [false]
  }

  function NoteRows(notes: seq<bool>): seq<nat>
  {
    if notes == [] then []
    else
      var rest := notes[..|notes| - 1];
      NoteRows(rest) + if notes[|notes| - 1] then [RowAfter(rest) + 1] else []
  }

  /** The background bands, one for each entry. */
  function BandsOf(notes: seq<bool>): seq<Band>
  {
    if notes == [] then []
    else
      var n := |notes| - 1;
      var row := RowAfter(notes[..n]);
      BandsOf(notes[..n]) + [Band(row, if notes[n] then row + 1 else row, n % 2 == 1)]
  }

  /** The rows of an entry: its own row first, then its note row if it has one. */
  ghost predicate RowsOfEntry(data: seq<bool>, band: Band, note: bool)
  {
    && band.first <= band.last < |data| && !data[band.first]
    && (if note then band.last == band.first + 1 && data[band.last] else band.last == band.first)
  }

  lemma RowsKept(data: seq<bool>, more: seq<bool>, band: Band, note: bool)
    requires RowsOfEntry(data, band, note)
    ensures RowsOfEntry(data + more, band, note)
  {
  }

  lemma RowsAdded(data: seq<bool>, note: bool, striped: bool)
    ensures RowsOfEntry(data + (if note then [false, true] else [false]), Band(|data|, if note then |data| + 1 else |data|, striped), note)
  {
  }

  lemma {:induction false} TableTiles(notes: seq<bool>)
    ensures |RowKinds(notes)| == RowAfter(notes) && RowKinds(notes) != [] && !RowKinds(notes)[0]
    ensures |BandsOf(notes)| == |notes| && Tiles(BandsOf(notes), RowAfter(notes))
  {
    if notes != [] {
      var n := |notes| - 1;
      var row := RowAfter(notes[..n]);
      TableTiles(notes[..n]);
      TilesAppend(BandsOf(notes[..n]), row, Band(row, if notes[n] then row + 1 else row, n % 2 == 1));
    }
  }

  ghost predicate RowsOfAll(data: seq<bool>, bands: seq<Band>, notes: seq<bool>)
  {
    |bands| == |notes| && forall k :: 0 <= k < |notes| ==> RowsOfEntry(data, bands[k], notes[k])
  }

  lemma RowsOfOneMore(data: seq<bool>, bands: seq<Band>, notes: seq<bool>, note: bool, striped: bool)
    requires RowsOfAll(data, bands, notes)
    ensures RowsOfAll(data + (if note then [false, true] else [false]),
                      bands + [Band(|data|, if note then |data| + 1 else |data|, striped)], notes + [note])
  {
    var more := if note then [false, true] else [false];
    RowsAdded(data, note, striped);
    forall k | 0 <= k < |notes| ensures RowsOfEntry(data + more, bands[k], notes[k]) {
      RowsKept(data, more, bands[k], notes[k]);
    }
  }

  lemma {:induction false} TableFacts(notes: seq<bool>)
    ensures RowsOfAll(RowKinds(notes), BandsOf(notes), notes)
  {
    if notes != [] {
      var n := |notes| - 1;
      TableFacts(notes[..n]);
      TableTiles(notes[..n]);
      RowsOfOneMore(RowKinds(notes[..n]), BandsOf(notes[..n]), notes[..n], notes[n], n % 2 == 1);
      assert notes[..n] + [notes[n]] == notes;
    }
  }

  /** What one more entry adds to the table. */
  lemma TableStep(notes: seq<bool>, k: nat)
    requires k < |notes|
    ensures var row := RowAfter(notes[..k]);
            && RowAfter(notes[..k + 1]) == row + (if notes[k] then 2 else 1)
            && RowKinds(notes[..k + 1]) == RowKinds(notes[..k]) + (if notes[k] then [false, true] else [false])
            && NoteRows(notes[..k + 1]) == NoteRows(notes[..k]) + (if notes[k] then [row + 1] else [])
            && BandsOf(notes[..k + 1]) == BandsOf(notes[..k]) + [Band(row, if notes[k] then row + 1 else row, k % 2 == 1)]
  {
    assert notes[..k + 1][..k] == notes[..k];
  }

  /** `_metric_table`: `notes[k]` tells whether entry `k` has a note row; `data` records for each table row
      whether it is one. `spans` are the rows that are merged across the columns. */
  method MetricTable(notes: seq<bool>) returns (data: seq<bool>, bands: seq<Band>, spans: seq<nat>)
    ensures |bands| == |notes| && Tiles(bands, |data|) && data != [] && !data[0]
    ensures data == RowKinds(notes) && spans == NoteRows(notes)
    ensures RowsOfAll(data, bands, notes)
  {
    data, bands, spans := [false], [], [];
    var row := 1;
    for block := 0 to |notes|
      invariant row == RowAfter(notes[..block]) && data == RowKinds(notes[..block])
      invariant spans == NoteRows(notes[..block]) && bands == BandsOf(notes[..block])
    {
      TableStep(notes, block);
      ghost var before := data;
      data := data + [false];
      if notes[block] {
        data := data + [true];
        assert data == before + [false, true];
        spans := spans + [row + 1];
        bands := bands + [Band(row, row + 1, block % 2 == 1)];
        row := row + 2;
      } else {
        bands := bands + [Band(row, row, block % 2 == 1)];
        row := row + 1;
      }
    }
    assert notes[..|notes|] == notes;
    TableTiles(notes);
    TableFacts(notes);
  }

  /** The merged rows are exactly the note rows. */
  lemma {:induction false} SpansAreNotes(notes: seq<bool>)
    ensures |RowKinds(notes)| == RowAfter(notes)
    ensures forall i: nat :: i in NoteRows(notes) <==> i < |RowKinds(notes)| && RowKinds(notes)[i]
  {
    if notes != [] {
      SpansAreNotes(notes[..|notes| - 1]);
    }
  }
}
