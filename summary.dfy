/**
 * The summary writer (src/adapters/summary_adapter.py): every match's severity
 * normalised into one of six buckets, the buckets counted, and a summary built
 * with the total and the six counts.
 */
module Summary {
  import opened Wrappers
  import opened Text
  import opened Domain
  import UseCases

  // ---------------------------------------------------------------------------
  // Severity buckets
  // ---------------------------------------------------------------------------

  /** The six buckets a severity can land in. */
  datatype Level = Critical | High | Medium | Low | NoLevel | Unknown

  /** The upper-case name a bucket is counted under. */
  function LevelName(l: Level): string {
    match l
    case Critical => "CRITICAL"
    case High => "HIGH"
    case Medium => "MEDIUM"
    case Low => "LOW"
    case NoLevel => "NONE"
    case Unknown => "UNKNOWN"
  }

  /** The upper-cased severities kept as they are: the five named levels. */
  function KnownLevel(s: string): Option<Level> {
    if s == "CRITICAL" then Some(Critical)
    else if s == "HIGH" then Some(High)
    else if s == "MEDIUM" then Some(Medium)
    else if s == "LOW" then Some(Low)
    else if s == "NONE" then Some(NoLevel)
    else None
  }

  /**
   * The normalisation at lines 20-25: a present, non-empty severity
   * upper-cased, with `NEGLIGIBLE` read as `NONE`, a known level kept, and
   * anything else read as `UNKNOWN`; an absent or empty severity is `UNKNOWN`.
   */
  function Bucket(severity: Option<string>): Level {
    if severity.None? || severity.value == "" then Unknown
    else
      var s := Upper(severity.value);
      if s == "NEGLIGIBLE" then NoLevel
      else KnownLevel(s).GetOr(Unknown)
  }

  /**
   * An absent or empty severity is unknown, `NEGLIGIBLE` in any case is none,
   * and any other severity lands in a named bucket exactly when its upper-cased
   * form is that bucket's name.
   */
  lemma BucketMeaning(severity: Option<string>)
    ensures severity.None? || severity.value == "" ==> Bucket(severity) == Unknown
    ensures severity.Some? && severity.value != "" && Upper(severity.value) == "NEGLIGIBLE" ==> Bucket(severity) == NoLevel
    ensures severity.Some? && severity.value != "" && Upper(severity.value) != "NEGLIGIBLE" ==>
      (Bucket(severity) != Unknown <==> KnownLevel(Upper(severity.value)).Some?)
    ensures Bucket(severity) != Unknown && !(severity.Some? && Upper(severity.value) == "NEGLIGIBLE") ==>
      severity.Some? && Upper(severity.value) == LevelName(Bucket(severity))
  {
  }

  /** Bucketing ignores letter case. */
  lemma BucketIgnoresCase(s: string)
    ensures Bucket(Some(s)) == Bucket(Some(Upper(s)))
  {
    UpperIdempotent(s);
    assert |Upper(s)| == |s|;
  }

  /** `"negligible"` counts as none. */
  lemma NegligibleIsNone()
    ensures Bucket(Some("negligible")) == NoLevel
  {
    UpperNegligible("negligible");
  }

  lemma UpperNegligible(s: string)
    requires s == "negligible"
    ensures Upper(s) == "NEGLIGIBLE"
  {
    var u := Upper(s);
    assert u[0] == 'N' && u[1] == 'E' && u[2] == 'G' && u[3] == 'L' && u[4] == 'I';
    assert u[5] == 'G' && u[6] == 'I' && u[7] == 'B' && u[8] == 'L' && u[9] == 'E';
  }

  /** `"NEGLIGIBLE"` counts as none. */
  lemma NegligibleUpperIsNone()
    ensures Bucket(Some("NEGLIGIBLE")) == NoLevel
  {
    assert Upper("NEGLIGIBLE") == "NEGLIGIBLE";
  }

  /** `"None"` counts as none. */
  lemma MixedCaseNoneIsNone()
    ensures Bucket(Some("None")) == NoLevel
  {
    assert Upper("None") == "NONE";
  }

  /** A level the normalisation does not know, and a missing or empty one, count as unknown. */
  lemma UnknownExamples()
    ensures Bucket(Some("moderate")) == Unknown
    ensures Bucket(None) == Unknown && Bucket(Some("")) == Unknown
  {
    assert Upper("moderate") == "MODERATE";
  }

  // ---------------------------------------------------------------------------
  // Counting
  // ---------------------------------------------------------------------------

  /** The bucket of one match. */
  function LevelOf(v: Vulnerability): Level {
    Bucket(v.severity)
  }

  /** The number of elements of `xs` that `level` puts in bucket `b`. */
  function CountBy<T>(xs: seq<T>, level: T -> Level, b: Level): (n: nat)
    ensures n <= |xs|
  {
    if xs == [] then 0
    else CountBy(xs[..|xs| - 1], level, b) + (if level(xs[|xs| - 1]) == b then 1 else 0)
  }

  /** The number of matches whose severity falls in bucket `b`. */
  function Count(vs: seq<Vulnerability>, b: Level): nat {
    CountBy(vs, LevelOf, b)
  }

  /** `Counter.get(b, 0)`. */
  function Get(counts: map<Level, nat>, b: Level): nat {
    if b in counts then counts[b] else 0
  }

  /** A bucket some element falls in is counted; one no element falls in is not. */
  lemma {:induction false} CountByPositive<T>(xs: seq<T>, level: T -> Level, b: Level)
    ensures CountBy(xs, level, b) > 0 <==> exists i :: 0 <= i < |xs| && level(xs[i]) == b
    decreases |xs|
  {
    if xs != [] {
      var n := |xs| - 1;
      CountByPositive(xs[..n], level, b);
      assert forall i :: 0 <= i < n ==> xs[..n][i] == xs[i];
    }
  }

  /** A bucket some match falls in is counted; one no match falls in is not. */
  lemma CountPositive(vs: seq<Vulnerability>, b: Level)
    ensures Count(vs, b) > 0 <==> exists i :: 0 <= i < |vs| && Bucket(vs[i].severity) == b
  {
    CountByPositive(vs, LevelOf, b);
    assert forall i :: 0 <= i < |vs| ==> LevelOf(vs[i]) == Bucket(vs[i].severity);
  }

  /** The six bucket counts add up to the number of elements. */
  lemma {:induction false} CountByPartition<T>(xs: seq<T>, level: T -> Level)
    ensures CountBy(xs, level, Critical) + CountBy(xs, level, High) + CountBy(xs, level, Medium)
          + CountBy(xs, level, Low) + CountBy(xs, level, NoLevel) + CountBy(xs, level, Unknown) == |xs|
    decreases |xs|
  {
    if xs != [] {
      CountByPartition(xs[..|xs| - 1], level);
    }
  }

  /** The six bucket counts add up to the number of matches. */
  lemma BucketsPartition(vs: seq<Vulnerability>)
    ensures Count(vs, Critical) + Count(vs, High) + Count(vs, Medium) + Count(vs, Low)
          + Count(vs, NoLevel) + Count(vs, Unknown) == |vs|
  {
    CountByPartition(vs, LevelOf);
  }

  lemma CountStep(vs: seq<Vulnerability>, i: nat, b: Level)
    requires i < |vs|
    ensures Count(vs[..i + 1], b) == Count(vs[..i], b) + (if LevelOf(vs[i]) == b then 1 else 0)
  {
    assert vs[..i + 1][..i] == vs[..i];
  }

  /** The counting loop at lines 17-27: one increment per match, in its bucket. */
  method CountSeverities(allVulns: seq<Vulnerability>) returns (severityCounts: map<Level, nat>)
    ensures forall b :: Get(severityCounts, b) == Count(allVulns, b)
    ensures forall b :: b in severityCounts ==> severityCounts[b] > 0
  {
    severityCounts := map[];
    var i := 0;
    assert allVulns[..0] == [];
    while i < |allVulns|
      invariant 0 <= i <= |allVulns|
      invariant forall b :: Get(severityCounts, b) == Count(allVulns[..i], b)
      invariant forall b :: b in severityCounts ==> severityCounts[b] > 0
    {
      var severity := LevelOf(allVulns[i]);
      ghost var before := severityCounts;
      severityCounts := severityCounts[severity := Get(severityCounts, severity) + 1];
      forall b
        ensures Get(severityCounts, b) == Count(allVulns[..i + 1], b)
      {
        CountStep(allVulns, i, b);
        assert Get(before, b) == Count(allVulns[..i], b);
      }
      i := i + 1;
    }
    assert allVulns[..i] == allVulns;
  }

  // ---------------------------------------------------------------------------
  // The summary
  // ---------------------------------------------------------------------------

  /** `severity_counts`: the six lower-case keys `critical` … `unknown`, always all present. */
  datatype SeverityCounts = SeverityCounts(critical: nat, high: nat, medium: nat, low: nat, none: nat, unknown: nat)

  /** The summary document. */
  datatype SummaryData = SummaryData(totalVulnerabilities: nat, severityCounts: SeverityCounts)

  function Sum(c: SeverityCounts): nat {
    c.critical + c.high + c.medium + c.low + c.none + c.unknown
  }

  /**
   * `save` over the OS matches and the package matches as one flat list: the
   * total is the number of both together, and each key holds its bucket's
   * count, 0 for a bucket nothing falls in, so the counts add up to the total.
   */
  method Save(osVulns: seq<Vulnerability>, pkgVulns: seq<Vulnerability>) returns (s: SummaryData)
    ensures s.totalVulnerabilities == |osVulns| + |pkgVulns|
    ensures var all := osVulns + pkgVulns;
      s.severityCounts == SeverityCounts(Count(all, Critical), Count(all, High), Count(all, Medium),
                                         Count(all, Low), Count(all, NoLevel), Count(all, Unknown))
    ensures Sum(s.severityCounts) == s.totalVulnerabilities
  {
    var allVulns := osVulns + pkgVulns;
    var severityCounts := CountSeverities(allVulns);
    BucketsPartition(allVulns);
    s := SummaryData(|allVulns|, SeverityCounts(
      Get(severityCounts, Critical), Get(severityCounts, High), Get(severityCounts, Medium),
      Get(severityCounts, Low), Get(severityCounts, NoLevel), Get(severityCounts, Unknown)));
  }

  /**
   * The combination at line 14 as written: the OS matches (a list) added to
   * the grouped package matches (a dictionary), which Python refuses with a
   * `TypeError` whatever the report holds.
   */
  function CombinedAsWritten(report: VulnerabilityReport): (r: Result<seq<Vulnerability>>)
    ensures r.Err? && r.error.TypeError?
  {
    Err(TypeError("list + dict"))
  }

  /** So the summary as written is never produced, not even for an empty report. */
  lemma SummaryAsWrittenFails()
    ensures CombinedAsWritten(VulnerabilityReport("nginx:1.10.3", [], map[])).Err?
  {
  }

  /** Counting the matches of two lists together is counting each and adding. */
  lemma {:induction false} CountByAppend<T>(xs: seq<T>, ys: seq<T>, level: T -> Level, b: Level)
    ensures CountBy(xs + ys, level, b) == CountBy(xs, level, b) + CountBy(ys, level, b)
    decreases |ys|
  {
    if ys == [] {
      assert xs + ys == xs;
    } else {
      var n := |ys| - 1;
      CountByAppend(xs, ys[..n], level, b);
      assert (xs + ys)[..|xs + ys| - 1] == xs + ys[..n];
    }
  }

  /** The count of bucket `b` in one list, as a function to sum over a grouping. */
  function CountIn(b: Level): seq<Vulnerability> -> nat {
    vs => Count(vs, b)
  }

  /** The matches of bucket `b` filed under one package name. */
  ghost function InnerCount(b: Level): map<string, seq<Vulnerability>> -> nat {
    inner => UseCases.SumBy(inner, CountIn(b))
  }

  /** The matches of bucket `b` in a grouping: the counts of all its lists added. */
  ghost function GroupedCount(g: UseCases.Grouping, b: Level): nat {
    UseCases.SumBy(g, InnerCount(b))
  }

  /** Appending a match to one version's list adds it to its own bucket only. */
  lemma InnerAddCount(inner: map<string, seq<Vulnerability>>, v: Vulnerability, b: Level)
    ensures var list := if v.packageVersion in inner then inner[v.packageVersion] else [];
      InnerCount(b)(inner[v.packageVersion := list + [v]]) == InnerCount(b)(inner) + (if LevelOf(v) == b then 1 else 0)
  {
    var list := if v.packageVersion in inner then inner[v.packageVersion] else [];
    CountByAppend(list, [v], LevelOf, b);
    assert CountIn(b)(list + [v]) == CountIn(b)(list) + (if LevelOf(v) == b then 1 else 0);
    UseCases.SumByUpdate(inner, CountIn(b), v.packageVersion, list + [v]);
  }

  /** One pass of the grouping loop files one match, counted in its own bucket only. */
  lemma AddToCount(g: UseCases.Grouping, v: Vulnerability, b: Level)
    ensures GroupedCount(UseCases.AddTo(g, v), b) == GroupedCount(g, b) + (if LevelOf(v) == b then 1 else 0)
  {
    var inner := if v.packageName in g then g[v.packageName] else map[];
    var list := if v.packageVersion in inner then inner[v.packageVersion] else [];
    var updated := inner[v.packageVersion := list + [v]];
    InnerAddCount(inner, v, b);
    UseCases.SumByUpdate(g, InnerCount(b), v.packageName, updated);
    assert UseCases.AddTo(g, v) == g[v.packageName := updated];
    if v.packageName !in g {
      assert inner == map[];
      assert InnerCount(b)(inner) == 0;
    }
  }

  /** Grouping loses and duplicates no match: each bucket counts the same over the grouping as over the list. */
  lemma {:induction false} GroupedCountMatches(vs: seq<Vulnerability>, b: Level)
    ensures GroupedCount(UseCases.Grouped(vs), b) == Count(vs, b)
    decreases |vs|
  {
    if vs != [] {
      var n := |vs| - 1;
      GroupedCountMatches(vs[..n], b);
      AddToCount(UseCases.Grouped(vs[..n]), vs[n], b);
    }
  }

  /**
   * The corrected summary counts every match of a report: with the package
   * matches the report groups, the total is the OS matches plus every list
   * entry of the grouping, and each bucket's count is the OS matches in it plus
   * the grouped package matches in it.
   */
  lemma SummaryCoversReport(osVulns: seq<Vulnerability>, pkgVulns: seq<Vulnerability>, b: Level)
    ensures |osVulns + pkgVulns| == |osVulns| + UseCases.Total(UseCases.Grouped(pkgVulns))
    ensures Count(osVulns + pkgVulns, b) == Count(osVulns, b) + GroupedCount(UseCases.Grouped(pkgVulns), b)
  {
    UseCases.GroupedTotal(pkgVulns);
    CountByAppend(osVulns, pkgVulns, LevelOf, b);
    GroupedCountMatches(pkgVulns, b);
  }
}
