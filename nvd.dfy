/**
 * The CVE-feed loader (BD/carga_inicial.py): CPE strings to identity tuples, the
 * fields taken from each CVE item, the upserts one feed document issues, the
 * per-document commit or rollback, the full-reload reset and the order in which
 * the downloaded documents are loaded.
 */
module Nvd {
  import opened Wrappers
  import opened Text
  import opened Store

  // ---------------------------------------------------------------------------
  // CPE strings (parse_cpe_string)
  // ---------------------------------------------------------------------------

  /** Colon segment `i`, absent when the string has fewer segments or the segment is the wildcard `*`. */
  function Segment(parts: seq<string>, i: nat): Option<string> {
    if i < |parts| && parts[i] != "*" then Some(parts[i]) else None
  }

  const NoCpe := Cpe(None, None, None, None, None, None, None, None, None, None)

  /**
   * `parse_cpe_string`: a naive `split(':')` of a CPE 2.3 formatted string (escaped
   * colons are not recognised); field k of the tuple is colon segment k + 2.
   */
  function ParseCpeString(cpe: string): Cpe {
    var parts := Split(cpe, ':');
    var fs := seq(10, k requires 0 <= k => Segment(parts, k + 2));
    Cpe(fs[0], fs[1], fs[2], fs[3], fs[4], fs[5], fs[6], fs[7], fs[8], fs[9])
  }

  /** Field k of the parsed tuple is colon segment k + 2 (absent when missing or the wildcard). */
  lemma ParseCpeStringFields(cpe: string)
    ensures forall k :: 0 <= k < 10 ==> Fields(ParseCpeString(cpe))[k] == Segment(Split(cpe, ':'), k + 2)
  {
    var parts := Split(cpe, ':');
    var fs := seq(10, k requires 0 <= k => Segment(parts, k + 2));
    assert Fields(ParseCpeString(cpe)) == fs;
  }

  /**
   * A present field of a parsed tuple is never the wildcard and holds no colon, and
   * a string of at most two colon segments gives a tuple with every field absent.
   */
  lemma ParseCpeStringClean(cpe: string)
    ensures forall k :: 0 <= k < 10 && Fields(ParseCpeString(cpe))[k].Some? ==>
              Fields(ParseCpeString(cpe))[k].value != "*" && ':' !in Fields(ParseCpeString(cpe))[k].value
    ensures |Split(cpe, ':')| <= 2 ==> ParseCpeString(cpe) == NoCpe
  {
    ParseCpeStringFields(cpe);
    var parts := Split(cpe, ':');
    var fs := Fields(ParseCpeString(cpe));
    forall k | 0 <= k < 10 && fs[k].Some?
      ensures fs[k].value != "*" && ':' !in fs[k].value
    {
      assert fs[k].value == parts[k + 2];
    }
    if |parts| <= 2 {
      assert forall k :: 0 <= k < 10 ==> fs[k] == None;
      assert fs == Fields(NoCpe);
    }
  }

  /** A tuple that the formatted-string binding can carry without escaping. */
  predicate Bindable(c: Cpe) {
    forall k :: 0 <= k < 10 && Fields(c)[k].Some? ==> Fields(c)[k].value != "*" && ':' !in Fields(c)[k].value
  }

  /** The text of one field in a formatted string: the wildcard for an absent field. */
  function Bind(f: Option<string>): string {
    if f.Some? then f.value else "*"
  }

  /** The colon segments of the formatted string: `cpe`, `2.3`, then the ten bound fields. */
  function BoundSegments(c: Cpe): (parts: seq<string>)
    ensures |parts| == 12 && parts[0] == "cpe" && parts[1] == "2.3"
    ensures forall k :: 0 <= k < 10 ==> parts[k + 2] == Bind(Fields(c)[k])
  {
    ["cpe", "2.3"] + seq(10, k requires 0 <= k < 10 => Bind(Fields(c)[k]))
  }

  /** The CPE 2.3 formatted string of a tuple. */
  function FormatCpe(c: Cpe): string {
    Join(BoundSegments(c), ':')
  }

  /** Parsing undoes formatting for every tuple whose fields need no escaping. */
  lemma ParseFormatCpe(c: Cpe)
    requires Bindable(c)
    ensures ParseCpeString(FormatCpe(c)) == c
  {
    var parts := BoundSegments(c);
    forall i | 0 <= i < |parts|
      ensures ':' !in parts[i]
    {
      if i >= 2 {
        assert parts[i] == Bind(Fields(c)[i - 2]);
      }
    }
    SplitJoin(parts, ':');
    ParseCpeStringFields(FormatCpe(c));
    var d := ParseCpeString(FormatCpe(c));
    forall k | 0 <= k < 10
      ensures Fields(d)[k] == Fields(c)[k]
    {
      assert parts[k + 2] == Bind(Fields(c)[k]);
    }
    assert Fields(d) == Fields(c);
  }

  /** Segments after the twelfth (index 11) never reach the tuple. */
  lemma TrailingSegmentsIgnored(cpe: string, extra: string)
    requires |Split(cpe, ':')| >= 12
    ensures ParseCpeString(cpe + ":" + extra) == ParseCpeString(cpe)
  {
    SplitAppend(cpe, extra, ':');
    assert cpe + ":" + extra == cpe + [':'] + extra;
    ParseCpeStringFields(cpe);
    ParseCpeStringFields(cpe + ":" + extra);
    var a := ParseCpeString(cpe + ":" + extra);
    var b := ParseCpeString(cpe);
    assert forall k :: 0 <= k < 10 ==> Fields(a)[k] == Fields(b)[k];
    assert Fields(a) == Fields(b);
  }

  const OpensslCpe := Cpe(Some("a"), Some("openssl"), Some("openssl"), Some("1.1.1"), None, None, None, None, None, None)

  /**
   * A CPE 2.3 criteria string for openssl 1.1.1,
   * `cpe:2.3:a:openssl:openssl:1.1.1:*:*:*:*:*:*:*`, written as its joined colon
   * segments: the wildcards become absent fields.
   */
  lemma OpensslCpeExample()
    ensures ParseCpeString(Join(["cpe", "2.3", "a", "openssl", "openssl", "1.1.1", "*", "*", "*", "*", "*", "*"], ':'))
         == OpensslCpe
  {
    assert BoundSegments(OpensslCpe) == ["cpe", "2.3", "a", "openssl", "openssl", "1.1.1", "*", "*", "*", "*", "*", "*"];
    forall k | 0 <= k < 10 && Fields(OpensslCpe)[k].Some?
      ensures Fields(OpensslCpe)[k].value != "*" && ':' !in Fields(OpensslCpe)[k].value
    {
      assert k < 4;
    }
    ParseFormatCpe(OpensslCpe);
  }

  // ---------------------------------------------------------------------------
  // The fields of one CVE item
  // ---------------------------------------------------------------------------

  datatype Description = Description(lang: Option<string>, value: Option<string>)
  datatype CvssData = CvssData(baseScore: Option<Score>, baseSeverity: Option<string>)
  datatype CvssMetric = CvssMetric(cvssData: Option<CvssData>)
  /** `metrics`; a key that is absent is `None` (an absent `metrics` has both absent). */
  datatype Metrics = Metrics(cvssMetricV31: Option<seq<CvssMetric>>, cvssMetricV40: Option<seq<CvssMetric>>)
  datatype CpeMatch = CpeMatch(vulnerable: bool, criteria: Option<string>)
  datatype ConfigNode = ConfigNode(cpeMatch: seq<CpeMatch>)
  datatype Configuration = Configuration(nodes: seq<ConfigNode>)
  datatype CveItem = CveItem(
    id: Option<string>,
    descriptions: seq<Description>,
    metrics: Metrics,
    configurations: seq<Configuration>)
  /** One element of a document's `vulnerabilities` list. */
  datatype NvdItem = NvdItem(cve: Option<CveItem>)
  /** A downloaded feed document: not JSON at all, or its `vulnerabilities` list (absent is empty). */
  datatype NvdFile = Unreadable | NvdDocument(vulnerabilities: seq<NvdItem>)

  /** The values one item writes into its `vulnerabilities` row. */
  datatype CveRecord = CveRecord(
    cveId: string,
    description: string,
    v31Score: Option<Score>,
    v31Severity: Option<string>,
    v40Score: Option<Score>,
    v40Severity: Option<string>)

  /** Every description has both its `lang` and its `value` key. */
  predicate Complete(ds: seq<Description>) {
    forall i :: 0 <= i < |ds| ==> ds[i].lang.Some? && ds[i].value.Some?
  }

  /** Position `i` holds the first description in English. */
  predicate FirstEnglishAt(ds: seq<Description>, i: int) {
    0 <= i < |ds| && ds[i].lang == Some("en") && forall j :: 0 <= j < i ==> ds[j].lang != Some("en")
  }

  predicate NoEnglish(ds: seq<Description>) {
    forall j :: 0 <= j < |ds| ==> ds[j].lang != Some("en")
  }

  /**
   * `next((d['value'] for d in descriptions if d['lang'] == 'en'), "")`: the
   * generator reads `lang` of each description up to the first English one.
   */
  function FirstEnglish(ds: seq<Description>): (r: Result<string>)
    ensures Complete(ds) ==> r.Ok?
    ensures Complete(ds) && NoEnglish(ds) ==> r == Ok("")
    ensures forall i :: FirstEnglishAt(ds, i) && Complete(ds) ==> r == Ok(ds[i].value.value)
  {
    if ds == [] then Ok("")
    else if ds[0].lang.None? then Err(KeyError("lang"))
    else if ds[0].lang.value == "en" then
      if ds[0].value.Some? then Ok(ds[0].value.value) else Err(KeyError("value"))
    else
      assert forall i :: FirstEnglishAt(ds, i) ==> FirstEnglishAt(ds[1..], i - 1);
      FirstEnglish(ds[1..])
  }

  /**
   * The description stored for a CVE (BD/carga_inicial.py:95-97): the first English
   * one; when that is missing or empty, the first description of any language;
   * with no descriptions at all, the empty string.
   */
  function SelectDescription(ds: seq<Description>): (r: Result<string>)
    ensures Complete(ds) ==> r.Ok?
    ensures forall i :: FirstEnglishAt(ds, i) && Complete(ds) ==>
              r == Ok(if ds[i].value.value != "" then ds[i].value.value else ds[0].value.value)
    ensures Complete(ds) && NoEnglish(ds) ==> r == Ok(if ds == [] then "" else ds[0].value.value)
  {
    var first :- FirstEnglish(ds);
    if first == "" && |ds| > 0 then
      if ds[0].value.Some? then Ok(ds[0].value.value) else Err(KeyError("value"))
    else Ok(first)
  }

  /** Every description before position `k` has its `lang` key. */
  predicate LangsUpTo(ds: seq<Description>, k: int) {
    forall j :: 0 <= j < k && j < |ds| ==> ds[j].lang.Some?
  }

  /**
   * The generator reads `lang` of every description up to the first English
   * one and `value` of that one: it runs without `KeyError` when, with no
   * English description, every description has a `lang`, or when the first
   * English one has a `value` and every one before it has a `lang`.
   */
  predicate EnglishReadable(ds: seq<Description>) {
    || (LangsUpTo(ds, |ds|) && NoEnglish(ds))
    || (exists i :: 0 <= i < |ds| && FirstEnglishAt(ds, i) && LangsUpTo(ds, i) && ds[i].value.Some?)
  }

  /** `FirstEnglish` raises exactly when a key it reads is missing. */
  lemma {:induction false} FirstEnglishFails(ds: seq<Description>)
    ensures FirstEnglish(ds).Ok? <==> EnglishReadable(ds)
    decreases |ds|
  {
    if ds == [] {
    } else if ds[0].lang.None? {
      assert !LangsUpTo(ds, |ds|);
      forall i | FirstEnglishAt(ds, i) ensures !LangsUpTo(ds, i) {
        assert i > 0;
      }
    } else if ds[0].lang.value == "en" {
      assert FirstEnglishAt(ds, 0) && LangsUpTo(ds, 0);
      forall i | FirstEnglishAt(ds, i) ensures i == 0 {
      }
    } else {
      var tl := ds[1..];
      FirstEnglishFails(tl);
      assert LangsUpTo(ds, |ds|) && NoEnglish(ds) <==> LangsUpTo(tl, |tl|) && NoEnglish(tl) by {
        assert forall j :: 0 < j < |ds| ==> ds[j] == tl[j - 1];
      }
      if exists i :: 0 <= i < |tl| && FirstEnglishAt(tl, i) && LangsUpTo(tl, i) && tl[i].value.Some? {
        var i :| 0 <= i < |tl| && FirstEnglishAt(tl, i) && LangsUpTo(tl, i) && tl[i].value.Some?;
        assert FirstEnglishAt(ds, i + 1) && LangsUpTo(ds, i + 1) && ds[i + 1].value.Some?;
      }
      if exists i :: 0 <= i < |ds| && FirstEnglishAt(ds, i) && LangsUpTo(ds, i) && ds[i].value.Some? {
        var i :| 0 <= i < |ds| && FirstEnglishAt(ds, i) && LangsUpTo(ds, i) && ds[i].value.Some?;
        assert i > 0;
        assert FirstEnglishAt(tl, i - 1) && LangsUpTo(tl, i - 1) && tl[i - 1].value.Some?;
      }
    }
  }

  /** The first English value is missing or empty, and there is a description to fall back to. */
  predicate FallsBack(ds: seq<Description>) {
    ds != [] && (NoEnglish(ds) || exists i :: 0 <= i < |ds| && FirstEnglishAt(ds, i) && ds[i].value == Some(""))
  }

  /**
   * `SelectDescription` raises exactly when the generator does, or when it falls
   * back (no English description, or an empty English one) to a first
   * description without a `value`.
   */
  lemma SelectDescriptionFails(ds: seq<Description>)
    ensures SelectDescription(ds).Ok? <==> EnglishReadable(ds) && (FallsBack(ds) ==> ds[0].value.Some?)
  {
    FirstEnglishFails(ds);
    FirstEnglishValue(ds);
  }

  /** What `FirstEnglish` yields when it does not raise, whether or not later descriptions are complete. */
  lemma {:induction false} FirstEnglishValue(ds: seq<Description>)
    ensures FirstEnglish(ds).Ok? && NoEnglish(ds) ==> FirstEnglish(ds).value == ""
    ensures forall i :: FirstEnglishAt(ds, i) && FirstEnglish(ds).Ok? ==>
      ds[i].value.Some? && FirstEnglish(ds).value == ds[i].value.value
    decreases |ds|
  {
    if ds != [] && ds[0].lang.Some? && ds[0].lang.value != "en" {
      FirstEnglishValue(ds[1..]);
      assert forall i :: FirstEnglishAt(ds, i) ==> FirstEnglishAt(ds[1..], i - 1);
    } else if ds != [] && ds[0].lang == Some("en") {
      forall i | FirstEnglishAt(ds, i) ensures i == 0 {
      }
    }
  }

  /**
   * Score and severity of one CVSS version (BD/carga_inicial.py:102-107): from the
   * first metric when the key is present (an empty list or a metric without
   * `cvssData` raises), both absent when it is not.
   */
  function FirstMetric(m: Option<seq<CvssMetric>>): (r: Result<(Option<Score>, Option<string>)>)
    ensures m.None? ==> r == Ok((None, None))
    ensures m.Some? ==> (r.Ok? <==> m.value != [] && m.value[0].cvssData.Some?)
    ensures r.Ok? && m.Some? ==>
              r.value == (m.value[0].cvssData.value.baseScore, m.value[0].cvssData.value.baseSeverity)
  {
    match m
    case None => Ok((None, None))
    case Some(ms) =>
      if ms == [] then Err(IndexError("cvssMetric"))
      else if ms[0].cvssData.None? then Err(KeyError("cvssData"))
      else Ok((ms[0].cvssData.value.baseScore, ms[0].cvssData.value.baseSeverity))
  }

  /** The row values of one item (BD/carga_inicial.py:92-107), or the exception reading them raises. */
  function ExtractCve(item: NvdItem): (r: Result<CveRecord>)
    ensures r.Ok? <==>
      && item.cve.Some? && item.cve.value.id.Some?
      && SelectDescription(item.cve.value.descriptions).Ok?
      && FirstMetric(item.cve.value.metrics.cvssMetricV31).Ok?
      && FirstMetric(item.cve.value.metrics.cvssMetricV40).Ok?
    ensures r.Ok? ==>
      && r.value.cveId == item.cve.value.id.value
      && r.value.description == SelectDescription(item.cve.value.descriptions).value
      && (r.value.v31Score, r.value.v31Severity) == FirstMetric(item.cve.value.metrics.cvssMetricV31).value
      && (r.value.v40Score, r.value.v40Severity) == FirstMetric(item.cve.value.metrics.cvssMetricV40).value
  {
    if item.cve.None? then Err(KeyError("cve"))
    else if item.cve.value.id.None? then Err(KeyError("id"))
    else
      var cve := item.cve.value;
      var desc :- SelectDescription(cve.descriptions);
      var m31 :- FirstMetric(cve.metrics.cvssMetricV31);
      var m40 :- FirstMetric(cve.metrics.cvssMetricV40);
      Ok(CveRecord(cve.id.value, desc, m31.0, m31.1, m40.0, m40.1))
  }

  // ---------------------------------------------------------------------------
  // The vulnerable CPE strings of one item
  // ---------------------------------------------------------------------------

  /** All `cpeMatch` entries of a list of nodes, in document order. */
  function NodeMatches(ns: seq<ConfigNode>): seq<CpeMatch> {
    if ns == [] then [] else NodeMatches(ns[..|ns| - 1]) + ns[|ns| - 1].cpeMatch
  }

  /** All `cpeMatch` entries of a list of configurations, in document order. */
  function ConfigMatches(cs: seq<Configuration>): seq<CpeMatch> {
    if cs == [] then [] else ConfigMatches(cs[..|cs| - 1]) + NodeMatches(cs[|cs| - 1].nodes)
  }

  lemma {:induction false} NodeMatchesContains(ns: seq<ConfigNode>, j: nat, m: CpeMatch)
    requires j < |ns| && m in ns[j].cpeMatch
    ensures m in NodeMatches(ns)
    decreases |ns|
  {
    if j < |ns| - 1 {
      NodeMatchesContains(ns[..|ns| - 1], j, m);
    }
  }

  lemma {:induction false} ConfigMatchesContains(cs: seq<Configuration>, i: nat, j: nat, m: CpeMatch)
    requires i < |cs| && j < |cs[i].nodes| && m in cs[i].nodes[j].cpeMatch
    ensures m in ConfigMatches(cs)
    decreases |cs|
  {
    if i < |cs| - 1 {
      ConfigMatchesContains(cs[..|cs| - 1], i, j, m);
    } else {
      NodeMatchesContains(cs[i].nodes, j, m);
    }
  }

  /** Every vulnerable entry carries `criteria` (reading it from one that does not raises). */
  predicate CriteriaPresent(ms: seq<CpeMatch>) {
    forall i :: 0 <= i < |ms| && ms[i].vulnerable ==> ms[i].criteria.Some?
  }

  /** The distinct `criteria` strings of the vulnerable entries. */
  function VulnerableCriteria(ms: seq<CpeMatch>): set<string> {
    set i | 0 <= i < |ms| && ms[i].vulnerable && ms[i].criteria.Some? :: ms[i].criteria.value
  }

  /** Reading the entries one after another: the first vulnerable one without `criteria` raises. */
  function Gather(ms: seq<CpeMatch>): Result<set<string>> {
    if ms == [] then Ok({})
    else
      var m := ms[|ms| - 1];
      var acc :- Gather(ms[..|ms| - 1]);
      if !m.vulnerable then Ok(acc)
      else if m.criteria.None? then Err(KeyError("criteria"))
      else Ok(acc + {m.criteria.value})
  }

  /** Gathering succeeds exactly when every vulnerable entry has criteria, and collects exactly theirs. */
  lemma {:induction false} GatherMeaning(ms: seq<CpeMatch>)
    ensures Gather(ms).Ok? <==> CriteriaPresent(ms)
    ensures Gather(ms).Ok? ==> Gather(ms).value == VulnerableCriteria(ms)
    decreases |ms|
  {
    if ms != [] {
      var prefix := ms[..|ms| - 1];
      var m := ms[|ms| - 1];
      GatherMeaning(prefix);
      assert forall i :: 0 <= i < |prefix| ==> prefix[i] == ms[i];
      if m.vulnerable && m.criteria.Some? {
        assert m.criteria.value in VulnerableCriteria(ms);
      }
    }
  }

  lemma GatherSnoc(ms: seq<CpeMatch>, m: CpeMatch)
    ensures Gather(ms + [m]) ==
      (if Gather(ms).Err? then Gather(ms)
       else if !m.vulnerable then Gather(ms)
       else if m.criteria.None? then Err(KeyError("criteria"))
       else Ok(Gather(ms).value + {m.criteria.value}))
  {
    assert (ms + [m])[..|ms|] == ms;
  }

  /** The entries read once one more entry of a node has been read. */
  lemma ReadMatch(seen: seq<CpeMatch>, ms: seq<CpeMatch>, k: nat)
    requires k < |ms|
    ensures Gather(seen + ms[..k + 1]) ==
      (if Gather(seen + ms[..k]).Err? then Gather(seen + ms[..k])
       else if !ms[k].vulnerable then Gather(seen + ms[..k])
       else if ms[k].criteria.None? then Err(KeyError("criteria"))
       else Ok(Gather(seen + ms[..k]).value + {ms[k].criteria.value}))
  {
    assert seen + ms[..k + 1] == seen + ms[..k] + [ms[k]];
    GatherSnoc(seen + ms[..k], ms[k]);
  }

  /** The entries read once one more node has been read. */
  lemma ReadNode(before: seq<CpeMatch>, ns: seq<ConfigNode>, j: nat)
    requires j < |ns|
    ensures before + NodeMatches(ns[..j]) + ns[j].cpeMatch[..|ns[j].cpeMatch|] == before + NodeMatches(ns[..j + 1])
  {
    assert ns[..j + 1][..j] == ns[..j];
    assert ns[j].cpeMatch[..|ns[j].cpeMatch|] == ns[j].cpeMatch;
  }

  /** The entries read once one more configuration has been read. */
  lemma ReadConfiguration(cs: seq<Configuration>, i: nat)
    requires i < |cs|
    ensures ConfigMatches(cs[..i]) + NodeMatches(cs[i].nodes[..|cs[i].nodes|]) == ConfigMatches(cs[..i + 1])
  {
    assert cs[..i + 1][..i] == cs[..i];
    assert cs[i].nodes[..|cs[i].nodes|] == cs[i].nodes;
  }

  /**
   * The loops at BD/carga_inicial.py:125-131 that fill `cpe_list`: the set of
   * criteria of the vulnerable entries, each string once; a vulnerable entry
   * without `criteria` raises.
   */
  method CollectVulnerableCriteria(configs: seq<Configuration>) returns (r: Result<set<string>>)
    ensures r.Ok? <==> CriteriaPresent(ConfigMatches(configs))
    ensures r.Ok? ==> r.value == VulnerableCriteria(ConfigMatches(configs))
  {
    var cpeList: set<string> := {};
    var i := 0;
    while i < |configs|
      invariant 0 <= i <= |configs|
      invariant Gather(ConfigMatches(configs[..i])) == Ok(cpeList)
    {
      ghost var before := ConfigMatches(configs[..i]);
      var nodes := configs[i].nodes;
      assert before + NodeMatches(nodes[..0]) == before by {
        assert nodes[..0] == [];
      }
      var j := 0;
      while j < |nodes|
        invariant 0 <= j <= |nodes|
        invariant Gather(before + NodeMatches(nodes[..j])) == Ok(cpeList)
      {
        ghost var seenNodes := before + NodeMatches(nodes[..j]);
        var matches := nodes[j].cpeMatch;
        assert seenNodes + matches[..0] == seenNodes;
        var k := 0;
        while k < |matches|
          invariant 0 <= k <= |matches|
          invariant Gather(seenNodes + matches[..k]) == Ok(cpeList)
        {
          var m := matches[k];
          ReadMatch(seenNodes, matches, k);
          if m.vulnerable {
            if m.criteria.None? {
              ConfigMatchesContains(configs, i, j, m);
              GatherMeaning(ConfigMatches(configs));
              return Err(KeyError("criteria"));
            }
            cpeList := cpeList + {m.criteria.value};
          }
          k := k + 1;
        }
        ReadNode(before, nodes, j);
        j := j + 1;
      }
      ReadConfiguration(configs, i);
      i := i + 1;
    }
    assert configs[..i] == configs;
    GatherMeaning(ConfigMatches(configs));
    return Ok(cpeList);
  }

  // ---------------------------------------------------------------------------
  // What one feed document writes (load_json_to_db)
  // ---------------------------------------------------------------------------

  /** What one item writes: its row values and its vulnerable CPE strings. */
  datatype ItemWrite = ItemWrite(record: CveRecord, criteria: set<string>)

  /** What one item writes, or the exception processing it raises. */
  function ItemRecord(item: NvdItem): Result<ItemWrite> {
    var rec :- ExtractCve(item);
    var ms := ConfigMatches(item.cve.value.configurations);
    if CriteriaPresent(ms) then Ok(ItemWrite(rec, VulnerableCriteria(ms))) else Err(KeyError("criteria"))
  }

  /** Every item of the document can be processed without raising. */
  predicate Loads(items: seq<NvdItem>) {
    forall i :: 0 <= i < |items| ==> ItemRecord(items[i]).Ok?
  }

  /** The writes of a document that loads, item by item. */
  function Writes(items: seq<NvdItem>): seq<ItemWrite>
    requires Loads(items)
  {
    seq(|items|, i requires 0 <= i < |items| => ItemRecord(items[i]).value)
  }

  lemma WritesSnoc(items: seq<NvdItem>, i: nat)
    requires i < |items| && Loads(items[..i]) && ItemRecord(items[i]).Ok?
    ensures Loads(items[..i + 1])
    ensures Writes(items[..i + 1]) == Writes(items[..i]) + [ItemRecord(items[i]).value]
  {
    assert forall j :: 0 <= j < i ==> items[..i + 1][j] == items[..i][j];
  }

  /** For each CVE written, the values of its last item: later items overwrite earlier ones. */
  function Latest(ws: seq<ItemWrite>): map<string, CveRecord> {
    if ws == [] then map[]
    else
      var rec := ws[|ws| - 1].record;
      Latest(ws[..|ws| - 1])[rec.cveId := rec]
  }

  /** The identity tuples of a set of CPE strings. */
  function Identities(crit: set<string>): set<Cpe> {
    set c | c in crit :: ParseCpeString(c)
  }

  lemma IdentitiesUnion(crit: set<string>, more: set<string>)
    ensures Identities(crit + more) == Identities(crit) + Identities(more)
  {
  }

  /** The identity tuples a sequence of writes upserts. */
  function DocIdentities(ws: seq<ItemWrite>): set<Cpe> {
    if ws == [] then {}
    else DocIdentities(ws[..|ws| - 1]) + Identities(ws[|ws| - 1].criteria)
  }

  /** The (CVE, identity) pairs a sequence of writes links. */
  function DocPairs(ws: seq<ItemWrite>): set<(string, Cpe)> {
    if ws == [] then {}
    else
      var w := ws[|ws| - 1];
      DocPairs(ws[..|ws| - 1]) + Pairs(w.record.cveId, Identities(w.criteria))
  }

  /** Every linked pair names a CVE and an identity the same writes upsert. */
  lemma {:induction false} DocPairsWithin(ws: seq<ItemWrite>)
    ensures forall p :: p in DocPairs(ws) ==> p.0 in Latest(ws) && p.1 in DocIdentities(ws)
    decreases |ws|
  {
    if ws != [] {
      DocPairsWithin(ws[..|ws| - 1]);
    }
  }

  /** A stored row holds the values of a record. */
  predicate Written(row: VulnRow, rec: CveRecord) {
    && row.description == rec.description
    && row.cvssV31Score == rec.v31Score && row.cvssV31Severity == rec.v31Severity
    && row.cvssV40Score == rec.v40Score && row.cvssV40Severity == rec.v40Severity
  }

  /**
   * Every CVE written has a row, under its previous id if it had one, with the
   * values of its last item; every other row is unchanged.
   */
  ghost predicate VulnsApplied(before: Tables, after: Tables, ws: seq<ItemWrite>) {
    && after.vulnerabilities.Keys == before.vulnerabilities.Keys + Latest(ws).Keys
    && (forall c :: c in before.vulnerabilities ==>
          after.vulnerabilities[c].id == before.vulnerabilities[c].id)
    && (forall c :: c in before.vulnerabilities && c !in Latest(ws) ==>
          after.vulnerabilities[c] == before.vulnerabilities[c])
    && (forall c :: c in Latest(ws) ==> Written(after.vulnerabilities[c], Latest(ws)[c]))
  }

  /** Every identity tuple written has a row; the rows there were keep their ids. */
  ghost predicate ProductsApplied(before: Tables, after: Tables, ws: seq<ItemWrite>) {
    && after.products.Keys == before.products.Keys + DocIdentities(ws)
    && (forall k :: k in before.products ==> after.products[k] == before.products[k])
  }

  /** The links of the written pairs are added to the links there were. */
  ghost predicate LinksApplied(before: Tables, after: Tables, ws: seq<ItemWrite>) {
    after.links == before.links + PairLinks(after, DocPairs(ws))
  }

  /** The state of the tables after a sequence of writes, relative to the state before them. */
  ghost predicate Applied(before: Tables, after: Tables, ws: seq<ItemWrite>) {
    VulnsApplied(before, after, ws) && ProductsApplied(before, after, ws) && LinksApplied(before, after, ws)
  }

  /**
   * The body of the `try` at BD/carga_inicial.py:134-147: parse one CPE string,
   * upsert its identity's `products` row and link the CVE's row to it.
   */
  method WriteIdentity(db: VulnStore, cveId: string, vulnId: nat, cpeStr: string)
    requires db.Valid() && cveId in db.vulnerabilities && db.vulnerabilities[cveId].id == vulnId
    modifies db
    ensures db.Valid() && db.committed == old(db.committed)
    ensures IdentitiesLinked(old(db.Current()), db.Current(), cveId, Identities({cpeStr}))
  {
    var key := ParseCpeString(cpeStr);
    db.LinkIdentity(cveId, vulnId, key);
    assert Identities({cpeStr}) == {key};
  }

  /**
   * The loop at BD/carga_inicial.py:133-149 for one CVE: upsert the identity of
   * each vulnerable CPE string (in whatever order the set yields them) and link it
   * to the CVE's row.
   */
  method WriteCriteria(db: VulnStore, cveId: string, vulnId: nat, crit: set<string>)
    requires db.Valid() && cveId in db.vulnerabilities && db.vulnerabilities[cveId].id == vulnId
    modifies db
    ensures db.Valid() && db.committed == old(db.committed)
    ensures IdentitiesLinked(old(db.Current()), db.Current(), cveId, Identities(crit))
  {
    var remaining := crit;
    ghost var done: set<string> := {};
    while remaining != {}
      invariant remaining + done == crit && remaining !! done
      invariant db.Valid() && db.committed == old(db.committed)
      invariant IdentitiesLinked(old(db.Current()), db.Current(), cveId, Identities(done))
      decreases remaining
    {
      var c :| c in remaining;
      ghost var before := db.Current();
      WriteIdentity(db, cveId, vulnId, c);
      IdentitiesCompose(old(db.Current()), before, db.Current(), cveId, Identities(done), Identities({c}));
      IdentitiesUnion(done, {c});
      remaining := remaining - {c};
      done := done + {c};
    }
  }

  /** The upsert of one more item's row, in the terms of `VulnsApplied`. */
  lemma VulnsStep(b: Tables, s: Tables, a: Tables, ws: seq<ItemWrite>, w: ItemWrite, vulnId: nat)
    requires VulnsApplied(b, s, ws)
    requires
      var rec := w.record;
      && a.vulnerabilities == s.vulnerabilities[rec.cveId :=
           VulnRow(vulnId, rec.description, rec.v31Score, rec.v31Severity, rec.v40Score, rec.v40Severity)]
      && (rec.cveId in s.vulnerabilities ==> vulnId == s.vulnerabilities[rec.cveId].id)
    ensures VulnsApplied(b, a, ws + [w])
  {
    var next := ws + [w];
    assert next[..|ws|] == ws;
    assert Latest(next) == Latest(ws)[w.record.cveId := w.record];
  }

  /** The upserts of one more item's identities, in the terms of `ProductsApplied`. */
  lemma ProductsStep(b: Tables, s: Tables, a: Tables, ws: seq<ItemWrite>, w: ItemWrite)
    requires ProductsApplied(b, s, ws)
    requires a.products.Keys == s.products.Keys + Identities(w.criteria)
    requires forall k :: k in s.products ==> a.products[k] == s.products[k]
    ensures ProductsApplied(b, a, ws + [w])
  {
    var next := ws + [w];
    assert next[..|ws|] == ws;
    assert DocIdentities(next) == DocIdentities(ws) + Identities(w.criteria);
  }

  /** The links of one more item, in the terms of `LinksApplied`. */
  lemma LinksStep(b: Tables, s: Tables, a: Tables, ws: seq<ItemWrite>, w: ItemWrite)
    requires VulnsApplied(b, s, ws) && ProductsApplied(b, s, ws) && LinksApplied(b, s, ws)
    requires Extends(s, a)
    requires a.links == s.links + PairLinks(a, Pairs(w.record.cveId, Identities(w.criteria)))
    ensures LinksApplied(b, a, ws + [w])
  {
    var next := ws + [w];
    assert next[..|ws|] == ws;
    var ps := Pairs(w.record.cveId, Identities(w.criteria));
    assert DocPairs(next) == DocPairs(ws) + ps;
    DocPairsWithin(ws);
    PairLinksStable(s, a, DocPairs(ws));
    PairLinksUnion(a, DocPairs(ws), ps);
  }

  /** One more item's writes: its row upserted, then its identities written. */
  lemma AppliedStep(b: Tables, s: Tables, m: Tables, a: Tables, ws: seq<ItemWrite>, w: ItemWrite, vulnId: nat)
    requires Applied(b, s, ws)
    requires
      var rec := w.record;
      && m.vulnerabilities == s.vulnerabilities[rec.cveId :=
           VulnRow(vulnId, rec.description, rec.v31Score, rec.v31Severity, rec.v40Score, rec.v40Severity)]
      && (rec.cveId in s.vulnerabilities ==> vulnId == s.vulnerabilities[rec.cveId].id)
      && m.products == s.products && m.links == s.links
    requires IdentitiesLinked(m, a, w.record.cveId, Identities(w.criteria))
    ensures Applied(b, a, ws + [w])
  {
    VulnsStep(b, s, m, ws, w, vulnId);
    assert a.vulnerabilities == m.vulnerabilities;
    ProductsStep(b, s, a, ws, w);
    LinksStep(b, s, a, ws, w);
  }

  /** Writing nothing leaves the tables as they are. */
  lemma AppliedNothing(t: Tables)
    ensures Applied(t, t, [])
  {
    assert PairLinks(t, {}) == {};
  }

  /** The last values of two rounds of writes: where both write a CVE, the second wins. */
  lemma {:induction false} LatestAppend(ws1: seq<ItemWrite>, ws2: seq<ItemWrite>)
    ensures Latest(ws1 + ws2) == Latest(ws1) + Latest(ws2)
    decreases |ws2|
  {
    if ws2 == [] {
      assert ws1 + ws2 == ws1;
    } else {
      var n := |ws2| - 1;
      LatestAppend(ws1, ws2[..n]);
      assert (ws1 + ws2)[..|ws1 + ws2| - 1] == ws1 + ws2[..n];
    }
  }

  lemma {:induction false} DocIdentitiesAppend(ws1: seq<ItemWrite>, ws2: seq<ItemWrite>)
    ensures DocIdentities(ws1 + ws2) == DocIdentities(ws1) + DocIdentities(ws2)
    decreases |ws2|
  {
    if ws2 == [] {
      assert ws1 + ws2 == ws1;
    } else {
      var n := |ws2| - 1;
      DocIdentitiesAppend(ws1, ws2[..n]);
      assert (ws1 + ws2)[..|ws1 + ws2| - 1] == ws1 + ws2[..n];
    }
  }

  lemma {:induction false} DocPairsAppend(ws1: seq<ItemWrite>, ws2: seq<ItemWrite>)
    ensures DocPairs(ws1 + ws2) == DocPairs(ws1) + DocPairs(ws2)
    decreases |ws2|
  {
    if ws2 == [] {
      assert ws1 + ws2 == ws1;
    } else {
      var n := |ws2| - 1;
      DocPairsAppend(ws1, ws2[..n]);
      assert (ws1 + ws2)[..|ws1 + ws2| - 1] == ws1 + ws2[..n];
    }
  }

  lemma VulnsCompose(b: Tables, m: Tables, a: Tables, ws1: seq<ItemWrite>, ws2: seq<ItemWrite>)
    requires VulnsApplied(b, m, ws1) && VulnsApplied(m, a, ws2)
    ensures VulnsApplied(b, a, ws1 + ws2)
  {
    LatestAppend(ws1, ws2);
  }

  lemma ProductsCompose(b: Tables, m: Tables, a: Tables, ws1: seq<ItemWrite>, ws2: seq<ItemWrite>)
    requires ProductsApplied(b, m, ws1) && ProductsApplied(m, a, ws2)
    ensures ProductsApplied(b, a, ws1 + ws2)
  {
    DocIdentitiesAppend(ws1, ws2);
  }

  /** Writes keep every row there was under its id. */
  lemma AppliedExtends(b: Tables, a: Tables, ws: seq<ItemWrite>)
    requires VulnsApplied(b, a, ws) && ProductsApplied(b, a, ws)
    ensures Extends(b, a)
  {
  }

  /** The pairs of a round of writes name rows that exist after it. */
  lemma AppliedPairsStored(b: Tables, a: Tables, ws: seq<ItemWrite>)
    requires VulnsApplied(b, a, ws) && ProductsApplied(b, a, ws)
    ensures forall p :: p in DocPairs(ws) ==> p.0 in a.vulnerabilities && p.1 in a.products
  {
    DocPairsWithin(ws);
  }

  lemma LinksCompose(b: Tables, m: Tables, a: Tables, ws1: seq<ItemWrite>, ws2: seq<ItemWrite>)
    requires VulnsApplied(b, m, ws1) && ProductsApplied(b, m, ws1) && LinksApplied(b, m, ws1)
    requires VulnsApplied(m, a, ws2) && ProductsApplied(m, a, ws2) && LinksApplied(m, a, ws2)
    ensures LinksApplied(b, a, ws1 + ws2)
  {
    DocPairsAppend(ws1, ws2);
    AppliedPairsStored(b, m, ws1);
    AppliedExtends(m, a, ws2);
    PairLinksStable(m, a, DocPairs(ws1));
    PairLinksUnion(a, DocPairs(ws1), DocPairs(ws2));
  }

  /** Two rounds of writes, one after the other, are one round of all their writes. */
  lemma AppliedCompose(b: Tables, m: Tables, a: Tables, ws1: seq<ItemWrite>, ws2: seq<ItemWrite>)
    requires Applied(b, m, ws1) && Applied(m, a, ws2)
    ensures Applied(b, a, ws1 + ws2)
  {
    VulnsCompose(b, m, a, ws1, ws2);
    ProductsCompose(b, m, a, ws1, ws2);
    LinksCompose(b, m, a, ws1, ws2);
  }

  /**
   * Writes applied to empty tables leave exactly what they wrote: a row per CVE
   * written, with the values of its last item, a row per identity written, and
   * the links of the written pairs and no others.
   */
  lemma AppliedFromEmpty(after: Tables, ws: seq<ItemWrite>)
    requires Applied(NoTables, after, ws)
    ensures after.vulnerabilities.Keys == Latest(ws).Keys
    ensures forall c :: c in Latest(ws) ==> Written(after.vulnerabilities[c], Latest(ws)[c])
    ensures after.products.Keys == DocIdentities(ws)
    ensures after.links == PairLinks(after, DocPairs(ws))
    ensures forall p :: p in DocPairs(ws) ==>
      p.0 in after.vulnerabilities && p.1 in after.products
      && Link(after.vulnerabilities[p.0].id, after.products[p.1]) in after.links
  {
    AppliedPairsStored(NoTables, after, ws);
  }

  /** One item's writes from the tables before them: its row upserted, then its identities written. */
  lemma ItemApplied(s: Tables, m: Tables, a: Tables, w: ItemWrite, vulnId: nat)
    requires
      var rec := w.record;
      && m.vulnerabilities == s.vulnerabilities[rec.cveId :=
           VulnRow(vulnId, rec.description, rec.v31Score, rec.v31Severity, rec.v40Score, rec.v40Severity)]
      && (rec.cveId in s.vulnerabilities ==> vulnId == s.vulnerabilities[rec.cveId].id)
      && m.products == s.products && m.links == s.links
    requires IdentitiesLinked(m, a, w.record.cveId, Identities(w.criteria))
    ensures Applied(s, a, [w])
  {
    AppliedNothing(s);
    AppliedStep(s, s, m, a, [], w, vulnId);
    assert [] + [w] == [w];
  }

  /**
   * One pass of the item loop of `load_json_to_db` (BD/carga_inicial.py:91-151):
   * upsert the item's CVE row, then its vulnerable identities and their links;
   * raises when a key the item needs is missing.
   */
  method LoadItem(db: VulnStore, item: NvdItem) returns (r: Result<ItemWrite>)
    requires db.Valid()
    modifies db
    ensures db.Valid() && db.committed == old(db.committed)
    ensures r.Ok? <==> ItemRecord(item).Ok?
    ensures r.Ok? ==> r == ItemRecord(item) && Applied(old(db.Current()), db.Current(), [r.value])
  {
    var record := ExtractCve(item);
    if record.Err? {
      return Err(record.error);
    }
    var rec := record.value;
    ghost var start := db.Current();
    var vulnId := db.UpsertVulnerability(
      rec.cveId, rec.description, rec.v31Score, rec.v31Severity, rec.v40Score, rec.v40Severity);
    ghost var mid := db.Current();
    var criteria := CollectVulnerableCriteria(item.cve.value.configurations);
    if criteria.Err? {
      return Err(criteria.error);
    }
    WriteCriteria(db, rec.cveId, vulnId, criteria.value);
    ItemApplied(start, mid, db.Current(), ItemWrite(rec, criteria.value), vulnId);
    return Ok(ItemWrite(rec, criteria.value));
  }

  /**
   * `load_json_to_db`: each item in turn is loaded; returns the number of items.
   * Raising part-way leaves earlier writes in the open transaction, for the
   * caller to roll back.
   */
  method LoadJsonToDb(db: VulnStore, file: NvdFile) returns (r: Result<nat>)
    requires db.Valid()
    modifies db
    ensures db.Valid() && db.committed == old(db.committed)
    ensures r.Ok? <==> file.NvdDocument? && Loads(file.vulnerabilities)
    ensures r.Ok? ==> r.value == |file.vulnerabilities|
    ensures r.Ok? ==> Applied(old(db.Current()), db.Current(), Writes(file.vulnerabilities))
  {
    if file.Unreadable? {
      return Err(JsonDecodeError);
    }
    var items := file.vulnerabilities;
    var vulnCount := 0;
    var i := 0;
    assert items[..0] == [];
    AppliedNothing(db.Current());
    while i < |items|
      invariant 0 <= i <= |items| && vulnCount == i
      invariant db.Valid() && db.committed == old(db.committed)
      invariant Loads(items[..i])
      invariant Applied(old(db.Current()), db.Current(), Writes(items[..i]))
    {
      ghost var start := db.Current();
      var w := LoadItem(db, items[i]);
      if w.Err? {
        assert !Loads(items);
        return Err(w.error);
      }
      vulnCount := vulnCount + 1;
      WritesSnoc(items, i);
      AppliedCompose(old(db.Current()), start, db.Current(), Writes(items[..i]), [w.value]);
      i := i + 1;
    }
    assert items[..i] == items;
    return Ok(vulnCount);
  }

  /**
   * One iteration of the file loop in `main` (BD/carga_inicial.py:262-269): load
   * the document and commit, or roll back everything it wrote when it raises.
   */
  method LoadFile(db: VulnStore, file: NvdFile) returns (ok: bool)
    requires db.Valid() && db.Settled()
    modifies db
    ensures db.Valid() && db.Settled()
    ensures ok <==> file.NvdDocument? && Loads(file.vulnerabilities)
    ensures ok ==> Applied(old(db.Current()), db.Current(), Writes(file.vulnerabilities))
    ensures !ok ==> db.Current() == old(db.Current())
  {
    var r := LoadJsonToDb(db, file);
    if r.Ok? {
      db.Commit();
      ok := true;
    } else {
      db.Rollback();
      ok := false;
    }
  }

  /** `reset_database` and the commit after it: the full-reload mode starts from empty tables. */
  method ResetDatabase(db: VulnStore)
    requires db.Valid()
    modifies db
    ensures db.Valid() && db.Settled() && db.Current() == NoTables
  {
    db.TruncateAndCommit();
  }

  // ---------------------------------------------------------------------------
  // The order of the documents (main)
  // ---------------------------------------------------------------------------

  /** A file in the download directory and what reading it as JSON gives. */
  datatype DirEntry = DirEntry(name: string, content: NvdFile)

  /** `[f for f in os.listdir(d) if f.endswith('.json')]`, in listing order. */
  function JsonEntries(entries: seq<DirEntry>): (r: seq<DirEntry>)
    ensures forall e :: e in r <==> e in entries && EndsWith(e.name, ".json")
  {
    if entries == [] then []
    else (if EndsWith(entries[0].name, ".json") then [entries[0]] else []) + JsonEntries(entries[1..])
  }

  predicate IsDigit(c: char) {
    '0' <= c <= '9'
  }

  /** The longest prefix of digits. */
  function DigitPrefix(s: string): (d: string)
    ensures d <= s && forall j :: 0 <= j < |d| ==> IsDigit(d[j])
    ensures |d| < |s| ==> !IsDigit(s[|d|])
    ensures s != [] && IsDigit(s[0]) ==> d != []
  {
    if s == [] || !IsDigit(s[0]) then []
    else
      assert s == [s[0]] + s[1..];
      [s[0]] + DigitPrefix(s[1..])
  }

  /** The position of the first digit, or the length of the string when it has none. */
  function FirstDigit(s: string): (i: nat)
    ensures i <= |s| && (forall j :: 0 <= j < i ==> !IsDigit(s[j])) && (i < |s| ==> IsDigit(s[i]))
  {
    if s == [] || IsDigit(s[0]) then 0 else 1 + FirstDigit(s[1..])
  }

  /**
   * `re.search(r'\d+', s)`: the leftmost run of (ASCII) digits, taken as long as it
   * goes, absent when the string has no digit.
   */
  function FirstDigitRun(s: string): (r: Option<string>)
    ensures r.None? <==> forall j :: 0 <= j < |s| ==> !IsDigit(s[j])
    ensures r.Some? ==> r.value != [] && r.value <= s[FirstDigit(s)..]
    ensures r.Some? ==> forall j :: 0 <= j < |r.value| ==> IsDigit(r.value[j])
    ensures r.Some? && FirstDigit(s) + |r.value| < |s| ==> !IsDigit(s[FirstDigit(s) + |r.value|])
  {
    var i := FirstDigit(s);
    if i == |s| then None else Some(DigitPrefix(s[i..]))
  }

  /** `int(ds)` for a string of decimal digits. */
  function DecimalValue(ds: string): nat {
    if ds == [] then 0
    else 10 * DecimalValue(ds[..|ds| - 1]) + (ds[|ds| - 1] as int - '0' as int) % 10
  }

  /** The sort key of BD/carga_inicial.py:253-254: the value of the first digit run, 0 when there is none. */
  function SortKey(e: DirEntry): nat {
    match FirstDigitRun(e.name)
    case None => 0
    case Some(ds) => DecimalValue(ds)
  }

  /** Names without a digit sort first, with key 0. */
  lemma SortKeyNoDigits(e: DirEntry)
    requires forall j :: 0 <= j < |e.name| ==> !IsDigit(e.name[j])
    ensures SortKey(e) == 0
  {
  }

  predicate SortedBy(es: seq<DirEntry>, key: DirEntry -> nat) {
    forall i, j :: 0 <= i < j < |es| ==> key(es[i]) <= key(es[j])
  }

  /** Put `e` before the first entry whose key is not smaller, so equal keys keep their order. */
  function Insert(e: DirEntry, es: seq<DirEntry>, key: DirEntry -> nat): seq<DirEntry> {
    if es == [] || key(e) <= key(es[0]) then [e] + es
    else [es[0]] + Insert(e, es[1..], key)
  }

  lemma {:induction false} InsertPermutation(e: DirEntry, es: seq<DirEntry>, key: DirEntry -> nat)
    ensures multiset(Insert(e, es, key)) == multiset(es) + multiset{e}
    decreases |es|
  {
    if es != [] && key(e) > key(es[0]) {
      InsertPermutation(e, es[1..], key);
      assert es == [es[0]] + es[1..];
    }
  }

  lemma {:induction false} InsertElements(e: DirEntry, es: seq<DirEntry>, key: DirEntry -> nat)
    ensures forall x :: x in Insert(e, es, key) ==> x == e || x in es
    decreases |es|
  {
    if es != [] && key(e) > key(es[0]) {
      InsertElements(e, es[1..], key);
    }
  }

  lemma {:induction false} InsertSorted(e: DirEntry, es: seq<DirEntry>, key: DirEntry -> nat)
    requires SortedBy(es, key)
    ensures SortedBy(Insert(e, es, key), key)
    decreases |es|
  {
    if es != [] && key(e) > key(es[0]) {
      var rest := Insert(e, es[1..], key);
      InsertSorted(e, es[1..], key);
      InsertElements(e, es[1..], key);
      var r := [es[0]] + rest;
      forall i, j | 0 <= i < j < |r|
        ensures key(r[i]) <= key(r[j])
      {
        if i == 0 {
          assert r[j] == rest[j - 1] && rest[j - 1] in rest;
        } else {
          assert r[i] == rest[i - 1] && r[j] == rest[j - 1];
        }
      }
    }
  }

  /** Python's stable `sorted(es, key=key)`: the same entries, in non-decreasing key order. */
  function SortBy(es: seq<DirEntry>, key: DirEntry -> nat): (r: seq<DirEntry>)
    ensures SortedBy(r, key)
    ensures multiset(r) == multiset(es)
  {
    if es == [] then []
    else
      var rest := SortBy(es[1..], key);
      InsertSorted(es[0], rest, key);
      InsertPermutation(es[0], rest, key);
      assert es == [es[0]] + es[1..];
      Insert(es[0], rest, key)
  }

  /** The loading order of `main`: the `.json` entries sorted by the number in their names. */
  function LoadOrder(entries: seq<DirEntry>): seq<DirEntry> {
    SortBy(JsonEntries(entries), SortKey)
  }

  /** The loading order holds exactly the `.json` entries, by non-decreasing number. */
  lemma LoadOrderSpec(entries: seq<DirEntry>)
    ensures forall i, j :: 0 <= i < j < |LoadOrder(entries)| ==>
              SortKey(LoadOrder(entries)[i]) <= SortKey(LoadOrder(entries)[j])
    ensures multiset(LoadOrder(entries)) == multiset(JsonEntries(entries))
    ensures forall e :: e in LoadOrder(entries) <==> e in entries && EndsWith(e.name, ".json")
  {
    var r := LoadOrder(entries);
    assert forall e :: e in r <==> e in multiset(r);
    assert forall e :: e in JsonEntries(entries) <==> e in multiset(JsonEntries(entries));
  }

  /** A document that is JSON and whose every item can be processed. */
  predicate DocLoads(f: NvdFile) {
    f.NvdDocument? && Loads(f.vulnerabilities)
  }

  /** The CVEs a document writes when it loads. */
  function DocCves(f: NvdFile): set<string> {
    if DocLoads(f) then Latest(Writes(f.vulnerabilities)).Keys else {}
  }

  /** The CVEs a sequence of documents writes, counting only the documents that load. */
  function LoadedCves(files: seq<DirEntry>): set<string> {
    if files == [] then {}
    else LoadedCves(files[..|files| - 1]) + DocCves(files[|files| - 1].content)
  }

  /** The names of the documents that load, in the order they are processed. */
  function LoadedNames(files: seq<DirEntry>): seq<string> {
    if files == [] then []
    else
      var f := files[|files| - 1];
      LoadedNames(files[..|files| - 1]) + (if DocLoads(f.content) then [f.name] else [])
  }

  /** What a document writes: its items' writes when it loads, nothing when it is rolled back. */
  function DocWrites(f: NvdFile): seq<ItemWrite> {
    if DocLoads(f) then Writes(f.vulnerabilities) else []
  }

  /** The writes a sequence of documents leaves, in load order, counting only the documents that load. */
  function LoadedWrites(files: seq<DirEntry>): seq<ItemWrite> {
    if files == [] then []
    else LoadedWrites(files[..|files| - 1]) + DocWrites(files[|files| - 1].content)
  }

  lemma LoadedStep(files: seq<DirEntry>, i: nat)
    requires i < |files|
    ensures LoadedCves(files[..i + 1]) == LoadedCves(files[..i]) + DocCves(files[i].content)
    ensures LoadedNames(files[..i + 1]) == LoadedNames(files[..i]) + (if DocLoads(files[i].content) then [files[i].name] else [])
    ensures LoadedWrites(files[..i + 1]) == LoadedWrites(files[..i]) + DocWrites(files[i].content)
  {
    assert files[..i + 1][..i] == files[..i];
  }

  /** The stored CVEs after one more document of the file loop, loaded or rolled back. */
  lemma FileKeys(keys: set<string>, before: Tables, after: Tables, files: seq<DirEntry>, i: nat, ok: bool)
    requires i < |files|
    requires before.vulnerabilities.Keys == keys + LoadedCves(files[..i])
    requires ok <==> DocLoads(files[i].content)
    requires ok ==> Applied(before, after, Writes(files[i].content.vulnerabilities))
    requires !ok ==> after == before
    ensures after.vulnerabilities.Keys == keys + LoadedCves(files[..i + 1])
  {
    LoadedStep(files, i);
  }

  /** The tables after one more document of the file loop, in the terms of `Applied`. */
  lemma FileApplied(start: Tables, before: Tables, after: Tables, files: seq<DirEntry>, i: nat, ok: bool)
    requires i < |files|
    requires Applied(start, before, LoadedWrites(files[..i]))
    requires ok <==> DocLoads(files[i].content)
    requires ok ==> Applied(before, after, Writes(files[i].content.vulnerabilities))
    requires !ok ==> after == before
    ensures Applied(start, after, LoadedWrites(files[..i + 1]))
  {
    LoadedStep(files, i);
    if ok {
      AppliedCompose(start, before, after, LoadedWrites(files[..i]), Writes(files[i].content.vulnerabilities));
    } else {
      assert LoadedWrites(files[..i + 1]) == LoadedWrites(files[..i]);
    }
  }

  /**
   * The file loop of `main` (BD/carga_inicial.py:262-269): each document in turn is
   * loaded and committed, or rolled back, and the loop goes on after a failure.
   * The CVEs stored afterwards are those stored before and those of the documents
   * that loaded, and the tables are those before with the writes of the documents
   * that loaded applied in order.
   */
  method LoadFiles(db: VulnStore, files: seq<DirEntry>) returns (loaded: seq<string>)
    requires db.Valid() && db.Settled()
    modifies db
    ensures db.Valid() && db.Settled()
    ensures loaded == LoadedNames(files)
    ensures db.vulnerabilities.Keys == old(db.vulnerabilities).Keys + LoadedCves(files)
    ensures Applied(old(db.Current()), db.Current(), LoadedWrites(files))
  {
    loaded := [];
    var i := 0;
    assert files[..0] == [];
    AppliedNothing(db.Current());
    while i < |files|
      invariant 0 <= i <= |files|
      invariant db.Valid() && db.Settled()
      invariant loaded == LoadedNames(files[..i])
      invariant db.vulnerabilities.Keys == old(db.vulnerabilities).Keys + LoadedCves(files[..i])
      invariant Applied(old(db.Current()), db.Current(), LoadedWrites(files[..i]))
    {
      LoadedStep(files, i);
      ghost var before := db.Current();
      var ok := LoadFile(db, files[i].content);
      FileKeys(old(db.vulnerabilities).Keys, before, db.Current(), files, i, ok);
      FileApplied(old(db.Current()), before, db.Current(), files, i, ok);
      if ok {
        loaded := loaded + [files[i].name];
      }
      i := i + 1;
    }
    assert files[..i] == files;
  }

  /** How `main` ended. */
  datatype RunOutcome = Usage | NoUpdates | NoFiles | Finished

  /**
   * The rest of `main` (BD/carga_inicial.py:253-269): sort the `.json` entries,
   * stop when there are none, and otherwise run the file loop over them.
   */
  method LoadDirectory(db: VulnStore, entries: seq<DirEntry>) returns (outcome: RunOutcome, loaded: seq<string>)
    requires db.Valid() && db.Settled()
    modifies db
    ensures db.Valid() && db.Settled()
    ensures outcome == NoFiles || outcome == Finished
    ensures outcome == NoFiles <==> LoadOrder(entries) == []
    ensures loaded == LoadedNames(LoadOrder(entries))
    ensures db.vulnerabilities.Keys == old(db.vulnerabilities).Keys + LoadedCves(LoadOrder(entries))
    ensures Applied(old(db.Current()), db.Current(), LoadedWrites(LoadOrder(entries)))
  {
    var files := LoadOrder(entries);
    if files == [] {
      AppliedNothing(db.Current());
      return NoFiles, [];
    }
    loaded := LoadFiles(db, files);
    outcome := Finished;
  }

  /**
   * `main` after the download (BD/carga_inicial.py:231-269): neither flag prints the
   * usage; an incremental run with nothing downloaded stops; otherwise a full run
   * first empties the tables, then the `.json` documents are loaded in key order.
   * A CVE is stored afterwards exactly when it was stored before (incremental
   * mode only) or some document that loaded wrote it.
   */
  method RunNvdLoad(db: VulnStore, incremental: bool, full: bool, hasData: bool, entries: seq<DirEntry>)
    returns (outcome: RunOutcome, loaded: seq<string>)
    requires db.Valid() && db.Settled()
    modifies db
    ensures db.Valid() && db.Settled()
    ensures !(incremental || full) ==> outcome == Usage
    ensures (incremental || full) && !hasData && incremental ==> outcome == NoUpdates
    ensures outcome == Usage || outcome == NoUpdates ==> db.Current() == old(db.Current()) && loaded == []
    ensures outcome == NoFiles || outcome == Finished ==>
      && (outcome == NoFiles <==> LoadOrder(entries) == [])
      && loaded == LoadedNames(LoadOrder(entries))
      && db.vulnerabilities.Keys ==
           (if full then {} else old(db.vulnerabilities).Keys) + LoadedCves(LoadOrder(entries))
      && Applied(if full then NoTables else old(db.Current()), db.Current(), LoadedWrites(LoadOrder(entries)))
  {
    if !(incremental || full) {
      return Usage, [];
    }
    if !hasData && incremental {
      return NoUpdates, [];
    }
    if full {
      ResetDatabase(db);
      assert db.vulnerabilities.Keys == {};
      outcome, loaded := LoadDirectory(db, entries);
    } else {
      outcome, loaded := LoadDirectory(db, entries);
    }
  }
}
