/**
 * The analysis use case (src/core/use_cases.py): the package matches grouped by
 * package name and version, and `analyze_image`, which gathers the inventory,
 * builds the asset report, looks the inventory up and builds the vulnerability
 * report.
 */
module UseCases {
  import opened Wrappers
  import opened Store
  import opened Domain
  import opened CveAdapter
  import opened Syft

  type Grouping = map<string, map<string, seq<Vulnerability>>>

  // ---------------------------------------------------------------------------
  // Grouping
  // ---------------------------------------------------------------------------

  /** The matches of `vs` with this package name and version, in their order. */
  function Select(vs: seq<Vulnerability>, name: string, version: string): seq<Vulnerability> {
    if vs == [] then []
    else
      var n := |vs| - 1;
      var x := vs[n];
      Select(vs[..n], name, version) + (if x.packageName == name && x.packageVersion == version then [x] else [])
  }

  /** One pass of the loop at lines 52-65: `v` appended to its name's and version's list, created if missing. */
  function AddTo(g: Grouping, v: Vulnerability): Grouping {
    var inner := if v.packageName in g then g[v.packageName] else map[];
    var list := if v.packageVersion in inner then inner[v.packageVersion] else [];
    g[v.packageName := inner[v.packageVersion := list + [v]]]
  }

  /** The grouping of the whole list, one `AddTo` per match in order. */
  function Grouped(vs: seq<Vulnerability>): Grouping {
    if vs == [] then map[] else AddTo(Grouped(vs[..|vs| - 1]), vs[|vs| - 1])
  }

  lemma GroupedStep(vs: seq<Vulnerability>, i: nat)
    requires i < |vs|
    ensures Grouped(vs[..i + 1]) == AddTo(Grouped(vs[..i]), vs[i])
  {
    assert vs[..i + 1][..i] == vs[..i];
  }

  /** The three updates of one loop pass (create the name's map, create the version's list, append) are `AddTo`. */
  lemma AddToSteps(g: Grouping, v: Vulnerability)
    ensures var g1 := if v.packageName !in g then g[v.packageName := map[]] else g;
            var g2 := if v.packageVersion !in g1[v.packageName]
                      then g1[v.packageName := g1[v.packageName][v.packageVersion := []]] else g1;
            g2[v.packageName := g2[v.packageName][v.packageVersion := g2[v.packageName][v.packageVersion] + [v]]]
              == AddTo(g, v)
  {
    var g1 := if v.packageName !in g then g[v.packageName := map[]] else g;
    var g2 := if v.packageVersion !in g1[v.packageName]
              then g1[v.packageName := g1[v.packageName][v.packageVersion := []]] else g1;
    var g3 := g2[v.packageName := g2[v.packageName][v.packageVersion := g2[v.packageName][v.packageVersion] + [v]]];
    assert g3[v.packageName] == AddTo(g, v)[v.packageName];
  }

  /** The grouping loop at lines 51-65. */
  method GroupVulnerabilities(pkgVulns: seq<Vulnerability>) returns (grouped: Grouping)
    ensures grouped == Grouped(pkgVulns)
  {
    grouped := map[];
    var i := 0;
    assert pkgVulns[..0] == [];
    while i < |pkgVulns|
      invariant 0 <= i <= |pkgVulns|
      invariant grouped == Grouped(pkgVulns[..i])
    {
      var vuln := pkgVulns[i];
      var pkgName := vuln.packageName;
      var pkgVer := vuln.packageVersion;
      GroupedStep(pkgVulns, i);
      AddToSteps(grouped, vuln);
      if pkgName !in grouped {
        grouped := grouped[pkgName := map[]];
      }
      if pkgVer !in grouped[pkgName] {
        grouped := grouped[pkgName := grouped[pkgName][pkgVer := []]];
      }
      grouped := grouped[pkgName := grouped[pkgName][pkgVer := grouped[pkgName][pkgVer] + [vuln]]];
      i := i + 1;
    }
    assert pkgVulns[..i] == pkgVulns;
  }

  /**
   * The outer keys are exactly the package names that occur, the inner keys
   * exactly the versions seen with that name, and each list holds precisely the
   * matches with that name and version, in input order.
   */
  lemma {:induction false} GroupedMeaning(vs: seq<Vulnerability>, name: string, version: string)
    ensures name in Grouped(vs) <==> exists i :: 0 <= i < |vs| && vs[i].packageName == name
    ensures name in Grouped(vs) ==>
      (version in Grouped(vs)[name] <==>
         exists i :: 0 <= i < |vs| && vs[i].packageName == name && vs[i].packageVersion == version)
    ensures name in Grouped(vs) && version in Grouped(vs)[name] ==>
      Grouped(vs)[name][version] == Select(vs, name, version)
    decreases |vs|
  {
    if vs != [] {
      var n := |vs| - 1;
      GroupedMeaning(vs[..n], name, version);
      assert forall i :: 0 <= i < n ==> vs[..n][i] == vs[i];
      SelectEmpty(vs[..n], name, version);
    }
  }

  /** A pair that never occurs selects nothing. */
  lemma {:induction false} SelectEmpty(vs: seq<Vulnerability>, name: string, version: string)
    ensures Select(vs, name, version) == [] <==>
      forall i :: 0 <= i < |vs| ==> !(vs[i].packageName == name && vs[i].packageVersion == version)
    decreases |vs|
  {
    if vs != [] {
      var n := |vs| - 1;
      SelectEmpty(vs[..n], name, version);
      assert forall i :: 0 <= i < n ==> vs[..n][i] == vs[i];
      assert Select(vs, name, version) == Select(vs[..n], name, version) +
        (if vs[n].packageName == name && vs[n].packageVersion == version then [vs[n]] else []);
    }
  }

  /** No inner list is empty. */
  lemma GroupedNonEmpty(vs: seq<Vulnerability>, name: string, version: string)
    requires name in Grouped(vs) && version in Grouped(vs)[name]
    ensures Grouped(vs)[name][version] != []
  {
    GroupedMeaning(vs, name, version);
    SelectEmpty(vs, name, version);
  }

  // ---------------------------------------------------------------------------
  // Sizes of a grouping
  // ---------------------------------------------------------------------------

  /** The sum of `f` over the values of a map. */
  ghost function SumBy<K, V>(m: map<K, V>, f: V -> nat): nat
    decreases |m|
  {
    if m == map[] then 0
    else
      var k :| k in m;
      f(m[k]) + SumBy(m - {k}, f)
  }

  lemma {:induction false} SumByRemove<K, V>(m: map<K, V>, f: V -> nat, k: K)
    requires k in m
    ensures SumBy(m, f) == f(m[k]) + SumBy(m - {k}, f)
    decreases |m|
  {
    var j :| j in m && SumBy(m, f) == f(m[j]) + SumBy(m - {j}, f);
    if j != k {
      assert (m - {j})[k] == m[k];
      assert (m - {k})[j] == m[j];
      SumByRemove(m - {j}, f, k);
      SumByRemove(m - {k}, f, j);
      assert m - {j} - {k} == m - {k} - {j};
    }
  }

  lemma SumByUpdate<K, V>(m: map<K, V>, f: V -> nat, k: K, v: V)
    ensures SumBy(m[k := v], f) == SumBy(m - {k}, f) + f(v)
    ensures k in m ==> SumBy(m, f) == SumBy(m - {k}, f) + f(m[k])
    ensures k !in m ==> SumBy(m, f) == SumBy(m - {k}, f)
  {
    SumByRemove(m[k := v], f, k);
    assert m[k := v] - {k} == m - {k};
    if k in m {
      SumByRemove(m, f, k);
    } else {
      assert m - {k} == m;
    }
  }

  ghost function ListLength(s: seq<Vulnerability>): nat { |s| }

  /** The number of matches filed under one package name. */
  ghost function InnerTotal(inner: map<string, seq<Vulnerability>>): nat {
    SumBy(inner, ListLength)
  }

  /** The number of matches in a grouping: the lengths of all its lists. */
  ghost function Total(g: Grouping): nat {
    SumBy(g, InnerTotal)
  }

  lemma AddToTotal(g: Grouping, v: Vulnerability)
    ensures Total(AddTo(g, v)) == Total(g) + 1
  {
    var inner := if v.packageName in g then g[v.packageName] else map[];
    var list := if v.packageVersion in inner then inner[v.packageVersion] else [];
    SumByUpdate(inner, ListLength, v.packageVersion, list + [v]);
    assert InnerTotal(inner[v.packageVersion := list + [v]]) == InnerTotal(inner) + 1;
    SumByUpdate(g, InnerTotal, v.packageName, inner[v.packageVersion := list + [v]]);
    if v.packageName !in g {
      assert InnerTotal(inner) == 0;
    }
  }

  /** Every match is filed exactly once: the list lengths add up to the number of matches. */
  lemma {:induction false} GroupedTotal(vs: seq<Vulnerability>)
    ensures Total(Grouped(vs)) == |vs|
    decreases |vs|
  {
    if vs != [] {
      GroupedTotal(vs[..|vs| - 1]);
      AddToTotal(Grouped(vs[..|vs| - 1]), vs[|vs| - 1]);
    }
  }

  // ---------------------------------------------------------------------------
  // The use case
  // ---------------------------------------------------------------------------

  /** What `find_package_vulnerabilities` promises for this inventory and store. */
  predicate PackageMatches(env: DbEnv, db: Option<Tables>, packages: seq<Package>,
                           found: seq<Vulnerability>, used: seq<(string, Cpe)>) {
    if packages == [] || !Configured(env) || db.None? then found == []
    else ListsRows(db.value, PackageRows(db.value, PackageKeys(packages)), found, used)
  }

  /** What `find_os_vulnerabilities` promises for this OS and store, when it does not raise. */
  predicate OsMatches(env: DbEnv, db: Option<Tables>, osName: string, osVersion: string,
                      found: seq<Vulnerability>, used: seq<(string, Cpe)>) {
    if !Configured(env) || osName == "unknown" || db.None? then found == []
    else
      OsIdentity(osName, osVersion).Ok? &&
      var id := OsIdentity(osName, osVersion).value;
      ListsRows(db.value, OsRows(db.value, id.0, id.1, id.2), found, used)
  }

  /**
   * `analyze_image` with the scanner adapter and the database adapter of the
   * application. The asset report is built from the scanner's results alone and
   * exists before any lookup, so it is produced even when the OS lookup then
   * raises; the vulnerability report holds the OS matches as returned and the
   * package matches grouped.
   */
  method AnalyzeImage(provider: SyftAdapter, scan: Result<SyftJson>, env: DbEnv, db: Option<Tables>,
                      imageName: string)
    returns (asset: Result<AssetReport>, report: Result<VulnerabilityReport>,
             ghost pkgMatches: seq<Vulnerability>, ghost pkgUsed: seq<(string, Cpe)>, ghost osUsed: seq<(string, Cpe)>)
    modifies provider
    ensures provider.ScanEffect(imageName, scan)
    ensures asset.Err? ==> report.Err?
    ensures var out := SyftAdapter.ScanOutcome(old(provider.lastImageScanned), imageName, scan);
      && (out.Err? ==> asset == Err(out.error))
      && (out.Ok? && old(provider.lastImageScanned) == Some(imageName) ==>
            asset == Ok(AssetReport(imageName, OrUnknown(old(provider.osNameCache)), OrUnknown(old(provider.osVersionCache)),
                                    old(provider.packagesCache).GetOr([]), old(provider.binariesCache).GetOr([]))))
      && (out.Ok? && old(provider.lastImageScanned) != Some(imageName) ==>
            var (osName, osVersion) := OsInfo(scan.value.distro);
            var c := Classified(scan.value.artifacts, LayerIndex(scan.value.layers), osName);
            asset == Ok(AssetReport(imageName, OrUnknown(Some(osName)), OrUnknown(Some(osVersion)), c.value.0, c.value.1)))
    ensures asset.Ok? ==>
      var a := asset.value;
      && PackageMatches(env, db, a.packages, pkgMatches, pkgUsed)
      && (report.Err? <==> Configured(env) && a.osName != "unknown" && OsIdentity(a.osName, a.osVersion).Err?)
      && (report.Ok? ==>
            && report.value.imageName == imageName
            && report.value.packageVulnerabilities == Grouped(pkgMatches)
            && OsMatches(env, db, a.osName, a.osVersion, report.value.osVulnerabilities, osUsed))
  {
    pkgMatches, pkgUsed, osUsed := [], [], [];
    var packages := provider.GetPackages(imageName, scan);
    if packages.Err? {
      return Err(packages.error), Err(packages.error), pkgMatches, pkgUsed, osUsed;
    }
    var binaries := provider.GetNonPackageBinaries(imageName, scan);
    var osInfo := provider.GetOsInfo(imageName, scan);
    var (osName, osVersion) := osInfo.value;
    var assetReport := AssetReport(imageName, osName, osVersion, packages.value, binaries.value);
    asset := Ok(assetReport);
    var pkgVulns;
    pkgVulns, pkgUsed := FindPackageVulnerabilities(env, db, packages.value);
    pkgMatches := pkgVulns;
    var osVulns;
    osVulns, osUsed := FindOsVulnerabilities(env, db, osName, osVersion);
    if osVulns.Err? {
      return asset, Err(osVulns.error), pkgMatches, pkgUsed, osUsed;
    }
    var groupedVulns := GroupVulnerabilities(pkgVulns);
    report := Ok(VulnerabilityReport(imageName, osVulns.value, groupedVulns));
  }
}
