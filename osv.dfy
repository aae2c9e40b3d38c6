/**
 * The OSV loader (BD/OSV.py): per-ecosystem package names to identity tuples,
 * the CVE an advisory refers to, and the loop over one ecosystem's advisories
 * that links stored CVEs to the identities of the affected package versions,
 * committing or rolling back each advisory on its own.
 */
module Osv {
  import opened Wrappers
  import opened Text
  import opened Store

  // ---------------------------------------------------------------------------
  // Configuration and package identities
  // ---------------------------------------------------------------------------

  /** One entry of the ecosystem table: the OSV ecosystem name, the `target_hw` tag and the naming convention. */
  datatype EcosystemConf = EcosystemConf(name: string, targetHw: string, kind: string)

  /** The seven ecosystems, in the order they are loaded (BD/OSV.py:22-65; the download URLs are left out). */
  const Ecosystems: seq<EcosystemConf> := [
    EcosystemConf("Maven", "maven", "java"),
    EcosystemConf("PyPI", "pypi", "python"),
    EcosystemConf("Go", "go", "go"),
    EcosystemConf("npm", "npm", "npm"),
    EcosystemConf("NuGet", "nuget", "nuget"),
    EcosystemConf("Packagist", "packagist", "php"),
    EcosystemConf("crates.io", "crates", "rust")
  ]

  /**
   * `parse_package_identity`: the (vendor, product) of a package name. Maven
   * coordinates split at their first colon, scoped npm names and Packagist names
   * at their first slash; every other name, and every other convention, is used
   * whole for both.
   */
  function ParsePackageIdentity(kind: string, fullName: string): (r: (string, string))
    ensures kind == "java" && ':' in fullName ==> r.0 + ":" + r.1 == fullName && ':' !in r.0
    ensures kind == "npm" && StartsWith(fullName, "@") && '/' in fullName ==>
              r.0 + "/" + r.1 == fullName && '/' !in r.0 && StartsWith(r.0, "@")
    ensures kind == "php" && '/' in fullName ==> r.0 + "/" + r.1 == fullName && '/' !in r.0
    ensures !(kind == "java" && ':' in fullName)
         && !(kind == "npm" && StartsWith(fullName, "@") && '/' in fullName)
         && !(kind == "php" && '/' in fullName)
         ==> r == (fullName, fullName)
  {
    if kind == "java" && ':' in fullName then
      SplitOnce(fullName, ':')
    else if kind == "npm" && StartsWith(fullName, "@") && '/' in fullName then
      var r := SplitOnce(fullName, '/');
      assert fullName == r.0 + (['/'] + r.1);
      assert fullName[0] == '@';
      r
    else if kind == "php" && '/' in fullName then
      SplitOnce(fullName, '/')
    else
      (fullName, fullName)
  }

  /** A name with one separator before which there is none splits there. */
  lemma SplitAt(kind: string, a: string, c: char, b: string)
    requires c !in a
    requires (kind == "java" && c == ':') || (kind == "php" && c == '/') || (kind == "npm" && c == '/' && StartsWith(a, "@"))
    ensures ParsePackageIdentity(kind, a + [c] + b) == (a, b)
  {
    IndexOfAfterClean(a, c, b);
    var s := a + [c] + b;
    assert s[..|a|] == a && s[|a| + 1..] == b;
    if kind == "npm" {
      assert s[..1] == a[..1];
    }
  }

  /** The examples the source gives for each convention. */
  lemma ParsePackageIdentityExamples()
    ensures ParsePackageIdentity("java", "org.apache" + [':'] + "commons-lang3") == ("org.apache", "commons-lang3")
    ensures ParsePackageIdentity("npm", "@angular" + ['/'] + "core") == ("@angular", "core")
    ensures ParsePackageIdentity("php", "laravel" + ['/'] + "framework") == ("laravel", "framework")
    ensures ParsePackageIdentity("npm", "react") == ("react", "react")
  {
    SplitAt("java", "org.apache", ':', "commons-lang3");
    SplitAt("npm", "@angular", '/', "core");
    SplitAt("php", "laravel", '/', "framework");
    assert !StartsWith("react", "@");
  }

  /**
   * The synthetic identity `ensure_product_exists` upserts: an application (part
   * `a`) with the parsed vendor and product, the advisory's version, the
   * ecosystem's tag as `target_hw` and every other qualifier NULL.
   */
  function ProductIdentity(conf: EcosystemConf, vendor: string, product: string, version: string): Cpe {
    Cpe(Some("a"), Some(vendor), Some(product), Some(version), None, None, None, None, Some(conf.targetHw), None)
  }

  // ---------------------------------------------------------------------------
  // Advisories
  // ---------------------------------------------------------------------------

  /** `affected[].package`; a missing object reads as one with neither key. */
  datatype OsvPackage = OsvPackage(ecosystem: Option<string>, name: Option<string>)

  /** One `affected` entry: its package and its `versions` list, when present. */
  datatype Affected = Affected(package: OsvPackage, versions: Option<seq<string>>)

  /** The keys of an advisory the loader reads: `id`, `aliases` and `affected`. */
  datatype OsvRecord = OsvRecord(id: Option<string>, aliases: Option<seq<string>>, affected: Option<seq<Affected>>)

  /** A file of the extracted archive: not JSON, or one advisory. */
  datatype OsvFile = Unparsable | OsvDocument(record: OsvRecord)

  /** A directory entry: the file name and what the file holds. */
  datatype OsvEntry = OsvEntry(name: string, content: OsvFile)

  /** The entries named `*.json`, in listing order. */
  function JsonFiles(entries: seq<OsvEntry>): (r: seq<OsvFile>)
    ensures |r| <= |entries|
    ensures forall i :: 0 <= i < |entries| && EndsWith(entries[i].name, ".json") ==> entries[i].content in r
    ensures forall f :: f in r ==> exists i :: 0 <= i < |entries| && EndsWith(entries[i].name, ".json") && entries[i].content == f
  {
    if entries == [] then []
    else
      var n := |entries| - 1;
      var rest := JsonFiles(entries[..n]);
      var e := entries[n];
      assert forall i :: 0 <= i < n ==> entries[..n][i] == entries[i];
      if EndsWith(e.name, ".json") then rest + [e.content] else rest
  }

  /** The first alias that is a CVE code. */
  function FirstCve(aliases: seq<string>): (r: Option<string>)
    ensures r.Some? ==> r.value in aliases && StartsWith(r.value, "CVE-")
    ensures r.None? <==> forall i :: 0 <= i < |aliases| ==> !StartsWith(aliases[i], "CVE-")
  {
    if aliases == [] then None
    else if StartsWith(aliases[0], "CVE-") then Some(aliases[0])
    else
      var r := FirstCve(aliases[1..]);
      assert forall i :: 1 <= i < |aliases| ==> aliases[i] == aliases[1..][i - 1];
      r
  }

  /** A CVE alias with no CVE alias before it is the one chosen. */
  lemma {:induction false} FirstCveAt(aliases: seq<string>, i: nat)
    requires i < |aliases| && StartsWith(aliases[i], "CVE-")
    requires forall j :: 0 <= j < i ==> !StartsWith(aliases[j], "CVE-")
    ensures FirstCve(aliases) == Some(aliases[i])
    decreases i
  {
    if i > 0 {
      assert aliases[1..][i - 1] == aliases[i];
      FirstCveAt(aliases[1..], i - 1);
    }
  }

  /**
   * The CVE code of an advisory (BD/OSV.py:187-194): its id when that is a CVE
   * code, else the first CVE alias, else none. An advisory without an id raises
   * `KeyError`.
   */
  function ResolveCve(rec: OsvRecord): (r: Result<Option<string>>)
    ensures r.Err? <==> rec.id.None?
    ensures rec.id.Some? && StartsWith(rec.id.value, "CVE-") ==> r == Ok(rec.id)
    ensures r.Ok? && r.value.Some? ==>
              StartsWith(r.value.value, "CVE-")
              && (r.value == rec.id || (rec.aliases.Some? && r.value.value in rec.aliases.value))
    ensures r.Ok? && r.value.None? <==>
              rec.id.Some? && !StartsWith(rec.id.value, "CVE-")
              && (rec.aliases.Some? ==> forall i :: 0 <= i < |rec.aliases.value| ==> !StartsWith(rec.aliases.value[i], "CVE-"))
  {
    if rec.id.None? then Err(KeyError("id"))
    else if StartsWith(rec.id.value, "CVE-") then Ok(rec.id)
    else if rec.aliases.Some? then Ok(FirstCve(rec.aliases.value))
    else Ok(None)
  }

  /** The statements at BD/OSV.py:187-194, with the loop over the aliases that stops at the first CVE code. */
  method ResolveCveCode(rec: OsvRecord) returns (r: Result<Option<string>>)
    ensures r == ResolveCve(rec)
  {
    if rec.id.None? {
      return Err(KeyError("id"));
    }
    var cveCode: Option<string> := None;
    if StartsWith(rec.id.value, "CVE-") {
      cveCode := rec.id;
    } else if rec.aliases.Some? {
      var aliases := rec.aliases.value;
      var k := 0;
      while k < |aliases|
        invariant 0 <= k <= |aliases|
        invariant forall j :: 0 <= j < k ==> !StartsWith(aliases[j], "CVE-")
      {
        if StartsWith(aliases[k], "CVE-") {
          FirstCveAt(aliases, k);
          cveCode := Some(aliases[k]);
          break;
        }
        k := k + 1;
      }
    }
    return Ok(cveCode);
  }

  /** The identities the versions of one package give. */
  function VersionIdentities(conf: EcosystemConf, vendor: string, product: string, versions: seq<string>): set<Cpe> {
    set v | v in versions :: ProductIdentity(conf, vendor, product, v)
  }

  /** The identities one `affected` entry gives: none unless it is of this ecosystem and lists versions. */
  function AffectedIdentities(conf: EcosystemConf, a: Affected): set<Cpe> {
    if a.package.ecosystem == Some(conf.name) && a.versions.Some? then
      var (vendor, product) := ParsePackageIdentity(conf.kind, a.package.name.GetOr(""));
      VersionIdentities(conf, vendor, product, a.versions.value)
    else {}
  }

  /** The identities the `affected` entries of an advisory give. */
  function RecordIdentities(conf: EcosystemConf, affs: seq<Affected>): set<Cpe> {
    if affs == [] then {}
    else RecordIdentities(conf, affs[..|affs| - 1]) + AffectedIdentities(conf, affs[|affs| - 1])
  }

  /**
   * An identity is written for an advisory exactly when some entry of this
   * ecosystem lists its version, and it carries that entry's parsed name.
   */
  lemma {:induction false} RecordIdentitiesMeaning(conf: EcosystemConf, affs: seq<Affected>, k: Cpe)
    ensures k in RecordIdentities(conf, affs) <==>
      exists i, v :: 0 <= i < |affs| && affs[i].package.ecosystem == Some(conf.name)
        && affs[i].versions.Some? && v in affs[i].versions.value
        && k == ProductIdentity(conf, ParsePackageIdentity(conf.kind, affs[i].package.name.GetOr("")).0,
                                ParsePackageIdentity(conf.kind, affs[i].package.name.GetOr("")).1, v)
    decreases |affs|
  {
    if affs != [] {
      var init := affs[..|affs| - 1];
      RecordIdentitiesMeaning(conf, init, k);
      assert forall i :: 0 <= i < |init| ==> init[i] == affs[i];
    }
  }

  /** Every identity the OSV loader writes is an application of the ecosystem's tag with only a version qualifier. */
  lemma {:induction false} RecordIdentitiesShape(conf: EcosystemConf, affs: seq<Affected>)
    ensures forall k :: k in RecordIdentities(conf, affs) ==>
      && k.part == Some("a") && k.vendor.Some? && k.product.Some? && k.version.Some?
      && k.updateInfo == None && k.edition == None && k.language == None && k.swEdition == None
      && k.targetHw == Some(conf.targetHw) && k.other == None
    decreases |affs|
  {
    if affs != [] {
      RecordIdentitiesShape(conf, affs[..|affs| - 1]);
    }
  }

  lemma VersionsStep(conf: EcosystemConf, vendor: string, product: string, versions: seq<string>, j: nat)
    requires j < |versions|
    ensures VersionIdentities(conf, vendor, product, versions[..j + 1])
         == VersionIdentities(conf, vendor, product, versions[..j]) + {ProductIdentity(conf, vendor, product, versions[j])}
  {
    assert versions[..j + 1] == versions[..j] + [versions[j]];
  }

  lemma AffectedStep(conf: EcosystemConf, affs: seq<Affected>, i: nat)
    requires i < |affs|
    ensures RecordIdentities(conf, affs[..i + 1]) == RecordIdentities(conf, affs[..i]) + AffectedIdentities(conf, affs[i])
  {
    assert affs[..i + 1][..i] == affs[..i];
  }

  /**
   * The inner loop at BD/OSV.py:219-227: upsert the identity of each listed
   * version of one package and link the CVE's row to it.
   */
  method WriteVersions(db: VulnStore, conf: EcosystemConf, cveId: string, vulnId: nat,
                       vendor: string, product: string, versions: seq<string>)
    requires db.Valid() && cveId in db.vulnerabilities && db.vulnerabilities[cveId].id == vulnId
    modifies db
    ensures db.Valid() && db.committed == old(db.committed)
    ensures IdentitiesLinked(old(db.Current()), db.Current(), cveId, VersionIdentities(conf, vendor, product, versions))
  {
    var j := 0;
    assert versions[..0] == [];
    while j < |versions|
      invariant 0 <= j <= |versions|
      invariant db.Valid() && db.committed == old(db.committed)
      invariant IdentitiesLinked(old(db.Current()), db.Current(), cveId, VersionIdentities(conf, vendor, product, versions[..j]))
    {
      ghost var before := db.Current();
      db.LinkIdentity(cveId, vulnId, ProductIdentity(conf, vendor, product, versions[j]));
      IdentitiesCompose(old(db.Current()), before, db.Current(), cveId,
        VersionIdentities(conf, vendor, product, versions[..j]), {ProductIdentity(conf, vendor, product, versions[j])});
      VersionsStep(conf, vendor, product, versions, j);
      j := j + 1;
    }
    assert versions[..j] == versions;
  }

  /**
   * The loop at BD/OSV.py:208-227: for each entry of this ecosystem that lists
   * versions, upsert the identity of each version and link the CVE's row to it.
   */
  method WriteAffected(db: VulnStore, conf: EcosystemConf, cveId: string, vulnId: nat, affs: seq<Affected>)
    requires db.Valid() && cveId in db.vulnerabilities && db.vulnerabilities[cveId].id == vulnId
    modifies db
    ensures db.Valid() && db.committed == old(db.committed)
    ensures IdentitiesLinked(old(db.Current()), db.Current(), cveId, RecordIdentities(conf, affs))
  {
    var i := 0;
    assert affs[..0] == [];
    while i < |affs|
      invariant 0 <= i <= |affs|
      invariant db.Valid() && db.committed == old(db.committed)
      invariant IdentitiesLinked(old(db.Current()), db.Current(), cveId, RecordIdentities(conf, affs[..i]))
    {
      var affected := affs[i];
      ghost var start := db.Current();
      if affected.package.ecosystem == Some(conf.name) {
        var (vendor, product) := ParsePackageIdentity(conf.kind, affected.package.name.GetOr(""));
        if affected.versions.Some? {
          WriteVersions(db, conf, cveId, vulnId, vendor, product, affected.versions.value);
        } else {
          IdentityUnchanged(start, cveId);
        }
      } else {
        IdentityUnchanged(start, cveId);
      }
      IdentitiesCompose(old(db.Current()), start, db.Current(), cveId,
        RecordIdentities(conf, affs[..i]), AffectedIdentities(conf, affected));
      AffectedStep(conf, affs, i);
      i := i + 1;
    }
    assert affs[..i] == affs;
  }

  // ---------------------------------------------------------------------------
  // One advisory, one ecosystem, all ecosystems (process_ecosystem, main)
  // ---------------------------------------------------------------------------

  /**
   * The stored CVE an advisory is linked to: its CVE code when the file is an
   * advisory with an id, the code resolves, and `get_cve_id_db` finds a
   * (non-zero) row for it. Otherwise the file writes nothing.
   */
  function FileCve(f: OsvFile, vulns: map<string, VulnRow>): (r: Option<string>)
    ensures r.Some? ==> r.value in vulns && StartsWith(r.value, "CVE-")
  {
    if f.Unparsable? then None
    else
      match ResolveCve(f.record)
      case Ok(Some(c)) => if c in vulns && vulns[c].id != 0 then Some(c) else None
      case _ => None
  }

  /** The identities an advisory's entries give (before it is known whether it is linked). */
  function FileIdentities(conf: EcosystemConf, f: OsvFile): set<Cpe> {
    if f.OsvDocument? then RecordIdentities(conf, f.record.affected.GetOr([])) else {}
  }

  /** The identities one file writes. */
  function FileIds(conf: EcosystemConf, f: OsvFile, vulns: map<string, VulnRow>): set<Cpe> {
    if FileCve(f, vulns).Some? then FileIdentities(conf, f) else {}
  }

  /** The pairs one file links. */
  function FilePairs(conf: EcosystemConf, f: OsvFile, vulns: map<string, VulnRow>): set<(string, Cpe)> {
    if FileCve(f, vulns).Some? then Pairs(FileCve(f, vulns).value, FileIdentities(conf, f)) else {}
  }

  /** The identities a sequence of files writes. */
  function EcoIds(conf: EcosystemConf, fs: seq<OsvFile>, vulns: map<string, VulnRow>): set<Cpe> {
    if fs == [] then {}
    else EcoIds(conf, fs[..|fs| - 1], vulns) + FileIds(conf, fs[|fs| - 1], vulns)
  }

  /** The (CVE, identity) pairs a sequence of files links. */
  function EcoPairs(conf: EcosystemConf, fs: seq<OsvFile>, vulns: map<string, VulnRow>): set<(string, Cpe)> {
    if fs == [] then {}
    else EcoPairs(conf, fs[..|fs| - 1], vulns) + FilePairs(conf, fs[|fs| - 1], vulns)
  }

  /** The CVE codes a sequence of files looks up successfully. */
  function EcoCves(fs: seq<OsvFile>, vulns: map<string, VulnRow>): set<string> {
    if fs == [] then {}
    else
      var c := FileCve(fs[|fs| - 1], vulns);
      EcoCves(fs[..|fs| - 1], vulns) + (if c.Some? then {c.value} else {})
  }

  /** Every linked pair names a stored CVE and an identity the same files write. */
  lemma {:induction false} EcoPairsWithin(conf: EcosystemConf, fs: seq<OsvFile>, vulns: map<string, VulnRow>)
    ensures forall p :: p in EcoPairs(conf, fs, vulns) ==> p.0 in vulns && p.1 in EcoIds(conf, fs, vulns)
    decreases |fs|
  {
    if fs != [] {
      EcoPairsWithin(conf, fs[..|fs| - 1], vulns);
    }
  }

  /** Every cached id is the id of the stored row of that CVE. */
  ghost predicate CacheSound(cache: map<string, nat>, vulns: map<string, VulnRow>) {
    forall c :: c in cache ==> c in vulns && cache[c] == vulns[c].id
  }

  /** A file that is not linked to a stored CVE writes nothing. */
  lemma FileSkipped(conf: EcosystemConf, f: OsvFile, vulns: map<string, VulnRow>, t: Tables)
    requires FileCve(f, vulns).None?
    ensures FileIds(conf, f, vulns) == {} && FilePairs(conf, f, vulns) == {}
    ensures Linked(t, t, FileIds(conf, f, vulns), FilePairs(conf, f, vulns))
  {
  }

  /**
   * The writes of an advisory whose CVE is stored, then the commit
   * (BD/OSV.py:208-229).
   */
  method WriteFile(db: VulnStore, conf: EcosystemConf, f: OsvFile, cveCode: string, vulnId: nat)
    requires f.OsvDocument? && FileCve(f, db.vulnerabilities) == Some(cveCode)
    requires db.Valid() && db.Settled() && db.vulnerabilities[cveCode].id == vulnId
    modifies db
    ensures db.Valid() && db.Settled()
    ensures Linked(old(db.Current()), db.Current(), FileIds(conf, f, old(db.vulnerabilities)), FilePairs(conf, f, old(db.vulnerabilities)))
  {
    WriteAffected(db, conf, cveCode, vulnId, f.record.affected.GetOr([]));
    db.Commit();
  }

  /**
   * The first part of the body of the file loop of `process_ecosystem`
   * (BD/OSV.py:182-205): resolve the CVE, take its id from the cache or look it
   * up. A found id is cached; a miss is not, and skips the file. A file that is
   * not JSON, or an advisory without an id, raises and is rolled back (there is
   * nothing to discard).
   */
  method LookupCve(db: VulnStore, f: OsvFile, cache: map<string, nat>)
    returns (target: Option<(string, nat)>, cache': map<string, nat>)
    requires db.Valid() && db.Settled() && CacheSound(cache, db.vulnerabilities)
    modifies db
    ensures db.Valid() && db.Settled() && db.Current() == old(db.Current())
    ensures target.Some? <==> FileCve(f, db.vulnerabilities).Some?
    ensures target.Some? ==>
      target.value.0 == FileCve(f, db.vulnerabilities).value && target.value.1 == db.vulnerabilities[target.value.0].id
    ensures var c := FileCve(f, db.vulnerabilities);
      cache' == if c.Some? then cache[c.value := db.vulnerabilities[c.value].id] else cache
  {
    cache' := cache;
    if f.Unparsable? {
      db.Rollback();
      return None, cache';
    }
    var code := ResolveCveCode(f.record);
    if code.Err? {
      db.Rollback();
      return None, cache';
    }
    if code.value.None? {
      return None, cache';
    }
    var cveCode := code.value.value;
    if cveCode in cache {
      return Some((cveCode, cache[cveCode])), cache';
    }
    var found := db.CveRowId(cveCode);
    if found.None? || found.value == 0 {
      return None, cache';
    }
    cache' := cache[cveCode := found.value];
    return Some((cveCode, found.value)), cache';
  }

  /**
   * The body of the file loop of `process_ecosystem` (BD/OSV.py:182-232): the
   * lookup, then the writes of an advisory whose CVE is stored and the commit.
   */
  method ProcessFile(db: VulnStore, conf: EcosystemConf, f: OsvFile, cache: map<string, nat>)
    returns (cache': map<string, nat>)
    requires db.Valid() && db.Settled() && CacheSound(cache, db.vulnerabilities)
    modifies db
    ensures db.Valid() && db.Settled() && db.vulnerabilities == old(db.vulnerabilities)
    ensures Linked(old(db.Current()), db.Current(), FileIds(conf, f, old(db.vulnerabilities)), FilePairs(conf, f, old(db.vulnerabilities)))
    ensures var c := FileCve(f, old(db.vulnerabilities));
      cache' == if c.Some? then cache[c.value := db.vulnerabilities[c.value].id] else cache
  {
    var target;
    target, cache' := LookupCve(db, f, cache);
    if target.Some? {
      WriteFile(db, conf, f, target.value.0, target.value.1);
    } else {
      FileSkipped(conf, f, db.vulnerabilities, db.Current());
    }
  }

  lemma EcoStep(conf: EcosystemConf, fs: seq<OsvFile>, i: nat, vulns: map<string, VulnRow>)
    requires i < |fs|
    ensures EcoIds(conf, fs[..i + 1], vulns) == EcoIds(conf, fs[..i], vulns) + FileIds(conf, fs[i], vulns)
    ensures EcoPairs(conf, fs[..i + 1], vulns) == EcoPairs(conf, fs[..i], vulns) + FilePairs(conf, fs[i], vulns)
    ensures EcoCves(fs[..i + 1], vulns) ==
      EcoCves(fs[..i], vulns) + (if FileCve(fs[i], vulns).Some? then {FileCve(fs[i], vulns).value} else {})
  {
    assert fs[..i + 1][..i] == fs[..i];
  }

  /** The cache after one more file holds the CVEs found so far, each with its stored id. */
  lemma CacheStep(cache: map<string, nat>, cache': map<string, nat>, fs: seq<OsvFile>, i: nat, vulns: map<string, VulnRow>)
    requires i < |fs| && cache.Keys == EcoCves(fs[..i], vulns) && CacheSound(cache, vulns)
    requires var c := FileCve(fs[i], vulns); cache' == if c.Some? then cache[c.value := vulns[c.value].id] else cache
    ensures cache'.Keys == EcoCves(fs[..i + 1], vulns) && CacheSound(cache', vulns)
  {
    assert fs[..i + 1][..i] == fs[..i];
  }

  /** One more file of the loop composes with the files before it. */
  lemma EcoLinkedStep(
    t0: Tables, t: Tables, t': Tables, conf: EcosystemConf, fs: seq<OsvFile>, i: nat, vulns: map<string, VulnRow>)
    requires i < |fs| && t0.vulnerabilities == vulns
    requires Linked(t0, t, EcoIds(conf, fs[..i], vulns), EcoPairs(conf, fs[..i], vulns))
    requires Linked(t, t', FileIds(conf, fs[i], vulns), FilePairs(conf, fs[i], vulns))
    ensures Linked(t0, t', EcoIds(conf, fs[..i + 1], vulns), EcoPairs(conf, fs[..i + 1], vulns))
  {
    EcoPairsWithin(conf, fs[..i], vulns);
    LinkedCompose(t0, t, t', EcoIds(conf, fs[..i], vulns), EcoPairs(conf, fs[..i], vulns),
      FileIds(conf, fs[i], vulns), FilePairs(conf, fs[i], vulns));
    EcoStep(conf, fs, i, vulns);
  }

  /**
   * `process_ecosystem` over the listing of the extracted folder (os.listdir
   * order): every `.json` file in turn. The vulnerabilities are never written;
   * the identities and links are those of the files linked to a stored CVE; the
   * returned cache (a local of the source) holds exactly the CVEs found, each
   * with its stored id.
   */
  method ProcessEcosystem(db: VulnStore, conf: EcosystemConf, entries: seq<OsvEntry>)
    returns (cache: map<string, nat>)
    requires db.Valid() && db.Settled()
    modifies db
    ensures db.Valid() && db.Settled()
    ensures Linked(old(db.Current()), db.Current(),
      EcoIds(conf, JsonFiles(entries), old(db.vulnerabilities)), EcoPairs(conf, JsonFiles(entries), old(db.vulnerabilities)))
    ensures cache.Keys == EcoCves(JsonFiles(entries), db.vulnerabilities) && CacheSound(cache, db.vulnerabilities)
  {
    var files := JsonFiles(entries);
    ghost var vulns := db.vulnerabilities;
    cache := map[];
    var i := 0;
    assert files[..0] == [];
    while i < |files|
      invariant 0 <= i <= |files|
      invariant db.Valid() && db.Settled() && db.vulnerabilities == vulns
      invariant Linked(old(db.Current()), db.Current(), EcoIds(conf, files[..i], vulns), EcoPairs(conf, files[..i], vulns))
      invariant cache.Keys == EcoCves(files[..i], vulns) && CacheSound(cache, vulns)
    {
      ghost var before := db.Current();
      ghost var cache0 := cache;
      cache := ProcessFile(db, conf, files[i], cache);
      EcoLinkedStep(old(db.Current()), before, db.Current(), conf, files, i, vulns);
      CacheStep(cache0, cache, files, i, vulns);
      i := i + 1;
    }
    assert files[..i] == files;
  }

  /** The identities the ecosystems whose download succeeded write, ecosystem by ecosystem. */
  function AllIds(confs: seq<EcosystemConf>, downloads: seq<Option<seq<OsvEntry>>>, vulns: map<string, VulnRow>): set<Cpe>
    requires |downloads| <= |confs|
  {
    if downloads == [] then {}
    else
      var n := |downloads| - 1;
      AllIds(confs, downloads[..n], vulns)
        + (if downloads[n].Some? then EcoIds(confs[n], JsonFiles(downloads[n].value), vulns) else {})
  }

  /** The pairs the ecosystems whose download succeeded link. */
  function AllPairs(confs: seq<EcosystemConf>, downloads: seq<Option<seq<OsvEntry>>>, vulns: map<string, VulnRow>): set<(string, Cpe)>
    requires |downloads| <= |confs|
  {
    if downloads == [] then {}
    else
      var n := |downloads| - 1;
      AllPairs(confs, downloads[..n], vulns)
        + (if downloads[n].Some? then EcoPairs(confs[n], JsonFiles(downloads[n].value), vulns) else {})
  }

  lemma {:induction false} AllPairsWithin(confs: seq<EcosystemConf>, downloads: seq<Option<seq<OsvEntry>>>, vulns: map<string, VulnRow>)
    requires |downloads| <= |confs|
    ensures forall p :: p in AllPairs(confs, downloads, vulns) ==> p.0 in vulns && p.1 in AllIds(confs, downloads, vulns)
    decreases |downloads|
  {
    if downloads != [] {
      var n := |downloads| - 1;
      AllPairsWithin(confs, downloads[..n], vulns);
      if downloads[n].Some? {
        EcoPairsWithin(confs[n], JsonFiles(downloads[n].value), vulns);
      }
    }
  }

  lemma AllStep(confs: seq<EcosystemConf>, downloads: seq<Option<seq<OsvEntry>>>, i: nat, vulns: map<string, VulnRow>)
    requires i < |downloads| <= |confs|
    ensures AllIds(confs, downloads[..i + 1], vulns) == AllIds(confs, downloads[..i], vulns)
      + (if downloads[i].Some? then EcoIds(confs[i], JsonFiles(downloads[i].value), vulns) else {})
    ensures AllPairs(confs, downloads[..i + 1], vulns) == AllPairs(confs, downloads[..i], vulns)
      + (if downloads[i].Some? then EcoPairs(confs[i], JsonFiles(downloads[i].value), vulns) else {})
  {
    assert downloads[..i + 1][..i] == downloads[..i];
  }

  /** One more ecosystem of `main` composes with the ecosystems before it. */
  lemma AllLinkedStep(
    t0: Tables, t: Tables, t': Tables, confs: seq<EcosystemConf>, downloads: seq<Option<seq<OsvEntry>>>, i: nat, vulns: map<string, VulnRow>)
    requires i < |downloads| <= |confs| && t0.vulnerabilities == vulns
    requires Linked(t0, t, AllIds(confs, downloads[..i], vulns), AllPairs(confs, downloads[..i], vulns))
    requires downloads[i].Some? ==>
      Linked(t, t', EcoIds(confs[i], JsonFiles(downloads[i].value), vulns),
        EcoPairs(confs[i], JsonFiles(downloads[i].value), vulns))
    requires downloads[i].None? ==> t' == t
    ensures Linked(t0, t', AllIds(confs, downloads[..i + 1], vulns), AllPairs(confs, downloads[..i + 1], vulns))
  {
    AllPairsWithin(confs, downloads[..i], vulns);
    var ids := if downloads[i].Some? then EcoIds(confs[i], JsonFiles(downloads[i].value), vulns) else {};
    var pairs := if downloads[i].Some? then EcoPairs(confs[i], JsonFiles(downloads[i].value), vulns) else {};
    assert Linked(t, t', ids, pairs);
    LinkedCompose(t0, t, t', AllIds(confs, downloads[..i], vulns), AllPairs(confs, downloads[..i], vulns), ids, pairs);
    AllStep(confs, downloads, i, vulns);
  }

  /**
   * The loop of `main` (BD/OSV.py:243-246): each ecosystem in table order whose archive was
   * downloaded and extracted (`downloads[i]` is the listing of its folder, `None`
   * when the download failed) is processed; the others are skipped.
   */
  method LoadEcosystems(db: VulnStore, confs: seq<EcosystemConf>, downloads: seq<Option<seq<OsvEntry>>>)
    requires |downloads| == |confs|
    requires db.Valid() && db.Settled()
    modifies db
    ensures db.Valid() && db.Settled()
    ensures Linked(old(db.Current()), db.Current(), AllIds(confs, downloads, old(db.vulnerabilities)), AllPairs(confs, downloads, old(db.vulnerabilities)))
  {
    ghost var vulns := db.vulnerabilities;
    var i := 0;
    assert downloads[..0] == [];
    while i < |confs|
      invariant 0 <= i <= |confs|
      invariant db.Valid() && db.Settled() && db.vulnerabilities == vulns
      invariant Linked(old(db.Current()), db.Current(), AllIds(confs, downloads[..i], vulns), AllPairs(confs, downloads[..i], vulns))
    {
      ghost var before := db.Current();
      if downloads[i].Some? {
        var _ := ProcessEcosystem(db, confs[i], downloads[i].value);
      }
      AllLinkedStep(old(db.Current()), before, db.Current(), confs, downloads, i, vulns);
      i := i + 1;
    }
    assert downloads[..i] == downloads;
  }

  /** `main` (BD/OSV.py:240-250): the loop over the seven ecosystems of the table. */
  method RunOsvLoad(db: VulnStore, downloads: seq<Option<seq<OsvEntry>>>)
    requires |downloads| == |Ecosystems|
    requires db.Valid() && db.Settled()
    modifies db
    ensures db.Valid() && db.Settled()
    ensures Linked(old(db.Current()), db.Current(),
      AllIds(Ecosystems, downloads, old(db.vulnerabilities)), AllPairs(Ecosystems, downloads, old(db.vulnerabilities)))
  {
    LoadEcosystems(db, Ecosystems, downloads);
  }
}
