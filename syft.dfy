/**
 * The scanner adapter (src/adapters/syft_adapter.py): the vendor and product of
 * a scanner CPE, the layer-index map, the classification of scanned artifacts
 * into OS packages and stray executables, and the adapter object that scans an
 * image once and serves the results from its caches.
 */
module Syft {
  import opened Wrappers
  import opened Text
  import opened Store
  import opened Domain
  import Nvd

  // ---------------------------------------------------------------------------
  // The parsed scanner output
  // ---------------------------------------------------------------------------

  /** One element of an artifact's `cpes`: a CPE string, or a value of another JSON type. */
  datatype CpeValue = CpeString(text: string) | CpeOther

  /** An artifact location: the `path` and `layerID` keys, when present. */
  datatype Location = Location(path: Option<string>, layerId: Option<string>)

  /**
   * The keys of an artifact the adapter reads. An absent `locations` and an
   * empty list are alike (both falsy), and so are an absent `cpes` and an empty
   * list.
   */
  datatype Artifact = Artifact(
    kind: Option<string>,
    name: Option<string>,
    version: Option<string>,
    locations: seq<Location>,
    cpes: seq<CpeValue>)

  /** One element of `source.layers`: its `digest`, when present. */
  datatype Layer = Layer(digest: Option<string>)

  /** A non-empty `distro` object: its `name` and `version`, when present. */
  datatype Distro = Distro(name: Option<string>, version: Option<string>)

  /**
   * The scanner's JSON document: `distro` (`None` when absent or empty),
   * `source.layers` and `artifacts` (empty when absent or falsy).
   */
  datatype SyftJson = SyftJson(distro: Option<Distro>, layers: seq<Layer>, artifacts: seq<Artifact>)

  /** What the scanner gives when it fails other than by not being installed: `{}`. */
  const EmptyScan := SyftJson(None, [], [])

  // ---------------------------------------------------------------------------
  // CPE vendor and product
  // ---------------------------------------------------------------------------

  /**
   * `_parse_cpe`: colon segments 3 and 4 of a CPE with at least six segments;
   * nothing for a shorter CPE or for a value that is not a string (whose `split`
   * raises and is caught).
   */
  function ParseCpe(c: CpeValue): (r: (Option<string>, Option<string>))
    ensures c.CpeString? && |Split(c.text, ':')| >= 6 ==>
              r == (Some(Split(c.text, ':')[3]), Some(Split(c.text, ':')[4]))
    ensures (c.CpeOther? || |Split(c.text, ':')| < 6) ==> r == (None, None)
    ensures r.0.Some? ==> ':' !in r.0.value
    ensures r.1.Some? ==> ':' !in r.1.value
  {
    match c
    case CpeOther => (None, None)
    case CpeString(s) =>
      var parts := Split(s, ':');
      if |parts| >= 6 then (Some(parts[3]), Some(parts[4])) else (None, None)
  }

  /**
   * For a CPE whose vendor and product are not wildcards, the scanner side and
   * the feed loader (`parse_cpe_string`) read the same vendor and product, so a
   * package named after its CPE can meet the identity the feed stored.
   */
  lemma ParseCpeAgrees(s: string)
    requires |Split(s, ':')| >= 6 && Split(s, ':')[3] != "*" && Split(s, ':')[4] != "*"
    ensures ParseCpe(CpeString(s)) == (Nvd.ParseCpeString(s).vendor, Nvd.ParseCpeString(s).product)
  {
    Nvd.ParseCpeStringFields(s);
    assert Fields(Nvd.ParseCpeString(s))[1] == Nvd.ParseCpeString(s).vendor;
    assert Fields(Nvd.ParseCpeString(s))[2] == Nvd.ParseCpeString(s).product;
  }

  // ---------------------------------------------------------------------------
  // Layer indices
  // ---------------------------------------------------------------------------

  /** The layer map: each digest to its position in `source.layers`, a later layer winning. */
  function LayerIndex(layers: seq<Layer>): map<string, int> {
    if layers == [] then map[]
    else
      var n := |layers| - 1;
      var m := LayerIndex(layers[..n]);
      if Truthy(layers[n].digest) then m[layers[n].digest.value := n] else m
  }

  /**
   * A digest is mapped exactly when some layer carries it, and it is mapped to
   * the position of the last such layer.
   */
  lemma {:induction false} LayerIndexMeaning(layers: seq<Layer>, d: string)
    ensures d in LayerIndex(layers) <==> exists i :: 0 <= i < |layers| && Truthy(layers[i].digest) && layers[i].digest.value == d
    ensures d in LayerIndex(layers) ==>
      var i := LayerIndex(layers)[d];
      && 0 <= i < |layers| && layers[i].digest == Some(d)
      && forall j :: i < j < |layers| ==> layers[j].digest != Some(d)
    decreases |layers|
  {
    if layers != [] {
      var n := |layers| - 1;
      LayerIndexMeaning(layers[..n], d);
      assert forall i :: 0 <= i < n ==> layers[..n][i] == layers[i];
    }
  }

  lemma LayerIndexStep(layers: seq<Layer>, i: nat)
    requires i < |layers|
    ensures LayerIndex(layers[..i + 1]) ==
      if Truthy(layers[i].digest) then LayerIndex(layers[..i])[layers[i].digest.value := i] else LayerIndex(layers[..i])
  {
    assert layers[..i + 1][..i] == layers[..i];
  }

  /** The loop at lines 76-81 that fills the layer map. */
  method BuildLayerIndex(layers: seq<Layer>) returns (m: map<string, int>)
    ensures m == LayerIndex(layers)
  {
    m := map[];
    var index := 0;
    assert layers[..0] == [];
    while index < |layers|
      invariant 0 <= index <= |layers|
      invariant m == LayerIndex(layers[..index])
    {
      var layerHash := layers[index].digest;
      LayerIndexStep(layers, index);
      if layerHash.Some? && layerHash.value != "" {
        m := m[layerHash.value := index];
      }
      index := index + 1;
    }
    assert layers[..index] == layers;
  }

  /** `layer_hash_to_index_map.get(layer_id, -1)`. */
  function LayerIndexOf(m: map<string, int>, layerId: string): int {
    if layerId in m then m[layerId] else -1
  }

  // ---------------------------------------------------------------------------
  // Classification
  // ---------------------------------------------------------------------------

  /** `pkg_type in {"apk", "deb", "dpkg", "rpm"}`. */
  predicate IsOsPackageType(kind: Option<string>) {
    kind == Some("apk") || kind == Some("deb") || kind == Some("dpkg") || kind == Some("rpm")
  }

  /** The directories whose executables are reported when no package owns them. */
  predicate IsBinaryPath(path: string) {
    || StartsWith(path, "/bin/") || StartsWith(path, "/sbin/")
    || StartsWith(path, "/usr/bin/") || StartsWith(path, "/usr/sbin/")
    || StartsWith(path, "/usr/local/bin/")
  }

  /** An artifact with a name, a version and a location; the others are skipped. */
  predicate Eligible(a: Artifact) {
    Truthy(a.name) && Truthy(a.version) && a.locations != []
  }

  /** What one artifact becomes. */
  datatype Outcome = Skipped | AsPackage(package: Package) | AsBinary(binary: Binary)

  /** The vendor and product the CPE gives, before the fallbacks. */
  function CpeNames(a: Artifact): (Option<string>, Option<string>) {
    if a.cpes != [] then ParseCpe(a.cpes[0]) else (None, None)
  }

  /**
   * One artifact of the loop at lines 89-134. An eligible artifact of an OS
   * package type becomes a `Package` named after it, with the CPE's vendor or
   * else the first word of the lower-cased OS name (raising `IndexError` when
   * that name is blank), the CPE's product or else the artifact's name, and the
   * first location's layer; any other eligible artifact whose first location is
   * in a binary directory becomes a `Binary`; everything else is skipped.
   */
  function Classify(a: Artifact, layerMap: map<string, int>, osName: string): Result<Outcome>
  {
    if !Eligible(a) then Ok(Skipped)
    else
      var location := a.locations[0];
      var layerId := location.layerId.GetOr("unknown");
      var layerIndex := LayerIndexOf(layerMap, layerId);
      if IsOsPackageType(a.kind) then
        var (cpeVendor, cpeProduct) := CpeNames(a);
        var words := Words(Lower(osName));
        if !Truthy(cpeVendor) && words == [] then Err(IndexError("os_name.lower().split()"))
        else
          var vendor := if Truthy(cpeVendor) then cpeVendor.value else words[0];
          var product := if Truthy(cpeProduct) then cpeProduct.value else a.name.value;
          Ok(AsPackage(Package(a.name.value, a.version.value, vendor, product, layerId, layerIndex)))
      else if location.path.Some? && IsBinaryPath(location.path.value) then
        Ok(AsBinary(Binary(location.path.value, layerId, layerIndex)))
      else Ok(Skipped)
  }

  /**
   * An artifact without a name, a version or a location is skipped. An
   * eligible artifact of an OS package type becomes a package named after it,
   * with the CPE's vendor or else the first word of the lower-cased OS name
   * (raising exactly when that name is blank and the CPE gives no vendor), the
   * CPE's product or else the artifact's name, and the first location's layer.
   * Any other eligible artifact becomes a binary exactly when its first
   * location lies in a binary directory.
   */
  lemma ClassifyOutcomes(a: Artifact, layerMap: map<string, int>, osName: string)
    ensures var r := Classify(a, layerMap, osName);
      && (!Eligible(a) ==> r == Ok(Skipped))
      && (r.Err? <==> Eligible(a) && IsOsPackageType(a.kind) && !Truthy(CpeNames(a).0) && Words(Lower(osName)) == [])
      && (Eligible(a) && IsOsPackageType(a.kind) && r.Ok? ==> r.value.AsPackage?)
      && (r.Ok? && r.value.AsBinary? <==>
            Eligible(a) && !IsOsPackageType(a.kind) && a.locations[0].path.Some? && IsBinaryPath(a.locations[0].path.value))
    ensures var r := Classify(a, layerMap, osName);
      r.Ok? && r.value.AsPackage? ==>
        var p := r.value.package;
        var layerId := a.locations[0].layerId.GetOr("unknown");
        && Eligible(a) && IsOsPackageType(a.kind)
        && p.name == a.name.value && p.version == a.version.value
        && p.vendor == (if Truthy(CpeNames(a).0) then CpeNames(a).0.value else Words(Lower(osName))[0])
        && p.product == (if Truthy(CpeNames(a).1) then CpeNames(a).1.value else a.name.value)
        && p.layerId == layerId && p.layerIndex == LayerIndexOf(layerMap, layerId)
    ensures var r := Classify(a, layerMap, osName);
      r.Ok? && r.value.AsBinary? ==>
        var layerId := a.locations[0].layerId.GetOr("unknown");
        r.value.binary == Binary(a.locations[0].path.value, layerId, LayerIndexOf(layerMap, layerId))
  {
  }

  /** The packages and binaries of a sequence of artifacts, in order; the first artifact that raises ends it. */
  function Classified(arts: seq<Artifact>, layerMap: map<string, int>, osName: string): Result<(seq<Package>, seq<Binary>)> {
    if arts == [] then Ok(([], []))
    else
      var n := |arts| - 1;
      var prev :- Classified(arts[..n], layerMap, osName);
      var o :- Classify(arts[n], layerMap, osName);
      match o
      case Skipped => Ok(prev)
      case AsPackage(p) => Ok((prev.0 + [p], prev.1))
      case AsBinary(b) => Ok((prev.0, prev.1 + [b]))
  }

  /**
   * Every package comes from an eligible artifact of an OS package type and
   * carries its name and version, and every binary lies in a binary directory.
   */
  lemma {:induction false} ClassifiedSound(arts: seq<Artifact>, layerMap: map<string, int>, osName: string)
    requires Classified(arts, layerMap, osName).Ok?
    ensures var (ps, bs) := Classified(arts, layerMap, osName).value;
      && (forall p :: p in ps ==> exists i :: 0 <= i < |arts| && Eligible(arts[i]) && IsOsPackageType(arts[i].kind)
                                     && p.name == arts[i].name.value && p.version == arts[i].version.value)
      && (forall b :: b in bs ==> IsBinaryPath(b.path))
    decreases |arts|
  {
    if arts != [] {
      var n := |arts| - 1;
      ClassifiedSound(arts[..n], layerMap, osName);
      ClassifyOutcomes(arts[n], layerMap, osName);
      assert forall i :: 0 <= i < n ==> arts[..n][i] == arts[i];
    }
  }

  /** The scan raises exactly when some eligible OS-package artifact needs the OS vendor and the OS name is blank. */
  lemma {:induction false} ClassifiedFails(arts: seq<Artifact>, layerMap: map<string, int>, osName: string)
    ensures Classified(arts, layerMap, osName).Err? <==>
      exists i :: 0 <= i < |arts| && Classify(arts[i], layerMap, osName).Err?
    decreases |arts|
  {
    if arts != [] {
      var n := |arts| - 1;
      ClassifiedFails(arts[..n], layerMap, osName);
      assert forall i :: 0 <= i < n ==> arts[..n][i] == arts[i];
    }
  }

  lemma ClassifiedStep(arts: seq<Artifact>, layerMap: map<string, int>, osName: string, i: nat)
    requires i < |arts|
    ensures Classified(arts[..i + 1], layerMap, osName) ==
      match Classified(arts[..i], layerMap, osName)
      case Err(e) => Err(e)
      case Ok(prev) =>
        match Classify(arts[i], layerMap, osName)
        case Err(e) => Err(e)
        case Ok(Skipped) => Ok(prev)
        case Ok(AsPackage(p)) => Ok((prev.0 + [p], prev.1))
        case Ok(AsBinary(b)) => Ok((prev.0, prev.1 + [b]))
  {
    assert arts[..i + 1][..i] == arts[..i];
  }

  /** The artifact loop at lines 88-134. */
  method ClassifyArtifacts(arts: seq<Artifact>, layerMap: map<string, int>, osName: string)
    returns (r: Result<(seq<Package>, seq<Binary>)>)
    ensures r == Classified(arts, layerMap, osName)
  {
    var packages: seq<Package> := [];
    var nonPackageBinaries: seq<Binary> := [];
    var i := 0;
    assert arts[..0] == [];
    while i < |arts|
      invariant 0 <= i <= |arts|
      invariant Classified(arts[..i], layerMap, osName) == Ok((packages, nonPackageBinaries))
    {
      ClassifiedStep(arts, layerMap, osName, i);
      var outcome := Classify(arts[i], layerMap, osName);
      if outcome.Err? {
        ClassifiedPrefixErr(arts, layerMap, osName, i + 1);
        return Err(outcome.error);
      }
      match outcome.value {
        case Skipped =>
        case AsPackage(p) => packages := packages + [p];
        case AsBinary(b) => nonPackageBinaries := nonPackageBinaries + [b];
      }
      i := i + 1;
    }
    assert arts[..i] == arts;
    return Ok((packages, nonPackageBinaries));
  }

  /** Once a prefix raises, the whole sequence raises with the same exception. */
  lemma {:induction false} ClassifiedPrefixErr(arts: seq<Artifact>, layerMap: map<string, int>, osName: string, k: nat)
    requires k <= |arts| && Classified(arts[..k], layerMap, osName).Err?
    ensures Classified(arts, layerMap, osName) == Classified(arts[..k], layerMap, osName)
    decreases |arts| - k
  {
    if k < |arts| {
      ClassifiedStep(arts, layerMap, osName, k);
      ClassifiedPrefixErr(arts, layerMap, osName, k + 1);
    } else {
      assert arts[..k] == arts;
    }
  }

  /** The OS name and version of lines 66-71: `unknown` unless the distro gives them. */
  function OsInfo(distro: Option<Distro>): (string, string) {
    if distro.Some? then (distro.value.name.GetOr("unknown"), distro.value.version.GetOr("unknown"))
    else ("unknown", "unknown")
  }

  /** Python's `s or "unknown"` for an optional string. */
  function OrUnknown(s: Option<string>): string {
    if Truthy(s) then s.value else "unknown"
  }

  // ---------------------------------------------------------------------------
  // The adapter object
  // ---------------------------------------------------------------------------

  /**
   * `SyftAdapter` and its five caches. The scanner run (`_get_syft_json`) is an
   * argument of the methods that may need it: `Err(FileNotFound)` when the
   * executable is missing (which propagates), `EmptyScan` when the scan fails
   * otherwise, else the parsed document.
   */
  class SyftAdapter {
    var packagesCache: Option<seq<Package>>
    var binariesCache: Option<seq<Binary>>
    var osNameCache: Option<string>
    var osVersionCache: Option<string>
    var lastImageScanned: Option<string>

    constructor ()
      ensures packagesCache.None? && binariesCache.None? && osNameCache.None? && osVersionCache.None?
      ensures lastImageScanned.None?
    {
      packagesCache, binariesCache := None, None;
      osNameCache, osVersionCache := None, None;
      lastImageScanned := None;
    }

    /**
     * The effect of `_run_scan_if_needed` on the caches: none for the image
     * scanned last or when the scanner is missing. Otherwise the OS caches take
     * the scan's OS values, and then either classification succeeds and the
     * package and binary caches and the image are replaced, or it raises and
     * those three keep their values (the OS caches were already written).
     */
    twostate predicate ScanEffect(imageName: string, scan: Result<SyftJson>)
      reads this
    {
      if old(lastImageScanned) == Some(imageName) || scan.Err? then
        && packagesCache == old(packagesCache) && binariesCache == old(binariesCache)
        && osNameCache == old(osNameCache) && osVersionCache == old(osVersionCache)
        && lastImageScanned == old(lastImageScanned)
      else
        var (osName, osVersion) := OsInfo(scan.value.distro);
        var c := Classified(scan.value.artifacts, LayerIndex(scan.value.layers), osName);
        && osNameCache == Some(osName) && osVersionCache == Some(osVersion)
        && (c.Ok? ==> packagesCache == Some(c.value.0) && binariesCache == Some(c.value.1)
                      && lastImageScanned == Some(imageName))
        && (c.Err? ==> packagesCache == old(packagesCache) && binariesCache == old(binariesCache)
                       && lastImageScanned == old(lastImageScanned))
    }

    /** Whether `_run_scan_if_needed` raises, given the image scanned last. */
    static function ScanOutcome(lastImage: Option<string>, imageName: string, scan: Result<SyftJson>): Result<()> {
      if lastImage == Some(imageName) then Ok(())
      else if scan.Err? then Err(scan.error)
      else
        var c := Classified(scan.value.artifacts, LayerIndex(scan.value.layers), OsInfo(scan.value.distro).0);
        if c.Err? then Err(c.error) else Ok(())
    }

    /** `_run_scan_if_needed`: the scan only for an image other than the last one scanned. */
    method RunScanIfNeeded(imageName: string, scan: Result<SyftJson>) returns (r: Result<()>)
      modifies this
      ensures ScanEffect(imageName, scan)
      ensures r == ScanOutcome(old(lastImageScanned), imageName, scan)
      ensures r.Ok? ==> lastImageScanned == Some(imageName)
    {
      if lastImageScanned == Some(imageName) {
        return Ok(());
      }
      if scan.Err? {
        return Err(scan.error);
      }
      var data := scan.value;
      var (osName, osVersion) := OsInfo(data.distro);
      osNameCache := Some(osName);
      osVersionCache := Some(osVersion);
      var layerHashToIndexMap := BuildLayerIndex(data.layers);
      var classified := ClassifyArtifacts(data.artifacts, layerHashToIndexMap, osName);
      if classified.Err? {
        return Err(classified.error);
      }
      packagesCache := Some(classified.value.0);
      binariesCache := Some(classified.value.1);
      lastImageScanned := Some(imageName);
      return Ok(());
    }

    /** `get_packages`: the scan if needed, then the package cache or `[]`. */
    method GetPackages(imageName: string, scan: Result<SyftJson>) returns (r: Result<seq<Package>>)
      modifies this
      ensures ScanEffect(imageName, scan)
      ensures ScanOutcome(old(lastImageScanned), imageName, scan).Err? ==>
        r == Err(ScanOutcome(old(lastImageScanned), imageName, scan).error)
      ensures ScanOutcome(old(lastImageScanned), imageName, scan).Ok? ==>
        r == Ok(packagesCache.GetOr([])) && lastImageScanned == Some(imageName)
    {
      var s := RunScanIfNeeded(imageName, scan);
      if s.Err? {
        return Err(s.error);
      }
      return Ok(packagesCache.GetOr([]));
    }

    /** `get_non_package_binaries`: the scan if needed, then the binary cache or `[]`. */
    method GetNonPackageBinaries(imageName: string, scan: Result<SyftJson>) returns (r: Result<seq<Binary>>)
      modifies this
      ensures ScanEffect(imageName, scan)
      ensures ScanOutcome(old(lastImageScanned), imageName, scan).Err? ==>
        r == Err(ScanOutcome(old(lastImageScanned), imageName, scan).error)
      ensures ScanOutcome(old(lastImageScanned), imageName, scan).Ok? ==>
        r == Ok(binariesCache.GetOr([])) && lastImageScanned == Some(imageName)
    {
      var s := RunScanIfNeeded(imageName, scan);
      if s.Err? {
        return Err(s.error);
      }
      return Ok(binariesCache.GetOr([]));
    }

    /** `get_os_info`: the scan if needed, then the OS caches, an empty or absent value read as `unknown`. */
    method GetOsInfo(imageName: string, scan: Result<SyftJson>) returns (r: Result<(string, string)>)
      modifies this
      ensures ScanEffect(imageName, scan)
      ensures ScanOutcome(old(lastImageScanned), imageName, scan).Err? ==>
        r == Err(ScanOutcome(old(lastImageScanned), imageName, scan).error)
      ensures ScanOutcome(old(lastImageScanned), imageName, scan).Ok? ==>
        r == Ok((OrUnknown(osNameCache), OrUnknown(osVersionCache))) && lastImageScanned == Some(imageName)
    {
      var s := RunScanIfNeeded(imageName, scan);
      if s.Err? {
        return Err(s.error);
      }
      return Ok((OrUnknown(osNameCache), OrUnknown(osVersionCache)));
    }
  }

  /** A distro-less scan reports the OS as `unknown`, and then the OS vendor fallback is `unknown` too. */
  lemma NoDistroUnknown()
    ensures OsInfo(None) == ("unknown", "unknown")
    ensures Words(Lower("unknown")) == ["unknown"]
  {
    assert Lower("unknown") == "unknown";
    var s := "unknown";
    assert forall j :: 0 <= j < |s| ==> !IsSpace(s[j]);
    WordsAll(s);
  }

  /** A non-empty string without whitespace is a single word. */
  lemma WordsAll(s: string)
    requires s != [] && NoSpace(s)
    ensures Words(s) == [s]
  {
    TokenWhole(s);
    assert s[|s|..] == [];
  }

  lemma {:induction false} TokenWhole(s: string)
    requires NoSpace(s)
    ensures Token(s) == s
    decreases |s|
  {
    if s != [] {
      assert NoSpace(s[1..]) by {
        assert forall j :: 0 <= j < |s[1..]| ==> s[1..][j] == s[j + 1];
      }
      TokenWhole(s[1..]);
      assert s == [s[0]] + s[1..];
    }
  }
}
