/**
 * One image analysed against one stored vulnerability: the store holds
 * CVE-2021-0001 linked to the identity debian/openssl/1.1.1, the scan finds the
 * Debian package openssl at version `1.1.1-1+deb`, and the package lookup,
 * after version cleaning, returns exactly that CVE once.
 */
module EndToEnd {
  import opened Wrappers
  import opened Text
  import opened Store
  import opened Domain
  import opened CveAdapter
  import opened Syft

  const Cve := "CVE-2021-0001"

  /** The stored identity: an application, vendor debian, product openssl, version 1.1.1. */
  const OpensslIdentity := Cpe(Some("a"), Some("debian"), Some("openssl"), Some("1.1.1"),
                               None, None, None, None, None, None)

  /** The store: one CVE row, one identity row, one link between them. */
  const Stored := Tables(
    map[Cve := VulnRow(1, "example", None, Some("HIGH"), None, None)],
    map[OpensslIdentity := 1],
    {Link(1, 1)})

  /** The scanned artifact: a dpkg entry without CPEs, in the image's only layer. */
  const OpensslArtifact := Artifact(Some("deb"), Some("openssl"), Some("1.1.1-1+deb"),
                                    [Location(Some("/usr/share/doc/openssl/copyright"), Some("sha256:01"))], [])

  /** The package the scanner reports for it. */
  const OpensslPackage := Package("openssl", "1.1.1-1+deb", "debian", "openssl", "sha256:01", 0)

  /** With OS name `debian`, the artifact becomes the package: vendor from the OS, product from the name. */
  lemma ScanFindsOpenssl()
    ensures Classified([OpensslArtifact], LayerIndex([Layer(Some("sha256:01"))]), "debian") == Ok(([OpensslPackage], []))
  {
    var layers := [Layer(Some("sha256:01"))];
    LayerIndexStep(layers, 0);
    assert layers[..0] == [] && layers[..1] == layers;
    var m := LayerIndex(layers);
    ClassifyOpenssl(m);
    var arts := [OpensslArtifact];
    ClassifiedStep(arts, m, "debian", 0);
    assert arts[..0] == [] && arts[..1] == arts;
    assert Classified(arts[..0], m, "debian") == Ok(([], []));
    assert [] + [OpensslPackage] == [OpensslPackage];
  }

  lemma ClassifyOpenssl(m: map<string, int>)
    requires m == map["sha256:01" := 0]
    ensures Classify(OpensslArtifact, m, "debian") == Ok(AsPackage(OpensslPackage))
  {
    var a := OpensslArtifact;
    assert Eligible(a) && IsOsPackageType(a.kind);
    assert CpeNames(a) == (None, None);
    DebianWord();
    assert a.locations[0].layerId.GetOr("unknown") == "sha256:01";
    assert LayerIndexOf(m, "sha256:01") == 0;
  }

  lemma DebianWord()
    ensures Lower("debian") == "debian" && Words("debian") == ["debian"]
  {
    assert forall j :: 0 <= j < |"debian"| ==> !IsSpace("debian"[j]);
    WordsAll("debian");
  }

  /** The store's only identity matches the package's key, so the join has exactly one row. */
  lemma OneRow()
    ensures PackageRows(Stored, PackageKeys([OpensslPackage])) == {(Cve, OpensslIdentity)}
  {
    CleanedVersion();
    var ps := [OpensslPackage];
    var rows := PackageRows(Stored, PackageKeys(ps));
    assert LinkedRows(Stored, Cve, OpensslIdentity);
    PackageRowsComplete(Stored, ps, 0, Cve, OpensslIdentity);
    forall r | r in rows ensures r == (Cve, OpensslIdentity) {
      assert r.0 in Stored.vulnerabilities && r.1 in Stored.products;
    }
  }

  /** The scanned version `1.1.1-1+deb` cleans to the stored `1.1.1`. */
  lemma CleanedVersion()
    ensures CleanVersion("1.1.1-1+deb") == "1.1.1"
  {
    CleanVersionAt("1.1.1", '-', "1+deb");
    assert "1.1.1" + ['-'] + "1+deb" == "1.1.1-1+deb";
  }

  /** A listing of a one-row result has that row exactly once. */
  lemma SingleRowListed(t: Tables, row: (string, Cpe), found: seq<Vulnerability>, used: seq<(string, Cpe)>)
    requires ListsRows(t, {row}, found, used)
    ensures |found| == 1 && used == [row] && found[0] == RowVulnerability(t, row)
  {
    assert used[0] in {row};
  }

  /** The stored row, as `find_package_vulnerabilities` reports it. */
  lemma StoredRowReported()
    ensures RowVulnerability(Stored, (Cve, OpensslIdentity)) == Vulnerability(Cve, "openssl", "1.1.1", Some("HIGH"))
  {
  }

  /** The adapter's environment: database, user and password set, host and port left to their defaults. */
  const Env := DbEnv(None, None, Some("cves"), Some("scanner"), Some("secret"))

  /**
   * The lookup for the scanned package: exactly one match, for CVE-2021-0001,
   * carrying the stored product and version and the stored v3.1 severity.
   */
  method ScenarioLookup() returns (found: seq<Vulnerability>)
    ensures found == [Vulnerability(Cve, "openssl", "1.1.1", Some("HIGH"))]
  {
    assert Configured(Env);
    OneRow();
    ghost var used;
    found, used := FindPackageVulnerabilities(Env, Some(Stored), [OpensslPackage]);
    SingleRowListed(Stored, (Cve, OpensslIdentity), found, used);
    StoredRowReported();
  }
}
