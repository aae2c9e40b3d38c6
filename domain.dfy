/** The records the analyser passes between its parts (src/core/domain.py). */
module Domain {
  import opened Wrappers

  /** A package found by the scanner, after vendor/product normalisation. */
  datatype Package = Package(
    name: string,
    version: string,
    vendor: string,
    product: string,
    layerId: string,
    layerIndex: int)

  /** An executable that no package manager owns; reported, never correlated. */
  datatype Binary = Binary(path: string, layerId: string, layerIndex: int)

  /** One match of a stored vulnerability against a scanned component. */
  datatype Vulnerability = Vulnerability(
    cveId: string,
    packageName: string,
    packageVersion: string,
    severity: Option<string>)

  /** The inventory (SBOM) of one image. */
  datatype AssetReport = AssetReport(
    imageName: string,
    osName: string,
    osVersion: string,
    packages: seq<Package>,
    nonPackageBinaries: seq<Binary>)

  /** The findings for one image: the OS matches flat, the package matches by name and version. */
  datatype VulnerabilityReport = VulnerabilityReport(
    imageName: string,
    osVulnerabilities: seq<Vulnerability>,
    packageVulnerabilities: map<string, map<string, seq<Vulnerability>>>)
}
