/** The build's configuration: the bundle list, the fixed directory names,
    and how a bundle's staging root and archive names are derived
    (build/build.js, configuration and `buildBundle`). */
module Config {
  import opened Strings
  import opened FileTree

  /** One licensed distribution variant. */
  datatype Bundle = Bundle(
    name: string,
    suites: seq<string>,
    license: string,
    eula: string,
    hasSource: bool)

  /** The configured bundles, in build order. */
  const Bundles: seq<Bundle> := [
    Bundle("kendoui.web-dataviz", ["web", "dataviz"], "commercial", "eula", true),
    Bundle("kendoui.web-dataviz", ["web", "dataviz"], "trial", "eula", false),
    Bundle("kendoui.web-dataviz", ["web", "dataviz"], "open-source", "eula", true)
  ]

  const Latest := "latest"
  const IndexPage := "index.html"
  const ScriptsRoot := "src"
  const StylesRoot := "styles"
  const DemosRoot := Join("demos", "mvc")
  const TemplatesRoot := Join("build", "templates")
  const SuiteIndexTemplate := Join(TemplatesRoot, "suite-index.html")
  const BundleIndexTemplate := Join(TemplatesRoot, "bundle-index.html")
  const ExampleTemplate := Join(TemplatesRoot, "example.html")
  const ContentRoot := "content"
  const ViewsRoot := "Views"
  const LegalRoot := Join("resources", "legal")
  const SrcLicense := "src-license.txt"
  const ThirdPartyRoot := "third-party"
  const DropLocation := "release"
  const DeployRoot := "deploy"
  const MobileDir := "mobile"
  const AppDataDir := "App_Data"

  // Directories inside a bundle's staging root
  const SourceDir := "source"
  const ScriptsDir := "js"
  const StylesDir := "styles"
  const ExamplesDir := "examples"
  const LegalDir := "LicenseAgreements"
  const ThirdPartyDir := "ThirdParty"

  /** `name + "." + VERSION + "." + license`: the name, the version and the
      license can be read back from their positions. */
  function DeployName(b: Bundle, version: string): (r: string)
    ensures |r| == |b.name| + |version| + |b.license| + 2
    ensures r[..|b.name|] == b.name && r[|b.name|] == '.'
    ensures r[|b.name| + 1..|b.name| + 1 + |version|] == version && r[|b.name| + 1 + |version|] == '.'
    ensures r[|b.name| + |version| + 2..] == b.license
  {
    b.name + "." + version + "." + b.license
  }

  /** The bundle's staging directory `deploy/<name>.<license>`. */
  function BundleRoot(b: Bundle): (r: Path)
    ensures Under(r, DeployRoot)
    ensures Rel(r, DeployRoot) == b.name + "." + b.license
  {
    Join(DeployRoot, b.name + "." + b.license)
  }

  /** The versioned archive `release/<name>.<VERSION>.<license>.zip`. */
  function PackageName(b: Bundle, version: string): (r: Path)
    ensures Under(r, DropLocation)
    ensures Rel(r, DropLocation) == DeployName(b, version) + ".zip"
    ensures EndsWith(r, ".zip")
  {
    Join(DropLocation, DeployName(b, version) + ".zip")
  }

  /** `packageName.replace(VERSION, LATEST)`: only the first occurrence of
      the version text is replaced. */
  function LatestName(b: Bundle, version: string): (r: Path)
    ensures !Contains(PackageName(b, version), version) ==> r == PackageName(b, version)
    ensures forall i :: FirstOccurrence(PackageName(b, version), version, i) ==>
              r == PackageName(b, version)[..i] + Latest + PackageName(b, version)[i + |version|..]
  {
    ReplaceFirst(PackageName(b, version), version, Latest)
  }

  // ---------------------------------------------------------------------------
  // Properties of the names

  /** The archive name determines the license for a fixed bundle name and
      version, so bundles that differ in license never share an archive. */
  lemma PackageNameInjective(b1: Bundle, b2: Bundle, version: string)
    requires b1.name == b2.name
    requires PackageName(b1, version) == PackageName(b2, version)
    ensures b1.license == b2.license
  {
    var head := DropLocation + "/" + b1.name + "." + version + ".";
    var p1 := PackageName(b1, version);
    var p2 := PackageName(b2, version);
    assert p1 == head + b1.license + ".zip";
    assert p2 == head + b2.license + ".zip";
    assert b1.license == p1[|head|..|p1| - 4];
    assert b2.license == p2[|head|..|p2| - 4];
  }

  /** The "latest" archive is the versioned name with the version replaced
      by `latest`, provided the version's first character does not appear
      earlier in the name (so no earlier occurrence of the version text
      exists; one may start inside the bundle name and run on into the
      version itself, which is why a condition on the name alone is not
      enough). */
  lemma LatestNameShape(b: Bundle, version: string)
    requires |version| > 0 && version[0] !in DropLocation + "/" + b.name + "."
    ensures LatestName(b, version) == DropLocation + "/" + b.name + "." + Latest + "." + b.license + ".zip"
  {
    var head := DropLocation + "/" + b.name + ".";
    var rest := "." + b.license + ".zip";
    var s := PackageName(b, version);
    assert s == head + (version + rest);
    assert (version + rest)[..|version|] == version;
    FirstOccurrenceAfterHeadless(head, version + rest, version);
    assert s[..|head|] == head;
    assert s[|head| + |version|..] == rest;
    assert FirstOccurrence(s, version, |head|);
    var r := LatestName(b, version);
    assert r == s[..|head|] + Latest + s[|head| + |version|..];
    var x := head + Latest;
    ConcatAssoc(x, "." + b.license, ".zip");
    ConcatAssoc(x, ".", b.license);
  }

  /** The condition cannot be weakened to "the version occurs neither in
      `release/` nor in the name": for the name `k1` and the version `1.1`
      the version text first occurs at the name's `1`, so the replacement
      eats into the name. */
  lemma LatestNameEarlyMatch(b: Bundle)
    requires b == Bundle("k1", [], "commercial", "eula", true)
    ensures !Contains(DropLocation + "/", "1.1") && !Contains(b.name, "1.1")
    ensures LatestName(b, "1.1") == DropLocation + "/k" + Latest + ".1.commercial.zip"
  {
    AbsentWithoutChar(DropLocation + "/", "1.1", 0);
    var s := EarlyMatchAt(b);
    var r := LatestName(b, "1.1");
    assert r == s[..9] + Latest + s[12..];
  }

  /** In `release/k1.1.1.commercial.zip` the text `1.1` first occurs at the
      name's `1`. */
  lemma EarlyMatchAt(b: Bundle) returns (s: Path)
    requires b == Bundle("k1", [], "commercial", "eula", true)
    ensures s == PackageName(b, "1.1") && FirstOccurrence(s, "1.1", 9)
    ensures s[..9] == DropLocation + "/k" && s[12..] == ".1.commercial.zip"
  {
    EarlyMatchName(b);
    s := EarlyMatchText();
  }

  /** The literal facts behind `EarlyMatchAt`. */
  lemma EarlyMatchText() returns (s: Path)
    ensures s == "release/k1.1.1.commercial.zip" && FirstOccurrence(s, "1.1", 9)
    ensures s[..9] == DropLocation + "/k" && s[12..] == ".1.commercial.zip"
  {
    s := "release/k1.1.1.commercial.zip";
    assert OccursAt(s, "1.1", 9);
    forall j | 0 <= j < 9
      ensures !OccursAt(s, "1.1", j)
    {
      assert s[j] != '1';
    }
  }

  lemma EarlyMatchName(b: Bundle)
    requires b == Bundle("k1", [], "commercial", "eula", true)
    ensures PackageName(b, "1.1") == "release/k1.1.1.commercial.zip"
  {
    assert DeployName(b, "1.1") == "k1.1.1.commercial";
  }

  /** A path that differs from `deploy/` at some position lies outside
      `deploy`. */
  lemma OutsideDeploy(p: Path, k: nat)
    requires k <= |DeployRoot| && k < |p| && p[k] != (DeployRoot + "/")[k]
    ensures !AtOrUnder(p, DeployRoot)
  {
    if k < |DeployRoot| {
      assert p[k] != DeployRoot[k];
    }
  }

  /** A path outside `deploy` is outside every directory at or below it. */
  lemma OutsideStaging(p: Path, dir: Path)
    requires AtOrUnder(dir, DeployRoot) && !AtOrUnder(p, DeployRoot)
    ensures !AtOrUnder(p, dir)
  {
    if AtOrUnder(p, dir) {
      UnderTrans(p, dir, DeployRoot);
    }
  }

  /** Nothing below a staging root (which lies below `deploy`) is a path
      outside `deploy`, such as anything below `src`, `styles`, `resources`,
      `build` or `demos`: the bundle steps never write their own inputs. */
  lemma InputOutsideStaging(p: Path, root: Path, sub: Path)
    requires Under(root, DeployRoot)
    requires !AtOrUnder(p, DeployRoot)
    ensures !AtOrUnder(p, Join(root, sub))
  {
    if AtOrUnder(p, Join(root, sub)) {
      ChildUnder(root, sub);
      UnderTrans(p, Join(root, sub), root);
      UnderTrans(p, root, DeployRoot);
    }
  }

  /** For the configured bundles, and any version that starts with a digit,
      the "latest" archive is `release/kendoui.web-dataviz.latest.<license>.zip`. */
  lemma ConfiguredLatestNames(version: string)
    requires |version| > 0 && '0' <= version[0] <= '9'
    ensures forall i :: 0 <= i < |Bundles| ==>
      LatestName(Bundles[i], version)
        == DropLocation + "/" + Bundles[i].name + "." + Latest + "." + Bundles[i].license + ".zip"
  {
    forall i | 0 <= i < |Bundles|
      ensures LatestName(Bundles[i], version)
        == DropLocation + "/" + Bundles[i].name + "." + Latest + "." + Bundles[i].license + ".zip"
    {
      ConfiguredShape(i);
      DigitNotInPrefix(version[0]);
      LatestNameShape(Bundles[i], version);
    }
  }

  /** The configured archive names hold no digit before the version. */
  lemma DigitNotInPrefix(c: char)
    requires '0' <= c <= '9'
    ensures c !in DropLocation + "/" + "kendoui.web-dataviz" + "."
  {
  }

  /** The configured bundles differ pairwise in license, so no path lies at
      or below two of their staging roots, and their archive names are
      pairwise distinct for every version. */
  lemma ConfiguredBundlesIsolated(version: string)
    ensures forall i, j, p :: 0 <= i < j < |Bundles| ==>
      !(AtOrUnder(p, BundleRoot(Bundles[i])) && AtOrUnder(p, BundleRoot(Bundles[j])))
    ensures forall i, j :: 0 <= i < j < |Bundles| ==>
      PackageName(Bundles[i], version) != PackageName(Bundles[j], version)
  {
    forall i, j, p | 0 <= i < j < |Bundles|
      ensures !(AtOrUnder(p, BundleRoot(Bundles[i])) && AtOrUnder(p, BundleRoot(Bundles[j])))
    {
      ConfiguredShape(i);
      ConfiguredShape(j);
      RootsApart(Bundles[i], Bundles[j], p);
    }
    forall i, j | 0 <= i < j < |Bundles|
      ensures PackageName(Bundles[i], version) != PackageName(Bundles[j], version)
    {
      ConfiguredShape(i);
      ConfiguredShape(j);
      if PackageName(Bundles[i], version) == PackageName(Bundles[j], version) {
        PackageNameInjective(Bundles[i], Bundles[j], version);
        assert false;
      }
    }
  }

  /** All configured bundles share one name; their licenses have lengths
      10, 5 and 11; no `<name>.<license>` holds a `/`. */
  lemma ConfiguredShape(i: nat)
    requires i < |Bundles|
    ensures Bundles[i].name == "kendoui.web-dataviz"
    ensures |Bundles[i].license| == [10, 5, 11][i]
    ensures '/' !in Bundles[i].name + "." + Bundles[i].license
  {
  }

  /** Two bundles whose `<name>.<license>` differ and hold no `/` have no
      path in common below their staging roots. */
  lemma RootsApart(b1: Bundle, b2: Bundle, p: Path)
    requires b1.name == b2.name && |b1.license| != |b2.license|
    requires '/' !in b1.name + "." + b1.license && '/' !in b2.name + "." + b2.license
    ensures !(AtOrUnder(p, BundleRoot(b1)) && AtOrUnder(p, BundleRoot(b2)))
  {
    var x := b1.name + "." + b1.license;
    var y := b2.name + "." + b2.license;
    assert |x| != |y|;
    if AtOrUnder(p, BundleRoot(b1)) && AtOrUnder(p, BundleRoot(b2)) {
      SameSibling(DeployRoot, x, y, p);
      assert false;
    }
  }
}
