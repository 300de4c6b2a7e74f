/** One bundle's build (build/build.js `buildBundle`): render the source
    license, create the staging root `deploy/<name>.<license>`, deploy
    scripts, styles, licenses and examples into it, archive it to
    `release/<name>.<VERSION>.<license>.zip` and copy the archive to its
    "latest" name. `zip` is asynchronous in the script; its callback (the
    copy, then the continuation) runs after the archive is written, which the
    model states as plain sequencing. */
module BundleBuild {
  import opened Wrappers
  import opened Strings
  import opened FileTree
  import opened Config
  import opened Env
  import opened Styles
  import opened Scripts
  import opened Licenses
  import opened Examples

  /** The steps of a bundle, in the order the script runs them. */
  datatype Step = ScriptStep | StyleStep | LicenseStep | ExampleStep | ZipStep | LatestStep

  const Steps: seq<Step> := [ScriptStep, StyleStep, LicenseStep, ExampleStep, ZipStep, LatestStep]

  /** A built bundle's tree, or the steps that completed before the failure
      that ended the process. The tree an aborted process leaves behind is
      not modelled. */
  datatype BundleRun = Built(fs: Fs) | Failed(done: seq<Step>, failure: Failure)

  const SrcLicensePath := Join(LegalRoot, SrcLicense)

  /** `template(readText(<legal>/src-license.txt))({ version, year })`. */
  function SourceLicense(env: Env, fs: Fs): (r: Result<string>)
    ensures r.Ok? <==> SrcLicensePath in fs.files
    ensures r.Abort? ==> r.failure == MissingFile(SrcLicensePath)
    ensures r.Ok? ==> r.value == env.render(fs.files[SrcLicensePath], LicenseParams(env.version, env.year))
  {
    var text :- Read(fs, SrcLicensePath);
    Ok(env.render(text, LicenseParams(env.version, env.year)))
  }

  /** `mkdir(root)`, then scripts, styles, licenses and examples. On
      success the example site stands in the staging root: its directory,
      its index and every suite index. */
  function DeploySteps(env: Env, fs: Fs, b: Bundle, license: string): (r: Result<Fs>)
    ensures r.Ok? ==> ExamplesDest(BundleRoot(b)) in r.value.dirs
    ensures r.Ok? ==> Join(ExamplesDest(BundleRoot(b)), IndexPage) in r.value.files
    ensures r.Ok? ==> forall i :: 0 <= i < |b.suites| ==>
              && SuiteDest(ExamplesDest(BundleRoot(b)), b.suites[i]) in r.value.dirs
              && Join(SuiteDest(ExamplesDest(BundleRoot(b)), b.suites[i]), IndexPage) in r.value.files
  {
    var root := BundleRoot(b);
    var scripts := DeployScripts(env, Mkdir(fs, root), root, license, b.hasSource);
    var styles := DeployStyles(env, scripts, root, license, b.hasSource);
    var legal := DeployLicenses(styles, root, b);
    DeployExamples(env, legal, root, b)
  }

  /** `zip(packageName, root, ...)`, and in its callback
      `copyFileSync(packageName, packageNameLatest)`. */
  function Package(env: Env, fs: Fs, b: Bundle): (r: Fs)
    ensures PackageName(b, env.version) in r.files && LatestName(b, env.version) in r.files
    ensures r.files[LatestName(b, env.version)] == r.files[PackageName(b, env.version)]
            == env.archive(Subtree(fs.files, BundleRoot(b)))
    ensures forall p :: !AtOrUnder(p, PackageName(b, env.version)) && !AtOrUnder(p, LatestName(b, env.version)) ==>
              Unchanged(fs, r, p)
    ensures fs.files.Keys <= r.files.Keys && r.dirs == fs.dirs
  {
    var pkg := PackageName(b, env.version);
    var latest := LatestName(b, env.version);
    var zipped := Write(fs, pkg, env.archive(Subtree(fs.files, BundleRoot(b))));
    var r := Write(zipped, latest, zipped.files[pkg]);
    PackageSteps(fs, zipped, r, pkg, latest, env.archive(Subtree(fs.files, BundleRoot(b))));
    r
  }

  lemma PackageSteps(fs: Fs, zipped: Fs, r: Fs, pkg: Path, latest: Path, text: string)
    requires zipped == Write(fs, pkg, text) && r == Write(zipped, latest, zipped.files[pkg])
    ensures pkg in r.files && latest in r.files && r.files[latest] == r.files[pkg] == text
    ensures forall p :: !AtOrUnder(p, pkg) && !AtOrUnder(p, latest) ==> Unchanged(fs, r, p)
    ensures fs.files.Keys <= r.files.Keys && r.dirs == fs.dirs
  {
    assert r.files == fs.files[pkg := text][latest := text];
  }

  /** `buildBundle(bundle, success)` up to the call of `success`. */
  function BuildBundle(env: Env, fs: Fs, b: Bundle): (r: BundleRun)
    ensures r.Failed? ==> r.done == [] || r.done == Steps[..3]
    ensures r.Failed? && r.done == [] <==> SrcLicensePath !in fs.files
    ensures r.Failed? && r.done == [] ==> r.failure == MissingFile(SrcLicensePath)
  {
    match SourceLicense(env, fs)
    case Abort(f) => Failed([], f)
    case Ok(license) =>
      match DeploySteps(env, fs, b, license)
      case Abort(f) => Failed(Steps[..3], f)
      case Ok(staged) => Built(Package(env, staged, b))
  }

  // ---------------------------------------------------------------------------
  // Where a bundle writes

  /** The directory names inside a staging root are plain and distinct. */
  lemma StagingNames()
    ensures '/' !in SourceDir && '/' !in ScriptsDir && '/' !in StylesDir
    ensures '/' !in LegalDir && '/' !in ExamplesDir
    ensures SourceDir != ScriptsDir && SourceDir != StylesDir && SourceDir != LegalDir && SourceDir != ExamplesDir
    ensures StylesDir != LegalDir && StylesDir != ExamplesDir
  {
  }

  /** Both archives lie below `release`, or for a version found at the very
      start of the archive path below `latest...`; either way outside
      `deploy`. */
  lemma ArchivesOutsideDeploy(b: Bundle, version: string)
    ensures !AtOrUnder(PackageName(b, version), DeployRoot)
    ensures !AtOrUnder(LatestName(b, version), DeployRoot)
  {
    var s := PackageName(b, version);
    assert s[0] == 'r';
    OutsideDeploy(s, 0);
    var r := LatestName(b, version);
    match IndexOf(s, version)
    case None =>
    case Some(i) =>
      assert FirstOccurrence(s, version, i);
      assert r == s[..i] + Latest + s[i + |version|..];
      if i == 0 {
        assert r[0] == 'l';
      } else {
        assert r[0] == s[0];
      }
      OutsideDeploy(r, 0);
  }

  /** The later steps write below `LicenseAgreements` and `examples`, so
      they keep what the earlier ones put below `source` or `styles`. */
  lemma LaterStepsKeep(s2: Fs, s3: Fs, s4: Fs, root: Path, x: string, p: Path)
    requires x == SourceDir || x == StylesDir
    requires AtOrUnder(p, Join(root, x))
    requires Confined(s2, s3, LegalDest(root)) && Confined(s3, s4, ExamplesDest(root))
    ensures Unchanged(s2, s4, p)
  {
    StagingNames();
    SiblingsApart(root, x, LegalDir, p);
    SiblingsApart(root, x, ExamplesDir, p);
  }

  /** Each step stays inside the staging root, so the whole run does. */
  lemma ChainConfined(fs: Fs, m: Fs, s1: Fs, s2: Fs, s3: Fs, s4: Fs, root: Path)
    requires Confined(fs, m, root) && Confined(m, s1, root) && Confined(s1, s2, root)
    requires Confined(s2, s3, LegalDest(root)) && Confined(s3, s4, ExamplesDest(root))
    ensures Confined(fs, s4, root)
  {
    ChildUnder(root, LegalDir);
    ChildUnder(root, ExamplesDir);
    ConfinedWiden(s2, s3, LegalDest(root), root);
    ConfinedWiden(s3, s4, ExamplesDest(root), root);
    ConfinedTrans(fs, m, s1, root);
    ConfinedTrans(fs, s1, s2, root);
    ConfinedTrans(fs, s2, s3, root);
    ConfinedTrans(fs, s3, s4, root);
  }

  /** The source directories made by the scripts and styles steps survive
      to the end. */
  lemma ChainSourceDirs(s1: Fs, s2: Fs, s3: Fs, s4: Fs, root: Path)
    requires SourceScriptsDest(root) in s1.dirs
    requires Join(root, SourceDir) in s2.dirs && SourceStylesDest(root) in s2.dirs
    requires forall p :: !AtOrUnder(p, StylesDest(root)) && !AtOrUnder(p, SourceStylesDest(root)) && p != Join(root, SourceDir)
               ==> Unchanged(s1, s2, p)
    requires Confined(s2, s3, LegalDest(root)) && Confined(s3, s4, ExamplesDest(root))
    ensures Join(root, SourceDir) in s4.dirs && SourceScriptsDest(root) in s4.dirs && SourceStylesDest(root) in s4.dirs
  {
    var sourceRoot := Join(root, SourceDir);
    StagingNames();
    ChildUnder(sourceRoot, ScriptsDir);
    ChildUnder(sourceRoot, StylesDir);
    SiblingsApart(sourceRoot, ScriptsDir, StylesDir, SourceScriptsDest(root));
    SiblingsApart(root, SourceDir, StylesDir, SourceScriptsDest(root));
    RelJoin(sourceRoot, ScriptsDir);
    assert Unchanged(s1, s2, SourceScriptsDest(root));
    ChildUnder(root, SourceDir);
    UnderTrans(SourceScriptsDest(root), sourceRoot, root);
    UnderTrans(SourceStylesDest(root), sourceRoot, root);
    assert AtOrUnder(sourceRoot, sourceRoot);
    LaterStepsKeep(s2, s3, s4, root, SourceDir, sourceRoot);
    LaterStepsKeep(s2, s3, s4, root, SourceDir, SourceScriptsDest(root));
    LaterStepsKeep(s2, s3, s4, root, SourceDir, SourceStylesDest(root));
  }

  /** Without source, the scripts step writes only below `js` and the styles
      step only below `styles`: nothing below `source` changes. */
  lemma ChainNoSource(fs: Fs, m: Fs, s1: Fs, s2: Fs, s3: Fs, s4: Fs, root: Path, p: Path)
    requires m == Mkdir(fs, root)
    requires Confined(m, s1, ScriptsDest(root)) && Confined(s1, s2, StylesDest(root))
    requires Confined(s2, s3, LegalDest(root)) && Confined(s3, s4, ExamplesDest(root))
    requires AtOrUnder(p, Join(root, SourceDir))
    ensures Unchanged(fs, s4, p)
  {
    StagingNames();
    assert p != root by {
      RelJoin(root, SourceDir);
    }
    SiblingsApart(root, SourceDir, ScriptsDir, p);
    SiblingsApart(root, SourceDir, StylesDir, p);
    LaterStepsKeep(s2, s3, s4, root, SourceDir, p);
  }

  /** A `mobile` directory left empty by the styles step stays empty. */
  lemma ChainVacant(s2: Fs, s3: Fs, s4: Fs, root: Path, d: Path)
    requires d == Join(StylesDest(root), MobileDir) || d == Join(SourceStylesDest(root), MobileDir)
    requires Vacant(s2, d)
    requires Confined(s2, s3, LegalDest(root)) && Confined(s3, s4, ExamplesDest(root))
    ensures Vacant(s4, d)
  {
    forall p | AtOrUnder(p, d)
      ensures p !in s4.files && p !in s4.dirs
    {
      ChildUnder(StylesDest(root), MobileDir);
      ChildUnder(SourceStylesDest(root), MobileDir);
      ChildUnder(Join(root, SourceDir), StylesDir);
      if d == Join(StylesDest(root), MobileDir) {
        UnderTrans(p, d, StylesDest(root));
        LaterStepsKeep(s2, s3, s4, root, StylesDir, p);
      } else {
        UnderTrans(p, d, SourceStylesDest(root));
        UnderTrans(p, SourceStylesDest(root), Join(root, SourceDir));
        LaterStepsKeep(s2, s3, s4, root, SourceDir, p);
      }
    }
  }

  /** What the four deploy steps leave in a successful run: changes only
      inside the staging root, the source directories exactly when the
      bundle ships source, and no `mobile` styles. */
  lemma Staging(env: Env, fs: Fs, b: Bundle, license: string) returns (staged: Fs)
    requires PlainRoot(BundleRoot(b))
    requires DeploySteps(env, fs, b, license).Ok?
    ensures staged == DeploySteps(env, fs, b, license).value
    ensures Confined(fs, staged, BundleRoot(b))
    ensures b.hasSource ==> && Join(BundleRoot(b), SourceDir) in staged.dirs
                            && SourceScriptsDest(BundleRoot(b)) in staged.dirs
                            && SourceStylesDest(BundleRoot(b)) in staged.dirs
    ensures !b.hasSource ==> forall p :: AtOrUnder(p, Join(BundleRoot(b), SourceDir)) ==> Unchanged(fs, staged, p)
    ensures Vacant(staged, Join(StylesDest(BundleRoot(b)), MobileDir))
    ensures b.hasSource ==> Vacant(staged, Join(SourceStylesDest(BundleRoot(b)), MobileDir))
  {
    var root := BundleRoot(b);
    var m := Mkdir(fs, root);
    var s1 := DeployScripts(env, m, root, license, b.hasSource);
    var s2 := DeployStyles(env, s1, root, license, b.hasSource);
    var s3 := DeployLicenses(s2, root, b);
    staged := DeployExamples(env, s3, root, b).value;
    ChainConfined(fs, m, s1, s2, s3, staged, root);
    ChainVacant(s2, s3, staged, root, Join(StylesDest(root), MobileDir));
    if b.hasSource {
      ChainSourceDirs(s1, s2, s3, staged, root);
      ChainVacant(s2, s3, staged, root, Join(SourceStylesDest(root), MobileDir));
    } else {
      forall p | AtOrUnder(p, Join(root, SourceDir))
        ensures Unchanged(fs, staged, p)
      {
        ChainNoSource(fs, m, s1, s2, s3, staged, root, p);
      }
    }
  }

  // ---------------------------------------------------------------------------
  // What a built bundle leaves behind

  /** The packaging steps keep everything below the staging root. */
  lemma PackageKeepsRoot(env: Env, fs: Fs, b: Bundle, p: Path)
    requires AtOrUnder(p, BundleRoot(b))
    ensures Unchanged(fs, Package(env, fs, b), p)
  {
    ArchivesOutsideDeploy(b, env.version);
    RelJoin(DeployRoot, b.name + "." + b.license);
    if p == PackageName(b, env.version) {
      UnderTrans(p, BundleRoot(b), DeployRoot);
    }
    if p == LatestName(b, env.version) {
      UnderTrans(p, BundleRoot(b), DeployRoot);
    }
  }

  /** A built bundle's tree is the packaging of the staged tree. */
  lemma BuiltFromStaged(env: Env, fs: Fs, b: Bundle) returns (staged: Fs)
    requires PlainRoot(BundleRoot(b))
    requires BuildBundle(env, fs, b).Built?
    ensures SourceLicense(env, fs).Ok? && DeploySteps(env, fs, b, SourceLicense(env, fs).value).Ok?
    ensures staged == DeploySteps(env, fs, b, SourceLicense(env, fs).value).value
    ensures BuildBundle(env, fs, b).fs == Package(env, staged, b)
    ensures Confined(fs, staged, BundleRoot(b))
    ensures b.hasSource ==> && Join(BundleRoot(b), SourceDir) in staged.dirs
                            && SourceScriptsDest(BundleRoot(b)) in staged.dirs
                            && SourceStylesDest(BundleRoot(b)) in staged.dirs
    ensures !b.hasSource ==> forall p :: AtOrUnder(p, Join(BundleRoot(b), SourceDir)) ==> Unchanged(fs, staged, p)
    ensures Vacant(staged, Join(StylesDest(BundleRoot(b)), MobileDir))
    ensures b.hasSource ==> Vacant(staged, Join(SourceStylesDest(BundleRoot(b)), MobileDir))
  {
    staged := Staging(env, fs, b, SourceLicense(env, fs).value);
  }

  /** Packaging leaves the staging root, and so what the archive sees of
      it, as it was. */
  lemma PackageKeepsSubtree(env: Env, staged: Fs, b: Bundle)
    ensures Subtree(Package(env, staged, b).files, BundleRoot(b)) == Subtree(staged.files, BundleRoot(b))
  {
    var r := Package(env, staged, b);
    forall rel
      ensures (rel in Subtree(r.files, BundleRoot(b)) <==> rel in Subtree(staged.files, BundleRoot(b)))
      ensures rel in Subtree(r.files, BundleRoot(b)) ==>
                Subtree(r.files, BundleRoot(b))[rel] == Subtree(staged.files, BundleRoot(b))[rel]
    {
      ChildUnder(BundleRoot(b), rel);
      PackageKeepsRoot(env, staged, b, Join(BundleRoot(b), rel));
    }
  }

  lemma FrameCompose(fs: Fs, staged: Fs, r: Fs, root: Path, pkg: Path, latest: Path)
    requires Confined(fs, staged, root)
    requires forall p :: !AtOrUnder(p, pkg) && !AtOrUnder(p, latest) ==> Unchanged(staged, r, p)
    ensures forall p :: !AtOrUnder(p, root) && !AtOrUnder(p, pkg) && !AtOrUnder(p, latest) ==> Unchanged(fs, r, p)
  {
  }

  /** A built bundle changed nothing outside its staging root but its two
      archives; both archives hold the archive of the staging root as it
      finally stands. */
  lemma BundleConfined(env: Env, fs: Fs, b: Bundle)
    requires PlainRoot(BundleRoot(b))
    ensures BuildBundle(env, fs, b).Built? ==>
      var r := BuildBundle(env, fs, b).fs;
      && (forall p ::
            !AtOrUnder(p, BundleRoot(b)) && !AtOrUnder(p, PackageName(b, env.version)) && !AtOrUnder(p, LatestName(b, env.version))
            ==> Unchanged(fs, r, p))
      && PackageName(b, env.version) in r.files && LatestName(b, env.version) in r.files
      && r.files[PackageName(b, env.version)] == r.files[LatestName(b, env.version)]
         == env.archive(Subtree(r.files, BundleRoot(b)))
  {
    if BuildBundle(env, fs, b).Built? {
      var staged := BuiltFromStaged(env, fs, b);
      PackageKeepsSubtree(env, staged, b);
      FrameCompose(fs, staged, Package(env, staged, b), BundleRoot(b), PackageName(b, env.version), LatestName(b, env.version));
    }
  }

  /** The source policy: with source, the bundle has `source`, `source/js`
      and `source/styles`; without, nothing below `source` exists, provided
      the staging root started empty. */
  lemma BundleSourcePolicy(env: Env, fs: Fs, b: Bundle, p: Path)
    requires PlainRoot(BundleRoot(b))
    requires BuildBundle(env, fs, b).Built?
    ensures var r := BuildBundle(env, fs, b).fs;
      b.hasSource ==> Join(BundleRoot(b), SourceDir) in r.dirs
                      && SourceScriptsDest(BundleRoot(b)) in r.dirs && SourceStylesDest(BundleRoot(b)) in r.dirs
    ensures var r := BuildBundle(env, fs, b).fs;
      !b.hasSource && Vacant(fs, BundleRoot(b)) && AtOrUnder(p, Join(BundleRoot(b), SourceDir)) ==>
        p !in r.files && p !in r.dirs
  {
    var root := BundleRoot(b);
    var staged := BuiltFromStaged(env, fs, b);
    ChildUnder(root, SourceDir);
    ChildUnder(Join(root, SourceDir), ScriptsDir);
    ChildUnder(Join(root, SourceDir), StylesDir);
    if b.hasSource {
      UnderTrans(SourceScriptsDest(root), Join(root, SourceDir), root);
      UnderTrans(SourceStylesDest(root), Join(root, SourceDir), root);
      PackageKeepsRoot(env, staged, b, Join(root, SourceDir));
      PackageKeepsRoot(env, staged, b, SourceScriptsDest(root));
      PackageKeepsRoot(env, staged, b, SourceStylesDest(root));
    } else if Vacant(fs, root) && AtOrUnder(p, Join(root, SourceDir)) {
      UnderTrans(p, Join(root, SourceDir), root);
      assert Unchanged(fs, staged, p);
      PackageKeepsRoot(env, staged, b, p);
    }
  }

  /** A built bundle holds no `mobile` styles. */
  lemma BundleWithoutMobile(env: Env, fs: Fs, b: Bundle, p: Path)
    requires PlainRoot(BundleRoot(b))
    requires BuildBundle(env, fs, b).Built?
    requires AtOrUnder(p, Join(StylesDest(BundleRoot(b)), MobileDir))
             || (b.hasSource && AtOrUnder(p, Join(SourceStylesDest(BundleRoot(b)), MobileDir)))
    ensures p !in BuildBundle(env, fs, b).fs.files && p !in BuildBundle(env, fs, b).fs.dirs
  {
    var root := BundleRoot(b);
    var staged := BuiltFromStaged(env, fs, b);
    ChildUnder(root, StylesDir);
    ChildUnder(root, SourceDir);
    ChildUnder(StylesDest(root), MobileDir);
    ChildUnder(Join(root, SourceDir), StylesDir);
    ChildUnder(SourceStylesDest(root), MobileDir);
    if AtOrUnder(p, Join(StylesDest(root), MobileDir)) {
      UnderTrans(p, Join(StylesDest(root), MobileDir), StylesDest(root));
      UnderTrans(p, StylesDest(root), root);
    } else {
      UnderTrans(p, Join(SourceStylesDest(root), MobileDir), SourceStylesDest(root));
      UnderTrans(p, SourceStylesDest(root), Join(root, SourceDir));
      UnderTrans(p, Join(root, SourceDir), root);
    }
    PackageKeepsRoot(env, staged, b, p);
  }

  /** A built bundle removes no file outside its staging root; in
      particular the inputs and every earlier archive stay. */
  lemma BundleKeepsFiles(env: Env, fs: Fs, b: Bundle, p: Path)
    requires PlainRoot(BundleRoot(b))
    requires BuildBundle(env, fs, b).Built?
    requires p in fs.files && !AtOrUnder(p, BundleRoot(b))
    ensures p in BuildBundle(env, fs, b).fs.files
  {
    var staged := BuiltFromStaged(env, fs, b);
    assert p in staged.files;
  }

  /** A path outside `deploy` and apart from the bundle's archives reaches
      the end of a built bundle unchanged. */
  lemma BundleKeepsInput(env: Env, fs: Fs, b: Bundle, p: Path)
    requires PlainRoot(BundleRoot(b))
    requires BuildBundle(env, fs, b).Built?
    requires !AtOrUnder(p, DeployRoot)
    requires !AtOrUnder(p, PackageName(b, env.version)) && !AtOrUnder(p, LatestName(b, env.version))
    ensures Unchanged(fs, BuildBundle(env, fs, b).fs, p)
  {
    ChildUnder(DeployRoot, b.name + "." + b.license);
    OutsideStaging(p, BundleRoot(b));
    BundleConfined(env, fs, b);
  }

  /** The source license `resources/legal/src-license.txt` is neither of a
      bundle's archives nor below them: `resources` and `release` part at
      their third character, and the "latest" name keeps or replaces the
      archive name's first characters. */
  lemma LicenseApartFromArchives(b: Bundle, version: string)
    ensures !AtOrUnder(SrcLicensePath, PackageName(b, version))
    ensures !AtOrUnder(SrcLicensePath, LatestName(b, version))
  {
    var p := SrcLicensePath;
    var s := PackageName(b, version);
    assert p[2] == 's' && p[1] == 'e' && p[0] == 'r';
    assert s[0] == 'r' && s[1] == 'e' && s[2] == 'l';
    PrefixApart(p, s, 2);
    var r := LatestName(b, version);
    match IndexOf(s, version)
    case None =>
    case Some(i) =>
      assert FirstOccurrence(s, version, i);
      assert r == s[..i] + Latest + s[i + |version|..];
      if i == 0 {
        assert r[0] == 'l';
        PrefixApart(p, r, 0);
      } else if i == 1 {
        assert r[1] == 'l';
        PrefixApart(p, r, 1);
      } else {
        assert r[2] == 'l';
        PrefixApart(p, r, 2);
      }
  }

  /** A path that differs from `dir` at a position inside `dir` is neither
      `dir` nor below it. */
  lemma PrefixApart(p: Path, dir: Path, k: nat)
    requires k < |dir| && k < |p| && p[k] != dir[k]
    ensures !AtOrUnder(p, dir)
  {
  }
}
