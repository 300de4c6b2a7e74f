/** License deployment (build/build.js `deployLicenses`): the bundle's
    end-user license agreement and the third-party notices are copied into
    `<root>/LicenseAgreements` and `<root>/LicenseAgreements/ThirdParty`. */
module Licenses {
  import opened FileTree
  import opened Config

  /** `<root>/LicenseAgreements`. */
  function LegalDest(root: Path): Path {
    Join(root, LegalDir)
  }

  /** `<root>/LicenseAgreements/ThirdParty`. */
  function ThirdPartyDest(root: Path): Path {
    Join(LegalDest(root), ThirdPartyDir)
  }

  /** `resources/legal/<eula>`. */
  function EulaSource(b: Bundle): Path {
    Join(LegalRoot, b.eula)
  }

  /** `resources/legal/third-party`. */
  function ThirdPartySource(): Path {
    Join(LegalRoot, ThirdPartyRoot)
  }

  /** `deployLicenses(root, bundle)`: the agreement directory is copied
      first and the third-party notices second, so below `ThirdParty` the
      notices win over same-named files of the agreement directory. */
  function DeployLicenses(fs: Fs, root: Path, b: Bundle): (r: Fs)
    ensures LegalDest(root) in r.dirs && ThirdPartyDest(root) in r.dirs
    ensures Confined(fs, r, LegalDest(root))
    ensures forall rel :: Join(EulaSource(b), rel) in fs.files && !AtOrUnder(rel, ThirdPartyDir) ==>
              && Join(LegalDest(root), rel) in r.files
              && r.files[Join(LegalDest(root), rel)] == fs.files[Join(EulaSource(b), rel)]
    ensures Under(root, DeployRoot) ==>
              forall rel :: Join(ThirdPartySource(), rel) in fs.files ==>
                && Join(ThirdPartyDest(root), rel) in r.files
                && r.files[Join(ThirdPartyDest(root), rel)] == fs.files[Join(ThirdPartySource(), rel)]
  {
    var a := Mkdir(Mkdir(fs, LegalDest(root)), ThirdPartyDest(root));
    var c := CopyAll(a, EulaSource(b), LegalDest(root));
    var r := CopyAll(c, ThirdPartySource(), ThirdPartyDest(root));
    LicensesSteps(fs, a, c, r, root, b);
    r
  }

  lemma LicensesSteps(fs: Fs, a: Fs, c: Fs, r: Fs, root: Path, b: Bundle)
    requires a == Mkdir(Mkdir(fs, LegalDest(root)), ThirdPartyDest(root))
    requires c == CopyAll(a, EulaSource(b), LegalDest(root))
    requires r == CopyAll(c, ThirdPartySource(), ThirdPartyDest(root))
    ensures LegalDest(root) in r.dirs && ThirdPartyDest(root) in r.dirs
    ensures Confined(fs, r, LegalDest(root))
    ensures forall rel :: Join(EulaSource(b), rel) in fs.files && !AtOrUnder(rel, ThirdPartyDir) ==>
              && Join(LegalDest(root), rel) in r.files
              && r.files[Join(LegalDest(root), rel)] == fs.files[Join(EulaSource(b), rel)]
    ensures Under(root, DeployRoot) ==>
              forall rel :: Join(ThirdPartySource(), rel) in fs.files ==>
                && Join(ThirdPartyDest(root), rel) in r.files
                && r.files[Join(ThirdPartyDest(root), rel)] == fs.files[Join(ThirdPartySource(), rel)]
  {
    var legal := LegalDest(root);
    var third := ThirdPartyDest(root);
    ChildUnder(legal, ThirdPartyDir);
    assert Confined(fs, a, legal) by {
      ConfinedWiden(Mkdir(fs, legal), a, third, legal);
      ConfinedTrans(fs, Mkdir(fs, legal), a, legal);
    }
    ConfinedTrans(fs, a, c, legal);
    ConfinedWiden(c, r, third, legal);
    ConfinedTrans(fs, c, r, legal);
    forall rel | Join(EulaSource(b), rel) in fs.files && !AtOrUnder(rel, ThirdPartyDir)
      ensures && Join(legal, rel) in r.files
              && r.files[Join(legal, rel)] == fs.files[Join(EulaSource(b), rel)]
    {
      JoinAtOrUnder(legal, rel, ThirdPartyDir);
      assert Unchanged(c, r, Join(legal, rel));
    }
    if Under(root, DeployRoot) {
      forall rel | Join(ThirdPartySource(), rel) in fs.files
        ensures && Join(third, rel) in r.files
                && r.files[Join(third, rel)] == fs.files[Join(ThirdPartySource(), rel)]
      {
        OutsideDeploy(Join(ThirdPartySource(), rel), 0);
        InputOutsideStaging(Join(ThirdPartySource(), rel), root, LegalDir);
        assert Unchanged(fs, c, Join(ThirdPartySource(), rel));
      }
    }
    assert legal !in {third} by {
      RelJoin(legal, ThirdPartyDir);
    }
  }
}
