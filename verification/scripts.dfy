/** Script deployment (build/build.js `deployScripts`): the script deployer
    writes the minified scripts into `<root>/js`, and, for bundles that ship
    source, the unminified ones into `<root>/source/js`. What the deployer
    produces from the sources is uninterpreted (`Env.scripts`); the model
    fixes where its output lands and what else is touched. */
module Scripts {
  import opened FileTree
  import opened Config
  import opened Env

  /** `<root>/js`. */
  function ScriptsDest(root: Path): Path {
    Join(root, ScriptsDir)
  }

  /** `<root>/source/js`. */
  function SourceScriptsDest(root: Path): Path {
    Join(Join(root, SourceDir), ScriptsDir)
  }

  /** `mkdir(dest)` followed by `kendoScripts.deployScripts(SCRIPTS_ROOT,
      dest, license, minify)`: the deployer's output, keyed relative to
      `dest`, is placed below `dest`. */
  function RunDeployer(env: Env, fs: Fs, dest: Path, license: string, minify: bool): (r: Fs)
    ensures var out := env.scripts(Subtree(fs.files, ScriptsRoot), license, minify);
      forall rel :: rel in out ==> Join(dest, rel) in r.files && r.files[Join(dest, rel)] == out[rel]
    ensures dest in r.dirs
    ensures Confined(fs, r, dest)
  {
    var out := env.scripts(Subtree(fs.files, ScriptsRoot), license, minify);
    var r := Place(Mkdir(fs, dest), dest, out);
    ConfinedTrans(fs, Mkdir(fs, dest), r, dest);
    r
  }

  /** `deployScripts(root, license, copySource)`. */
  function DeployScripts(env: Env, fs: Fs, root: Path, license: string, copySource: bool): (r: Fs)
    ensures var out := env.scripts(Subtree(fs.files, ScriptsRoot), license, true);
      forall rel :: rel in out ==>
        Join(ScriptsDest(root), rel) in r.files && r.files[Join(ScriptsDest(root), rel)] == out[rel]
    ensures ScriptsDest(root) in r.dirs
    ensures copySource ==> Join(root, SourceDir) in r.dirs && SourceScriptsDest(root) in r.dirs
    ensures Confined(fs, r, root)
    ensures !copySource ==> Confined(fs, r, ScriptsDest(root))
  {
    var m := RunDeployer(env, fs, ScriptsDest(root), license, true);
    var r := if copySource then RunDeployer(env, Mkdir(m, Join(root, SourceDir)), SourceScriptsDest(root), license, false)
             else m;
    ScriptsSteps(fs, m, r, root, copySource, env.scripts(Subtree(fs.files, ScriptsRoot), license, true));
    r
  }

  lemma ScriptsSteps(fs: Fs, m: Fs, r: Fs, root: Path, copySource: bool, out: map<Path, string>)
    requires ScriptsDest(root) in m.dirs && Confined(fs, m, ScriptsDest(root))
    requires forall rel :: rel in out ==>
      Join(ScriptsDest(root), rel) in m.files && m.files[Join(ScriptsDest(root), rel)] == out[rel]
    requires copySource ==> SourceScriptsDest(root) in r.dirs
    requires copySource ==> Confined(Mkdir(m, Join(root, SourceDir)), r, SourceScriptsDest(root))
    requires !copySource ==> r == m
    ensures ScriptsDest(root) in r.dirs
    ensures copySource ==> Join(root, SourceDir) in r.dirs && SourceScriptsDest(root) in r.dirs
    ensures Confined(fs, r, root)
    ensures !copySource ==> Confined(fs, r, ScriptsDest(root))
    ensures forall rel :: rel in out ==>
      Join(ScriptsDest(root), rel) in r.files && r.files[Join(ScriptsDest(root), rel)] == out[rel]
  {
    var sourceRoot := Join(root, SourceDir);
    ChildUnder(root, ScriptsDir);
    ChildUnder(root, SourceDir);
    ConfinedWiden(fs, m, ScriptsDest(root), root);
    assert AtOrUnder(ScriptsDest(root), ScriptsDest(root));
    if copySource {
      var k := Mkdir(m, sourceRoot);
      ChildUnder(sourceRoot, ScriptsDir);
      ConfinedWiden(k, r, SourceScriptsDest(root), sourceRoot);
      ConfinedTrans(m, k, r, sourceRoot);
      ConfinedWiden(m, r, sourceRoot, root);
      ConfinedTrans(fs, m, r, root);
      forall p | AtOrUnder(p, ScriptsDest(root))
        ensures Unchanged(m, r, p)
      {
        SiblingsApart(root, ScriptsDir, SourceDir, p);
      }
      forall rel | rel in out
        ensures Unchanged(m, r, Join(ScriptsDest(root), rel))
      {
        ChildUnder(ScriptsDest(root), rel);
      }
      assert sourceRoot in r.dirs by {
        assert !AtOrUnder(sourceRoot, SourceScriptsDest(root)) by {
          RelJoin(sourceRoot, ScriptsDir);
        }
      }
    }
  }

  /** With source, the unminified scripts land below `<root>/source/js`; the
      deployer sees the same sources as the minified run, because the staging
      root lies below `deploy` and never overlaps `src`. */
  lemma SourceScriptsDeployed(env: Env, fs: Fs, root: Path, license: string)
    requires Under(root, DeployRoot)
    ensures var r := DeployScripts(env, fs, root, license, true);
      var out := env.scripts(Subtree(fs.files, ScriptsRoot), license, false);
      forall rel :: rel in out ==>
        Join(SourceScriptsDest(root), rel) in r.files && r.files[Join(SourceScriptsDest(root), rel)] == out[rel]
  {
    var m := RunDeployer(env, fs, ScriptsDest(root), license, true);
    var k := Mkdir(m, Join(root, SourceDir));
    SameSources(fs, m, root);
    assert DeployScripts(env, fs, root, license, true)
        == RunDeployer(env, k, SourceScriptsDest(root), license, false);
  }

  /** Steps confined to the staging root leave the script sources alone. */
  lemma SameSources(fs: Fs, k: Fs, root: Path)
    requires Under(root, DeployRoot)
    requires Confined(fs, k, ScriptsDest(root))
    ensures Subtree(k.files, ScriptsRoot) == Subtree(fs.files, ScriptsRoot)
  {
    forall rel
      ensures Join(ScriptsRoot, rel) in k.files <==> Join(ScriptsRoot, rel) in fs.files
      ensures Join(ScriptsRoot, rel) in fs.files ==> k.files[Join(ScriptsRoot, rel)] == fs.files[Join(ScriptsRoot, rel)]
    {
      OutsideDeploy(Join(ScriptsRoot, rel), 0);
      InputOutsideStaging(Join(ScriptsRoot, rel), root, ScriptsDir);
    }
  }
}
