/** The top level of build/build.js: `initWorkspace`, the two whole-workspace
    steps, and `buildAllBundles`, which walks the bundle list in index order,
    starting each bundle from the previous bundle's zip callback and calling
    `success` once after the last. The run is described by the log of the
    steps it performed. A built bundle contributes its six steps to the log
    in the fixed order `Steps`; that this is the order in which `buildBundle`
    runs them rests on the bodies of `DeploySteps` and `Package`, which call
    the steps in that order, and is not a separate proof obligation. */
module Orchestration {
  import opened Wrappers
  import opened Strings
  import opened FileTree
  import opened Config
  import opened Env
  import opened Styles
  import opened BundleBuild

  /** Step `step` of bundle number `bundle` ran, or the final `success`
      continuation was called. */
  datatype Event = Ran(bundle: nat, step: Step) | Finished

  /** The run reached `success` with the final tree, or the process ended at
      a failure in bundle number `bundle`. */
  datatype Run =
    | Completed(fs: Fs, log: seq<Event>)
    | Stopped(log: seq<Event>, bundle: nat, failure: Failure)

  /** A step's position in a bundle's step order. */
  function StepIndex(s: Step): (k: nat)
    ensures k < |Steps| && Steps[k] == s
  {
    match s
    case ScriptStep => 0
    case StyleStep => 1
    case LicenseStep => 2
    case ExampleStep => 3
    case ZipStep => 4
    case LatestStep => 5
  }

  lemma StepIndexOfSteps(k: nat)
    requires k < |Steps|
    ensures StepIndex(Steps[k]) == k
  {
  }

  /** `steps`, each tagged with bundle number `i`. */
  function Tagged(i: nat, steps: seq<Step>): (r: seq<Event>)
    ensures |r| == |steps|
    ensures forall k :: 0 <= k < |steps| ==> r[k] == Ran(i, steps[k])
  {
    seq(|steps|, k requires 0 <= k < |steps| => Ran(i, steps[k]))
  }

  /** All steps of bundles `from` up to (not including) `to`. */
  function Schedule(from: nat, to: nat): seq<Event>
    decreases if from < to then to - from else 0
  {
    if from < to then Tagged(from, Steps) + Schedule(from + 1, to) else []
  }

  /** The schedule lists bundle `from + k / 6`'s step `k % 6` at position
      `k`. */
  lemma {:induction false} ScheduleShape(from: nat, to: nat)
    ensures |Schedule(from, to)| == if from < to then |Steps| * (to - from) else 0
    ensures forall k :: 0 <= k < |Schedule(from, to)| ==>
                          Schedule(from, to)[k] == Ran(from + k / |Steps|, Steps[k % |Steps|])
    decreases if from < to then to - from else 0
  {
    if from < to {
      ScheduleShape(from + 1, to);
      var s := Schedule(from, to);
      var t := Schedule(from + 1, to);
      assert s == Tagged(from, Steps) + t;
      forall k | 0 <= k < |s|
        ensures s[k] == Ran(from + k / |Steps|, Steps[k % |Steps|])
      {
        if k >= |Steps| {
          assert s[k] == t[k - |Steps|];
        }
      }
    }
  }

  /** `buildAllBundles(success, bundleIx)`. */
  function BuildAllBundles(env: Env, fs: Fs, bundles: seq<Bundle>, ix: nat): (r: Run)
    ensures r.Completed? ==> r.log == Schedule(ix, |bundles|) + [Finished]
    ensures r.Stopped? ==> ix <= r.bundle < |bundles|
    ensures r.Stopped? ==> StoppedLog(ix, r.bundle, r.log)
    decreases |bundles| - ix, 1
  {
    if ix < |bundles| then AfterBundle(env, bundles, ix, BuildBundle(env, fs, bundles[ix]))
    else Completed(fs, [Finished])
  }

  /** What follows bundle `ix`'s build: the process ends at its failure, or
      its zip callback calls `buildAllBundles(success, ix + 1)`. */
  function AfterBundle(env: Env, bundles: seq<Bundle>, ix: nat, outcome: BundleRun): (r: Run)
    requires ix < |bundles|
    requires outcome.Failed? ==> outcome.done == [] || outcome.done == Steps[..3]
    ensures r.Completed? ==> r.log == Schedule(ix, |bundles|) + [Finished]
    ensures r.Stopped? ==> ix <= r.bundle < |bundles|
    ensures r.Stopped? ==> StoppedLog(ix, r.bundle, r.log)
    decreases |bundles| - ix, 0
  {
    match outcome
    case Failed(done, f) =>
      StoppedFirst(ix, done);
      Stopped(Tagged(ix, done), ix, f)
    case Built(next) =>
      match BuildAllBundles(env, next, bundles, ix + 1)
      case Completed(final, log) =>
        CompletedNext(ix, |bundles|, log);
        Completed(final, Tagged(ix, Steps) + log)
      case Stopped(log, j, f) =>
        StoppedNext(ix, j, log);
        Stopped(Tagged(ix, Steps) + log, j, f)
  }

  /** A run stopped in bundle `j` performed every step of the bundles before
      it, and in bundle `j` either nothing (the license was missing) or
      scripts, styles and licenses (the examples step failed). */
  ghost predicate StoppedLog(ix: nat, j: nat, log: seq<Event>) {
    log == Schedule(ix, j) || log == Schedule(ix, j) + Tagged(j, Steps[..3])
  }

  lemma StoppedFirst(ix: nat, done: seq<Step>)
    requires done == [] || done == Steps[..3]
    ensures StoppedLog(ix, ix, Tagged(ix, done))
  {
    assert Schedule(ix, ix) == [];
    if done == [] {
      assert Tagged(ix, done) == [];
    } else {
      assert Tagged(ix, done) == [] + Tagged(ix, Steps[..3]);
    }
  }

  lemma CompletedNext(ix: nat, n: nat, log: seq<Event>)
    requires ix < n && log == Schedule(ix + 1, n) + [Finished]
    ensures Tagged(ix, Steps) + log == Schedule(ix, n) + [Finished]
  {
    assert Schedule(ix, n) == Tagged(ix, Steps) + Schedule(ix + 1, n);
  }

  lemma StoppedNext(ix: nat, j: nat, log: seq<Event>)
    requires ix < j && StoppedLog(ix + 1, j, log)
    ensures StoppedLog(ix, j, Tagged(ix, Steps) + log)
  {
    assert Schedule(ix, j) == Tagged(ix, Steps) + Schedule(ix + 1, j);
    if log != Schedule(ix + 1, j) {
      assert Tagged(ix, Steps) + log == Schedule(ix, j) + Tagged(j, Steps[..3]);
    }
  }

  /** Event `a` comes before event `b` in bundle order, then step order. */
  predicate Earlier(a: Event, b: Event)
    requires a.Ran? && b.Ran?
  {
    a.bundle < b.bundle || (a.bundle == b.bundle && StepIndex(a.step) < StepIndex(b.step))
  }

  /** A log of the bundles `ix` to `n` (exclusive) that performed every step
      of every bundle, each exactly once, in bundle order and within a bundle
      in step order, and then called `success` once. */
  ghost predicate InOrder(log: seq<Event>, ix: nat, n: nat) {
    && |log| == |Steps| * (n - ix) + 1
    && log[|log| - 1] == Finished
    && (forall k :: 0 <= k < |log| - 1 ==> log[k].Ran? && ix <= log[k].bundle < n)
    && (forall a, b :: 0 <= a < b < |log| - 1 ==> log[a].Ran? && log[b].Ran? && Earlier(log[a], log[b]))
    && (forall i, s :: ix <= i < n ==> log[|Steps| * (i - ix) + StepIndex(s)] == Ran(i, s))
  }

  /** The schedule followed by `success` is such a log. */
  lemma ScheduleOrder(ix: nat, n: nat, log: seq<Event>)
    requires ix <= n && log == Schedule(ix, n) + [Finished]
    ensures InOrder(log, ix, n)
  {
    var sched := Schedule(ix, n);
    ScheduleShape(ix, n);
    assert |Steps| == 6;
    forall k | 0 <= k < |log| - 1
      ensures log[k].Ran? && ix <= log[k].bundle < n
    {
      assert log[k] == sched[k];
      PositionBelow(k, n - ix);
    }
    forall a, b | 0 <= a < b < |log| - 1
      ensures Earlier(log[a], log[b])
    {
      assert log[a] == sched[a] && log[b] == sched[b];
      PositionOrder(a, b);
      StepIndexOfSteps(a % 6);
      StepIndexOfSteps(b % 6);
    }
    forall i, s | ix <= i < n
      ensures log[|Steps| * (i - ix) + StepIndex(s)] == Ran(i, s)
    {
      var k := 6 * (i - ix) + StepIndex(s);
      PositionOf(i - ix, StepIndex(s));
      assert log[k] == sched[k];
    }
  }

  /** Position `k` of a six-step schedule is step `k % 6` of bundle
      `k / 6`. */
  lemma PositionOf(i: nat, s: nat)
    requires s < 6
    ensures (6 * i + s) / 6 == i && (6 * i + s) % 6 == s
  {
  }

  lemma PositionBelow(k: nat, m: nat)
    requires k < 6 * m
    ensures k / 6 < m
  {
  }

  lemma PositionOrder(a: nat, b: nat)
    requires a < b
    ensures a / 6 < b / 6 || (a / 6 == b / 6 && a % 6 < b % 6)
  {
  }

  /** A completed run performs every step of every bundle from `ix` on, each
      exactly once and in bundle order then step order, and calls `success`
      once, last. */
  lemma CompletedLog(env: Env, fs: Fs, bundles: seq<Bundle>, ix: nat)
    requires ix <= |bundles|
    requires BuildAllBundles(env, fs, bundles, ix).Completed?
    ensures InOrder(BuildAllBundles(env, fs, bundles, ix).log, ix, |bundles|)
  {
    ScheduleOrder(ix, |bundles|, BuildAllBundles(env, fs, bundles, ix).log);
  }

  /** Without the source license the run ends before the first bundle
      performs any step. */
  lemma MissingLicenseStopsFirst(env: Env, fs: Fs, bundles: seq<Bundle>, ix: nat)
    requires ix < |bundles| && SrcLicensePath !in fs.files
    ensures BuildAllBundles(env, fs, bundles, ix) == Stopped([], ix, MissingFile(SrcLicensePath))
  {
  }

  /** A bundle built from a workspace holding the source license can only
      fail in its examples step, and keeps the license for the next. */
  lemma LicenseSurvives(env: Env, fs: Fs, b: Bundle)
    requires PlainRoot(BundleRoot(b)) && SrcLicensePath in fs.files
    ensures BuildBundle(env, fs, b).Failed? ==> BuildBundle(env, fs, b).done == Steps[..3]
    ensures BuildBundle(env, fs, b).Built? ==> SrcLicensePath in BuildBundle(env, fs, b).fs.files
  {
    if BuildBundle(env, fs, b).Built? {
      OutsideDeploy(SrcLicensePath, 0);
      LicenseApartFromArchives(b, env.version);
      BundleKeepsInput(env, fs, b, SrcLicensePath);
    }
  }

  /** With the source license present at the start, no bundle removes or
      changes it, so a run can only stop in a bundle's examples step. */
  lemma {:induction false} StopsOnlyInExamples(env: Env, fs: Fs, bundles: seq<Bundle>, ix: nat)
    requires forall j :: ix <= j < |bundles| ==> PlainRoot(BundleRoot(bundles[j]))
    requires SrcLicensePath in fs.files
    ensures var r := BuildAllBundles(env, fs, bundles, ix);
      r.Stopped? ==> r.log == Schedule(ix, r.bundle) + Tagged(r.bundle, Steps[..3])
    decreases |bundles| - ix, 1
  {
    if ix < |bundles| {
      LicenseSurvives(env, fs, bundles[ix]);
      StopsOnlyInExamplesAfter(env, bundles, ix, BuildBundle(env, fs, bundles[ix]));
    }
  }

  lemma {:induction false} StopsOnlyInExamplesAfter(env: Env, bundles: seq<Bundle>, ix: nat, outcome: BundleRun)
    requires ix < |bundles|
    requires forall j :: ix <= j < |bundles| ==> PlainRoot(BundleRoot(bundles[j]))
    requires outcome.Failed? ==> outcome.done == Steps[..3]
    requires outcome.Built? ==> SrcLicensePath in outcome.fs.files
    ensures var r := AfterBundle(env, bundles, ix, outcome);
      r.Stopped? ==> r.log == Schedule(ix, r.bundle) + Tagged(r.bundle, Steps[..3])
    decreases |bundles| - ix, 0
  {
    if outcome.Failed? {
      assert Schedule(ix, ix) == [];
    } else {
      StopsOnlyInExamples(env, outcome.fs, bundles, ix + 1);
      var rest := BuildAllBundles(env, outcome.fs, bundles, ix + 1);
      if rest.Stopped? {
        assert AfterBundle(env, bundles, ix, outcome) == Stopped(Tagged(ix, Steps) + rest.log, rest.bundle, rest.failure);
        ExamplesStopNext(ix, rest.bundle, rest.log);
      }
    }
  }

  lemma ExamplesStopNext(ix: nat, j: nat, log: seq<Event>)
    requires ix < j && log == Schedule(ix + 1, j) + Tagged(j, Steps[..3])
    ensures Tagged(ix, Steps) + log == Schedule(ix, j) + Tagged(j, Steps[..3])
  {
    assert Schedule(ix, j) == Tagged(ix, Steps) + Schedule(ix + 1, j);
  }

  /** What a built bundle adds to and keeps from the workspace outside
      `deploy`: every file there stays, and both archives appear there. */
  lemma BundleOutsideDeploy(env: Env, fs: Fs, b: Bundle)
    requires PlainRoot(BundleRoot(b))
    ensures var o := BuildBundle(env, fs, b);
      o.Built? ==> && (forall p :: p in fs.files && !AtOrUnder(p, DeployRoot) ==> p in o.fs.files)
                   && PackageName(b, env.version) in o.fs.files && LatestName(b, env.version) in o.fs.files
                   && !AtOrUnder(PackageName(b, env.version), DeployRoot)
                   && !AtOrUnder(LatestName(b, env.version), DeployRoot)
  {
    if BuildBundle(env, fs, b).Built? {
      ChildUnder(DeployRoot, b.name + "." + b.license);
      forall p | p in fs.files && !AtOrUnder(p, DeployRoot)
        ensures p in BuildBundle(env, fs, b).fs.files
      {
        OutsideStaging(p, BundleRoot(b));
        BundleKeepsFiles(env, fs, b, p);
      }
      BundleConfined(env, fs, b);
      ArchivesOutsideDeploy(b, env.version);
    }
  }

  /** A completed run keeps every file that lay outside `deploy` at the
      start, and holds both archives of every bundle it built. */
  lemma {:induction false} ArchivesKept(env: Env, fs: Fs, bundles: seq<Bundle>, ix: nat)
    requires forall j :: ix <= j < |bundles| ==> PlainRoot(BundleRoot(bundles[j]))
    ensures var r := BuildAllBundles(env, fs, bundles, ix);
      r.Completed? ==> forall p :: p in fs.files && !AtOrUnder(p, DeployRoot) ==> p in r.fs.files
    ensures var r := BuildAllBundles(env, fs, bundles, ix);
      r.Completed? ==> forall j :: ix <= j < |bundles| ==>
        PackageName(bundles[j], env.version) in r.fs.files && LatestName(bundles[j], env.version) in r.fs.files
    decreases |bundles| - ix, 1
  {
    if ix < |bundles| {
      BundleOutsideDeploy(env, fs, bundles[ix]);
      ArchivesKeptAfter(env, fs, bundles, ix, BuildBundle(env, fs, bundles[ix]));
    }
  }

  lemma {:induction false} ArchivesKeptAfter(env: Env, fs: Fs, bundles: seq<Bundle>, ix: nat, outcome: BundleRun)
    requires ix < |bundles|
    requires forall j :: ix <= j < |bundles| ==> PlainRoot(BundleRoot(bundles[j]))
    requires outcome.Failed? ==> outcome.done == [] || outcome.done == Steps[..3]
    requires outcome.Built? ==>
      && (forall p :: p in fs.files && !AtOrUnder(p, DeployRoot) ==> p in outcome.fs.files)
      && PackageName(bundles[ix], env.version) in outcome.fs.files && LatestName(bundles[ix], env.version) in outcome.fs.files
      && !AtOrUnder(PackageName(bundles[ix], env.version), DeployRoot)
      && !AtOrUnder(LatestName(bundles[ix], env.version), DeployRoot)
    ensures var r := AfterBundle(env, bundles, ix, outcome);
      r.Completed? ==> forall p :: p in fs.files && !AtOrUnder(p, DeployRoot) ==> p in r.fs.files
    ensures var r := AfterBundle(env, bundles, ix, outcome);
      r.Completed? ==> forall j :: ix <= j < |bundles| ==>
        PackageName(bundles[j], env.version) in r.fs.files && LatestName(bundles[j], env.version) in r.fs.files
    decreases |bundles| - ix, 0
  {
    if outcome.Built? {
      var next := outcome.fs;
      ArchivesKept(env, next, bundles, ix + 1);
      var rest := BuildAllBundles(env, next, bundles, ix + 1);
      if rest.Completed? {
        assert AfterBundle(env, bundles, ix, outcome).fs == rest.fs;
        forall j | ix <= j < |bundles|
          ensures PackageName(bundles[j], env.version) in rest.fs.files
          ensures LatestName(bundles[j], env.version) in rest.fs.files
        {
          if j == ix {
            assert PackageName(bundles[ix], env.version) in next.files;
            assert LatestName(bundles[ix], env.version) in next.files;
          }
        }
      }
    }
  }

  // ---------------------------------------------------------------------------
  // The whole run

  /** Nothing exists below `deploy`. */
  ghost predicate Cleared(fs: Fs) {
    forall p :: Under(p, DeployRoot) ==> p !in fs.files && p !in fs.dirs
  }

  /** `initWorkspace()`: remove `deploy`, then create `deploy` and
      `release`. */
  function InitWorkspace(fs: Fs): (r: Fs)
    ensures DeployRoot in r.dirs && DropLocation in r.dirs && DeployRoot !in r.files
    ensures Cleared(r)
    ensures forall p :: !AtOrUnder(p, DeployRoot) ==> (p in r.files <==> p in fs.files)
    ensures forall p :: !AtOrUnder(p, DeployRoot) && p in r.files ==> r.files[p] == fs.files[p]
    ensures forall p :: !AtOrUnder(p, DeployRoot) && p != DropLocation ==> (p in r.dirs <==> p in fs.dirs)
  {
    OutsideDeploy(DropLocation, 0);
    Mkdir(Mkdir(Rmdir(fs, DeployRoot), DeployRoot), DropLocation)
  }

  /** Initialising an initialised workspace changes nothing. */
  lemma InitIdempotent(fs: Fs)
    ensures InitWorkspace(InitWorkspace(fs)) == InitWorkspace(fs)
  {
    var w := InitWorkspace(fs);
    var w2 := InitWorkspace(w);
    assert w2.files.Keys == w.files.Keys;
    assert w2.files == w.files;
    assert w2.dirs == w.dirs;
  }

  /** The workspace the bundles start from: initialised, with the merged
      scripts written below `src` and the built themes below `styles`. */
  function Prepare(env: Env, fs: Fs): (r: Fs)
    ensures DeployRoot in r.dirs && DropLocation in r.dirs && Cleared(r)
  {
    var w := InitWorkspace(fs);
    var merged := Place(w, ScriptsRoot, env.mergeScripts(Subtree(w.files, ScriptsRoot)));
    var themed := Place(merged, StylesRoot, env.buildThemes(Subtree(merged.files, StylesRoot)));
    PrepareSteps(w, merged, themed);
    themed
  }

  lemma PrepareSteps(w: Fs, merged: Fs, themed: Fs)
    requires DeployRoot in w.dirs && DropLocation in w.dirs && Cleared(w)
    requires Confined(w, merged, ScriptsRoot) && Confined(merged, themed, StylesRoot)
    ensures DeployRoot in themed.dirs && DropLocation in themed.dirs && Cleared(themed)
  {
    forall p | Under(p, DeployRoot) || p == DeployRoot || p == DropLocation
      ensures Unchanged(w, themed, p)
    {
      assert p[0] == 'd' || p[0] == 'r';
      PrefixApart(p, ScriptsRoot, 0);
      PrefixApart(p, StylesRoot, 0);
    }
  }

  /** Both archives of every bundle are in the tree. */
  ghost predicate ArchivesPresent(fs: Fs, bundles: seq<Bundle>, version: string) {
    forall j :: 0 <= j < |bundles| ==>
      PackageName(bundles[j], version) in fs.files && LatestName(bundles[j], version) in fs.files
  }

  /** The top-level statements of the script: `initWorkspace()`,
      `mergeScripts()`, `themes.build()`, then `buildAllBundles` over the
      configured bundles from index 0. Its `success` continuation starts
      `buildOnlineExamples`, whose archiving is disabled, so nothing after
      it runs; `Finished` marks that call. */
  function Release(env: Env, fs: Fs): (r: Run)
    ensures r.Completed? ==> InOrder(r.log, 0, |Bundles|) && ArchivesPresent(r.fs, Bundles, env.version)
    ensures r.Stopped? ==> r.bundle < |Bundles| && StoppedLog(0, r.bundle, r.log)
  {
    var start := Prepare(env, fs);
    ConfiguredRootsPlain();
    CompletedRun(env, start, Bundles);
    BuildAllBundles(env, start, Bundles, 0)
  }

  /** A completed run from the first bundle is in order and leaves every
      archive. */
  lemma CompletedRun(env: Env, start: Fs, bundles: seq<Bundle>)
    requires forall j :: 0 <= j < |bundles| ==> PlainRoot(BundleRoot(bundles[j]))
    ensures var r := BuildAllBundles(env, start, bundles, 0);
      r.Completed? ==> InOrder(r.log, 0, |bundles|) && ArchivesPresent(r.fs, bundles, env.version)
  {
    ArchivesKept(env, start, bundles, 0);
    var r := BuildAllBundles(env, start, bundles, 0);
    if r.Completed? {
      ScheduleOrder(0, |bundles|, r.log);
    }
  }

  /** An initialised workspace has every staging root empty. */
  lemma ClearedRootsVacant(w: Fs, b: Bundle)
    requires Cleared(w)
    ensures Vacant(w, BundleRoot(b))
  {
    ChildUnder(DeployRoot, b.name + "." + b.license);
    forall p | AtOrUnder(p, BundleRoot(b))
      ensures p !in w.files && p !in w.dirs
    {
      UnderTrans(p, BundleRoot(b), DeployRoot);
      assert p != DeployRoot by {
        RelJoin(DeployRoot, b.name + "." + b.license);
      }
    }
  }

  /** A staging root `deploy/<name>.<license>` is plain when
      `<name>.<license>` is. */
  lemma PlainBundleRoot(b: Bundle)
    requires !Contains(b.name + "." + b.license, ".css")
    ensures PlainRoot(BundleRoot(b))
  {
    AbsentWithoutChar(DeployRoot, ".css", 0);
    JoinKeepsAbsent(DeployRoot, '/', b.name + "." + b.license, ".css");
    assert BundleRoot(b) == DeployRoot + ['/'] + (b.name + "." + b.license);
  }

  /** The commercial and trial names hold no `s`, so no `.css`. */
  lemma NoSNoCss(x: string)
    requires 's' !in x
    ensures !Contains(x, ".css")
  {
    AbsentWithoutChar(x, ".css", 2);
  }

  /** `open-source` has an `s`, but its pieces between dashes have either no
      `s` or no `.`. */
  lemma OpenSourceNoCss()
    ensures !Contains("kendoui.web-dataviz.open-source", ".css")
  {
    AbsentWithoutChar("kendoui.web", ".css", 2);
    AbsentWithoutChar("dataviz.open", ".css", 2);
    AbsentWithoutChar("source", ".css", 0);
    JoinKeepsAbsent("kendoui.web", '-', "dataviz.open", ".css");
    JoinKeepsAbsent("kendoui.web" + ['-'] + "dataviz.open", '-', "source", ".css");
    assert "kendoui.web-dataviz.open-source" == "kendoui.web" + ['-'] + "dataviz.open" + ['-'] + "source";
  }

  lemma CommercialRootPlain()
    ensures PlainRoot(BundleRoot(Bundles[0]))
  {
    NoSNoCss(Bundles[0].name + "." + Bundles[0].license);
    PlainBundleRoot(Bundles[0]);
  }

  lemma TrialRootPlain()
    ensures PlainRoot(BundleRoot(Bundles[1]))
  {
    NoSNoCss(Bundles[1].name + "." + Bundles[1].license);
    PlainBundleRoot(Bundles[1]);
  }

  lemma OpenSourceRootPlain()
    ensures PlainRoot(BundleRoot(Bundles[2]))
  {
    OpenSourceNoCss();
    assert Bundles[2].name + "." + Bundles[2].license == "kendoui.web-dataviz.open-source";
    PlainBundleRoot(Bundles[2]);
  }

  /** No configured staging root contains `.css`. */
  lemma ConfiguredRootsPlain()
    ensures forall j :: 0 <= j < |Bundles| ==> PlainRoot(BundleRoot(Bundles[j]))
  {
    CommercialRootPlain();
    TrialRootPlain();
    OpenSourceRootPlain();
  }

}
