/** The bundle's `hasSource` flag in `deployExamples` only selects the asset
    paths, which are never handed to a template: the example site of a
    bundle with source and of the same bundle without differ at most in
    `examples/index.html`, whose template sees the whole bundle. The proof
    follows one differing path `q` through every step, none of which reads
    it. */
module SourceFlag {
  import opened Wrappers
  import opened FileTree
  import opened Navigation
  import opened Config
  import opened Env
  import opened Examples
  import opened ExampleSite

  /** Same directories, and the same files except perhaps at `q`. */
  ghost predicate AgreeExcept(a: Fs, b: Fs, q: Path) {
    && a.dirs == b.dirs
    && forall p :: p != q ==> (p in a.files <==> p in b.files) && (p in a.files ==> a.files[p] == b.files[p])
  }

  /** Both runs abort with the same failure, or both succeed with trees that
      agree except perhaps at `q`. */
  ghost predicate SameOutcome(r1: Result<Fs>, r2: Result<Fs>, q: Path) {
    match r1
    case Ok(a) => r2.Ok? && AgreeExcept(a, r2.value, q)
    case Abort(f) => r2 == Abort(f)
  }

  lemma WriteAgrees(a: Fs, b: Fs, q: Path, d: Path, p: Path, text: string)
    requires AgreeExcept(a, b, q)
    ensures AgreeExcept(Write(Mkdir(a, d), p, text), Write(Mkdir(b, d), p, text), q)
  {
  }

  /** Copying from a directory that does not hold `q` keeps the agreement. */
  lemma CopyAgrees(a: Fs, b: Fs, q: Path, src: Path, dest: Path)
    requires AgreeExcept(a, b, q) && !Under(q, src)
    ensures AgreeExcept(CopyAll(a, src, dest), CopyAll(b, src, dest), q)
  {
    var ta := Subtree(a.files, src);
    var tb := Subtree(b.files, src);
    forall rel
      ensures (rel in ta <==> rel in tb) && (rel in ta ==> ta[rel] == tb[rel])
    {
      RelJoin(src, rel);
    }
    assert ta == tb;
    assert Filter(ta, _ => true) == Filter(tb, _ => true);
  }

  /** The page loop reads no view at `q`, so it takes the same course. */
  lemma {:induction false} WritePagesAgree(env: Env, a: Fs, b: Fs, q: Path, tmpl: string, jobs: seq<PageJob>)
    requires AgreeExcept(a, b, q)
    requires forall k :: 0 <= k < |jobs| ==> jobs[k].view != q
    ensures SameOutcome(WritePages(env, a, tmpl, jobs), WritePages(env, b, tmpl, jobs), q)
    decreases |jobs|
  {
    if |jobs| > 0 {
      WritePagesStep(env, a, tmpl, jobs);
      WritePagesStep(env, b, tmpl, jobs);
      var job := jobs[0];
      if job.view in a.files {
        var text := env.render(tmpl, PageParams(a.files[job.view], job.title));
        WriteAgrees(a, b, q, Dirname(job.output), job.output, text);
        WritePagesAgree(env, AfterFirst(env, a, tmpl, job), AfterFirst(env, b, tmpl, job), q, tmpl, jobs[1..]);
      }
    }
  }

  /** A suite reads its navigation document and its views, all below
      `demos`; a path below `deploy` is none of them. */
  lemma DeploySuiteAgrees(env: Env, a: Fs, b: Fs, q: Path, dest: Path, suite: string, exampleTmpl: string, suiteTmpl: string)
    requires AgreeExcept(a, b, q) && AtOrUnder(q, DeployRoot)
    ensures SameOutcome(DeploySuite(env, a, dest, suite, exampleTmpl, suiteTmpl),
                        DeploySuite(env, b, dest, suite, exampleTmpl, suiteTmpl), q)
  {
    InputsOutsideDeploy(suite, "");
    if NavFile(suite) in a.files && env.parseNav(a.files[NavFile(suite)]).Some? {
      var nav := NavOf(env, a, suite);
      var suiteDest := SuiteDest(dest, suite);
      var pages := Pages(suiteDest, suite, nav);
      SuiteUnfold(env, a, dest, suite, exampleTmpl, suiteTmpl);
      SuiteUnfold(env, b, dest, suite, exampleTmpl, suiteTmpl);
      WriteAgrees(a, b, q, suiteDest, Join(suiteDest, IndexPage), env.render(suiteTmpl, NavParams(nav)));
      forall k | 0 <= k < |pages|
        ensures pages[k].view != q
      {
        InputsOutsideDeploy(suite, Flatten(nav)[k].url);
      }
      WritePagesAgree(env, WithSuiteIndex(env, a, suiteDest, suiteTmpl, nav), WithSuiteIndex(env, b, suiteDest, suiteTmpl, nav),
                      q, exampleTmpl, pages);
    }
  }

  lemma {:induction false} DeploySuitesAgree(env: Env, a: Fs, b: Fs, q: Path, dest: Path, suites: seq<string>,
                                             exampleTmpl: string, suiteTmpl: string)
    requires AgreeExcept(a, b, q) && AtOrUnder(q, DeployRoot)
    ensures SameOutcome(DeploySuites(env, a, dest, suites, exampleTmpl, suiteTmpl),
                        DeploySuites(env, b, dest, suites, exampleTmpl, suiteTmpl), q)
    decreases |suites|
  {
    if |suites| > 0 {
      DeploySuiteAgrees(env, a, b, q, dest, suites[0], exampleTmpl, suiteTmpl);
      var first := DeploySuite(env, a, dest, suites[0], exampleTmpl, suiteTmpl);
      if first.Ok? {
        var other := DeploySuite(env, b, dest, suites[0], exampleTmpl, suiteTmpl);
        DeploySuitesAgree(env, first.value, other.value, q, dest, suites[1..], exampleTmpl, suiteTmpl);
      }
    }
  }

  /** Two bundle indexes written into the same tree lead, through the
      content copy, to trees that differ at most in the index. */
  lemma IndexAndContentAgree(fs: Fs, dest: Path, index1: string, index2: string)
    requires AtOrUnder(dest, DeployRoot)
    ensures AgreeExcept(IndexAndContent(fs, dest, index1), IndexAndContent(fs, dest, index2), Join(dest, IndexPage))
  {
    var q := Join(dest, IndexPage);
    var a := Write(Mkdir(fs, dest), q, index1);
    var b := Write(Mkdir(fs, dest), q, index2);
    assert AgreeExcept(a, b, q);
    ChildUnder(dest, IndexPage);
    UnderTrans(q, dest, DeployRoot);
    if Under(q, Join(DemosRoot, ContentRoot)) {
      OutsideDeploy(q, 2);
    }
    CopyAgrees(a, b, q, Join(DemosRoot, ContentRoot), Join(dest, ContentRoot));
  }

  /** Two bundles with the same suites give example sites that differ at
      most in `examples/index.html`; the first missing template, navigation
      document or view is the same for both. */
  lemma ExamplesDependOnSuites(env: Env, fs: Fs, root: Path, b1: Bundle, b2: Bundle)
    requires AtOrUnder(root, DeployRoot) && b1.suites == b2.suites
    ensures SameOutcome(DeployExamples(env, fs, root, b1), DeployExamples(env, fs, root, b2),
                        Join(ExamplesDest(root), IndexPage))
  {
    if TemplatesPresent(fs) {
      var dest := ExamplesDest(root);
      var tmpl := fs.files[BundleIndexTemplate];
      ExamplesUnfold(env, fs, root, b1);
      ExamplesUnfold(env, fs, root, b2);
      ChildUnder(root, ExamplesDir);
      UnderTrans(dest, root, DeployRoot);
      ChildUnder(dest, IndexPage);
      UnderTrans(Join(dest, IndexPage), dest, DeployRoot);
      IndexAndContentAgree(fs, dest, env.render(tmpl, BundleParams(b1)), env.render(tmpl, BundleParams(b2)));
      DeploySuitesAgree(env, IndexAndContent(fs, dest, env.render(tmpl, BundleParams(b1))),
                        IndexAndContent(fs, dest, env.render(tmpl, BundleParams(b2))),
                        Join(dest, IndexPage), dest, b1.suites, fs.files[ExampleTemplate], fs.files[SuiteIndexTemplate]);
    }
  }

  /** In particular, flipping `hasSource` changes no example page. */
  lemma ExamplesIgnoreSourceFlag(env: Env, fs: Fs, root: Path, b: Bundle, hasSource: bool)
    requires AtOrUnder(root, DeployRoot)
    ensures SameOutcome(DeployExamples(env, fs, root, b), DeployExamples(env, fs, root, b.(hasSource := hasSource)),
                        Join(ExamplesDest(root), IndexPage))
  {
    ExamplesDependOnSuites(env, fs, root, b, b.(hasSource := hasSource));
  }
}
