/** What `deployExamples` produces, stated against its inputs: when it
    succeeds, which pages it writes and with what text, and that the
    bundle's `hasSource` flag reaches nothing but the bundle index. The
    inputs (templates, navigation documents, views, shared content) lie
    outside `deploy`, and the staging root below it, so no step overwrites
    what a later step reads. */
module ExampleSite {
  import opened Wrappers
  import opened FileTree
  import opened Navigation
  import opened Config
  import opened Env
  import opened Examples

  /** What a suite needs: its navigation document, parseable, and the view
      of every item. */
  ghost predicate SuiteInputs(env: Env, fs: Fs, suite: string) {
    && NavFile(suite) in fs.files
    && env.parseNav(fs.files[NavFile(suite)]).Some?
    && var items := Flatten(env.parseNav(fs.files[NavFile(suite)]).value);
       forall k :: 0 <= k < |items| ==> ViewOf(suite, items[k].url) in fs.files
  }

  /** The navigation and the views are read from below `demos`. */
  lemma InputsOutsideDeploy(suite: string, url: string)
    ensures !AtOrUnder(NavFile(suite), DeployRoot)
    ensures !AtOrUnder(ViewOf(suite, url), DeployRoot)
  {
    OutsideDeploy(NavFile(suite), 2);
    OutsideDeploy(ViewOf(suite, url), 2);
  }

  /** Steps confined below `deploy` leave a suite's navigation document and
      views as they were. */
  lemma InputsUnchanged(fs: Fs, fs': Fs, dir: Path, suite: string)
    requires AtOrUnder(dir, DeployRoot) && Confined(fs, fs', dir)
    ensures Unchanged(fs, fs', NavFile(suite))
    ensures forall url :: Unchanged(fs, fs', ViewOf(suite, url))
  {
    InputsOutsideDeploy(suite, "");
    OutsideStaging(NavFile(suite), dir);
    forall url
      ensures Unchanged(fs, fs', ViewOf(suite, url))
    {
      InputsOutsideDeploy(suite, url);
      OutsideStaging(ViewOf(suite, url), dir);
    }
  }

  /** ... and so whether the suite can be deployed. */
  lemma InputsStable(env: Env, fs: Fs, fs': Fs, dir: Path, suite: string)
    requires AtOrUnder(dir, DeployRoot) && Confined(fs, fs', dir)
    ensures SuiteInputs(env, fs, suite) <==> SuiteInputs(env, fs', suite)
  {
    InputsUnchanged(fs, fs', dir, suite);
    if NavFile(suite) in fs.files {
      assert fs'.files[NavFile(suite)] == fs.files[NavFile(suite)];
    }
  }

  /** Unfolding a suite step whose navigation parses. */
  lemma SuiteUnfold(env: Env, fs: Fs, dest: Path, suite: string, exampleTmpl: string, suiteTmpl: string)
    requires NavFile(suite) in fs.files && env.parseNav(fs.files[NavFile(suite)]).Some?
    ensures var nav := NavOf(env, fs, suite);
      DeploySuite(env, fs, dest, suite, exampleTmpl, suiteTmpl)
      == WritePages(env, WithSuiteIndex(env, fs, SuiteDest(dest, suite), suiteTmpl, nav), exampleTmpl,
                    Pages(SuiteDest(dest, suite), suite, nav))
  {
  }

  /** Below a suite directory inside `deploy`, no page is written over a
      view, nor over the suite index unless an item's URL is `index.html`. */
  lemma PagesApart(dest: Path, suite: string, nav: Nav)
    requires AtOrUnder(dest, DeployRoot)
    ensures Separate(Pages(SuiteDest(dest, suite), suite, nav))
    ensures forall k :: 0 <= k < |Flatten(nav)| ==> ViewOf(suite, Flatten(nav)[k].url) != Join(SuiteDest(dest, suite), IndexPage)
  {
    var suiteDest := SuiteDest(dest, suite);
    var pages := Pages(suiteDest, suite, nav);
    ChildUnder(dest, suite);
    UnderTrans(suiteDest, dest, DeployRoot);
    PagesBelowSuite(suiteDest, suite, nav);
    forall k, j | 0 <= k < |pages| && 0 <= j < |pages|
      ensures pages[k].view != pages[j].output
    {
      InputsOutsideDeploy(suite, Flatten(nav)[k].url);
      UnderTrans(pages[j].output, suiteDest, DeployRoot);
    }
    forall k | 0 <= k < |Flatten(nav)|
      ensures ViewOf(suite, Flatten(nav)[k].url) != Join(suiteDest, IndexPage)
    {
      InputsOutsideDeploy(suite, Flatten(nav)[k].url);
      ChildUnder(suiteDest, IndexPage);
      UnderTrans(Join(suiteDest, IndexPage), suiteDest, DeployRoot);
    }
  }

  /** The navigation a successful suite step was built from. */
  ghost function NavOf(env: Env, fs: Fs, suite: string): Nav
    requires NavFile(suite) in fs.files && env.parseNav(fs.files[NavFile(suite)]).Some?
  {
    env.parseNav(fs.files[NavFile(suite)]).value
  }

  /** A suite deploys exactly when its navigation document exists and
      parses and every item's view exists. */
  lemma SuiteOutcome(env: Env, fs: Fs, dest: Path, suite: string, exampleTmpl: string, suiteTmpl: string)
    requires AtOrUnder(dest, DeployRoot)
    ensures DeploySuite(env, fs, dest, suite, exampleTmpl, suiteTmpl).Ok? <==> SuiteInputs(env, fs, suite)
  {
    if NavFile(suite) in fs.files && env.parseNav(fs.files[NavFile(suite)]).Some? {
      var nav := NavOf(env, fs, suite);
      var suiteDest := SuiteDest(dest, suite);
      var indexed := WithSuiteIndex(env, fs, suiteDest, suiteTmpl, nav);
      var pages := Pages(suiteDest, suite, nav);
      SuiteUnfold(env, fs, dest, suite, exampleTmpl, suiteTmpl);
      PagesApart(dest, suite, nav);
      PagesOutcome(env, indexed, exampleTmpl, pages);
      assert forall k :: 0 <= k < |pages| ==> (pages[k].view in indexed.files <==> pages[k].view in fs.files);
    }
  }

  /** Each item's page of a deployed suite is the example template rendered
      with the item's view and title, unless a later item has the same
      URL. */
  lemma SuitePage(env: Env, fs: Fs, dest: Path, suite: string, exampleTmpl: string, suiteTmpl: string, k: nat)
    requires AtOrUnder(dest, DeployRoot)
    requires DeploySuite(env, fs, dest, suite, exampleTmpl, suiteTmpl).Ok?
    requires NavFile(suite) in fs.files && env.parseNav(fs.files[NavFile(suite)]).Some?
    requires k < |Flatten(NavOf(env, fs, suite))|
    requires var items := Flatten(NavOf(env, fs, suite));
      forall j :: k < j < |items| ==> items[j].url != items[k].url
    ensures var items := Flatten(NavOf(env, fs, suite));
      && ViewOf(suite, items[k].url) in fs.files
      && DeploySuite(env, fs, dest, suite, exampleTmpl, suiteTmpl).value.files[Join(SuiteDest(dest, suite), items[k].url)]
         == env.render(exampleTmpl, PageParams(fs.files[ViewOf(suite, items[k].url)], items[k].text))
  {
    var nav := NavOf(env, fs, suite);
    var suiteDest := SuiteDest(dest, suite);
    var indexed := WithSuiteIndex(env, fs, suiteDest, suiteTmpl, nav);
    var pages := Pages(suiteDest, suite, nav);
    SuiteUnfold(env, fs, dest, suite, exampleTmpl, suiteTmpl);
    PagesApart(dest, suite, nav);
    forall j | k < j < |pages|
      ensures pages[j].output != pages[k].output
    {
      RelJoin(suiteDest, Flatten(nav)[j].url);
      RelJoin(suiteDest, Flatten(nav)[k].url);
    }
    PageContent(env, indexed, exampleTmpl, pages, k);
  }

  /** The suite index is the suite template rendered with the navigation,
      unless an item's page is itself called `index.html`. */
  lemma SuiteIndex(env: Env, fs: Fs, dest: Path, suite: string, exampleTmpl: string, suiteTmpl: string)
    requires DeploySuite(env, fs, dest, suite, exampleTmpl, suiteTmpl).Ok?
    requires NavFile(suite) in fs.files && env.parseNav(fs.files[NavFile(suite)]).Some?
    requires var items := Flatten(NavOf(env, fs, suite));
      forall k :: 0 <= k < |items| ==> items[k].url != IndexPage
    ensures DeploySuite(env, fs, dest, suite, exampleTmpl, suiteTmpl).value.files[Join(SuiteDest(dest, suite), IndexPage)]
            == env.render(suiteTmpl, NavParams(NavOf(env, fs, suite)))
  {
    var nav := NavOf(env, fs, suite);
    var suiteDest := SuiteDest(dest, suite);
    var indexed := WithSuiteIndex(env, fs, suiteDest, suiteTmpl, nav);
    var pages := Pages(suiteDest, suite, nav);
    SuiteUnfold(env, fs, dest, suite, exampleTmpl, suiteTmpl);
    var index := Join(suiteDest, IndexPage);
    forall k | 0 <= k < |pages|
      ensures pages[k].output != index
    {
      assert pages[k] == PageOf(suiteDest, suite, Flatten(nav)[k]);
      RelJoin(suiteDest, Flatten(nav)[k].url);
      RelJoin(suiteDest, IndexPage);
    }
    PagesElsewhere(env, indexed, exampleTmpl, pages, index);
    assert index in indexed.files;
  }

  /** A suite writes nothing but its index and one page per item. */
  lemma SuiteWritesOnlyPages(env: Env, fs: Fs, dest: Path, suite: string, exampleTmpl: string, suiteTmpl: string, p: Path)
    requires DeploySuite(env, fs, dest, suite, exampleTmpl, suiteTmpl).Ok?
    requires p in DeploySuite(env, fs, dest, suite, exampleTmpl, suiteTmpl).value.files && p !in fs.files
    ensures NavFile(suite) in fs.files && env.parseNav(fs.files[NavFile(suite)]).Some?
    ensures var items := Flatten(NavOf(env, fs, suite));
      || p == Join(SuiteDest(dest, suite), IndexPage)
      || exists k :: 0 <= k < |items| && p == Join(SuiteDest(dest, suite), items[k].url)
  {
    var nav := NavOf(env, fs, suite);
    var suiteDest := SuiteDest(dest, suite);
    var indexed := WithSuiteIndex(env, fs, suiteDest, suiteTmpl, nav);
    var pages := Pages(suiteDest, suite, nav);
    SuiteUnfold(env, fs, dest, suite, exampleTmpl, suiteTmpl);
    if p != Join(suiteDest, IndexPage) {
      var k :| 0 <= k < |pages| && p == pages[k].output;
      assert p == Join(suiteDest, Flatten(nav)[k].url);
    }
  }

  // ---------------------------------------------------------------------------
  // All suites of a bundle

  /** The suites deploy exactly when the inputs of every suite exist before
      the first one starts: nothing a suite writes is read by a later one. */
  lemma {:induction false} SuitesOutcome(env: Env, fs: Fs, dest: Path, suites: seq<string>, exampleTmpl: string, suiteTmpl: string)
    requires AtOrUnder(dest, DeployRoot)
    ensures DeploySuites(env, fs, dest, suites, exampleTmpl, suiteTmpl).Ok?
            <==> forall i :: 0 <= i < |suites| ==> SuiteInputs(env, fs, suites[i])
    decreases |suites|
  {
    if |suites| > 0 {
      SuiteOutcome(env, fs, dest, suites[0], exampleTmpl, suiteTmpl);
      var first := DeploySuite(env, fs, dest, suites[0], exampleTmpl, suiteTmpl);
      assert forall i :: 1 <= i < |suites| ==> suites[i] == suites[1..][i - 1];
      if first.Ok? {
        SuitesOutcome(env, first.value, dest, suites[1..], exampleTmpl, suiteTmpl);
        ChildUnder(dest, suites[0]);
        UnderTrans(SuiteDest(dest, suites[0]), dest, DeployRoot);
        forall i | 1 <= i < |suites|
          ensures SuiteInputs(env, fs, suites[i]) <==> SuiteInputs(env, first.value, suites[i])
        {
          InputsStable(env, fs, first.value, SuiteDest(dest, suites[0]), suites[i]);
        }
      }
    }
  }

  /** A path outside every suite directory is left as it was. */
  lemma {:induction false} SuitesKeep(env: Env, fs: Fs, dest: Path, suites: seq<string>, exampleTmpl: string, suiteTmpl: string, p: Path)
    requires forall i :: 0 <= i < |suites| ==> !AtOrUnder(p, SuiteDest(dest, suites[i]))
    ensures DeploySuites(env, fs, dest, suites, exampleTmpl, suiteTmpl).Ok? ==>
              Unchanged(fs, DeploySuites(env, fs, dest, suites, exampleTmpl, suiteTmpl).value, p)
    decreases |suites|
  {
    if |suites| > 0 {
      var first := DeploySuite(env, fs, dest, suites[0], exampleTmpl, suiteTmpl);
      assert forall i :: 1 <= i < |suites| ==> suites[i] == suites[1..][i - 1];
      if first.Ok? {
        SuitesKeep(env, first.value, dest, suites[1..], exampleTmpl, suiteTmpl, p);
      }
    }
  }

  /** The state in which suite `i` starts, when the earlier ones succeeded,
      and the step that suite `i` takes from it. */
  lemma {:induction false} SuitesAt(env: Env, fs: Fs, dest: Path, suites: seq<string>, exampleTmpl: string, suiteTmpl: string, i: nat)
    returns (before: Fs, after: Fs)
    requires DeploySuites(env, fs, dest, suites, exampleTmpl, suiteTmpl).Ok? && i < |suites|
    ensures DeploySuite(env, before, dest, suites[i], exampleTmpl, suiteTmpl) == Ok(after)
    ensures Confined(fs, before, dest)
    ensures DeploySuites(env, after, dest, suites[i + 1..], exampleTmpl, suiteTmpl)
            == DeploySuites(env, fs, dest, suites, exampleTmpl, suiteTmpl)
    decreases i
  {
    var first := DeploySuite(env, fs, dest, suites[0], exampleTmpl, suiteTmpl).value;
    if i == 0 {
      before, after := fs, first;
      assert suites[1..] == suites[i + 1..];
    } else {
      assert suites[1..][i - 1] == suites[i];
      assert suites[1..][i..] == suites[i + 1..];
      before, after := SuitesAt(env, first, dest, suites[1..], exampleTmpl, suiteTmpl, i - 1);
      ChildUnder(dest, suites[0]);
      ConfinedWiden(fs, first, SuiteDest(dest, suites[0]), dest);
      ConfinedTrans(fs, first, before, dest);
    }
  }

  /** What suite `i` wrote into its own directory survives the later suites
      when they have other plain names. */
  lemma SuiteSurvives(env: Env, fs: Fs, dest: Path, suites: seq<string>, exampleTmpl: string, suiteTmpl: string,
                      i: nat, after: Fs, p: Path)
    requires forall j :: 0 <= j < |suites| ==> '/' !in suites[j]
    requires i < |suites| && forall j :: i < j < |suites| ==> suites[j] != suites[i]
    requires AtOrUnder(p, SuiteDest(dest, suites[i]))
    requires DeploySuites(env, after, dest, suites[i + 1..], exampleTmpl, suiteTmpl).Ok?
    ensures Unchanged(after, DeploySuites(env, after, dest, suites[i + 1..], exampleTmpl, suiteTmpl).value, p)
  {
    var rest := suites[i + 1..];
    forall j | 0 <= j < |rest|
      ensures !AtOrUnder(p, SuiteDest(dest, rest[j]))
    {
      assert rest[j] == suites[i + 1 + j];
      SiblingsApart(dest, suites[i], rest[j], p);
    }
    SuitesKeep(env, after, dest, rest, exampleTmpl, suiteTmpl, p);
  }

  /** Each page of every suite ends up as rendered, under the same
      conditions as for one suite. */
  lemma SuitesPage(env: Env, fs: Fs, dest: Path, suites: seq<string>, exampleTmpl: string, suiteTmpl: string, i: nat, k: nat)
    requires AtOrUnder(dest, DeployRoot)
    requires forall j :: 0 <= j < |suites| ==> '/' !in suites[j]
    requires i < |suites| && forall j :: i < j < |suites| ==> suites[j] != suites[i]
    requires DeploySuites(env, fs, dest, suites, exampleTmpl, suiteTmpl).Ok?
    requires NavFile(suites[i]) in fs.files && env.parseNav(fs.files[NavFile(suites[i])]).Some?
    requires k < |Flatten(NavOf(env, fs, suites[i]))|
    requires var items := Flatten(NavOf(env, fs, suites[i]));
      forall j :: k < j < |items| ==> items[j].url != items[k].url
    ensures var items := Flatten(NavOf(env, fs, suites[i]));
      && ViewOf(suites[i], items[k].url) in fs.files
      && var r := DeploySuites(env, fs, dest, suites, exampleTmpl, suiteTmpl).value;
         && Join(SuiteDest(dest, suites[i]), items[k].url) in r.files
         && r.files[Join(SuiteDest(dest, suites[i]), items[k].url)]
            == env.render(exampleTmpl, PageParams(fs.files[ViewOf(suites[i], items[k].url)], items[k].text))
  {
    var before, after := SuitesAt(env, fs, dest, suites, exampleTmpl, suiteTmpl, i);
    InputsUnchanged(fs, before, dest, suites[i]);
    assert NavOf(env, before, suites[i]) == NavOf(env, fs, suites[i]);
    SuitePage(env, before, dest, suites[i], exampleTmpl, suiteTmpl, k);
    var url := Flatten(NavOf(env, fs, suites[i]))[k].url;
    ChildUnder(SuiteDest(dest, suites[i]), url);
    SuiteSurvives(env, fs, dest, suites, exampleTmpl, suiteTmpl, i, after, Join(SuiteDest(dest, suites[i]), url));
  }

  // ---------------------------------------------------------------------------
  // The example site of a bundle

  ghost predicate TemplatesPresent(fs: Fs) {
    ExampleTemplate in fs.files && SuiteIndexTemplate in fs.files && BundleIndexTemplate in fs.files
  }

  /** Unfolding `deployExamples` once its templates are read. */
  lemma ExamplesUnfold(env: Env, fs: Fs, root: Path, b: Bundle)
    requires TemplatesPresent(fs)
    ensures DeployExamples(env, fs, root, b)
            == DeploySuites(env, IndexAndContent(fs, ExamplesDest(root), env.render(fs.files[BundleIndexTemplate], BundleParams(b))),
                            ExamplesDest(root), b.suites, fs.files[ExampleTemplate], fs.files[SuiteIndexTemplate])
  {
  }

  /** A path at or below `dest/x`, for a plain name `x` that no suite
      has, lies outside every suite directory. */
  lemma OutsideSuites(dest: Path, suites: seq<string>, x: string, p: Path)
    requires '/' !in x && AtOrUnder(p, Join(dest, x))
    requires forall i :: 0 <= i < |suites| ==> '/' !in suites[i] && suites[i] != x
    ensures forall i :: 0 <= i < |suites| ==> !AtOrUnder(p, SuiteDest(dest, suites[i]))
  {
    forall i | 0 <= i < |suites|
      ensures !AtOrUnder(p, SuiteDest(dest, suites[i]))
    {
      SiblingsApart(dest, x, suites[i], p);
    }
  }

  /** Below `<dest>/<x>`, for a plain name `x` that no suite has, the
      suites change nothing. */
  lemma SuitesKeepSibling(env: Env, fs: Fs, dest: Path, suites: seq<string>, exampleTmpl: string, suiteTmpl: string,
                          x: string, p: Path)
    requires '/' !in x && AtOrUnder(p, Join(dest, x))
    requires forall i :: 0 <= i < |suites| ==> '/' !in suites[i] && suites[i] != x
    ensures DeploySuites(env, fs, dest, suites, exampleTmpl, suiteTmpl).Ok? ==>
              Unchanged(fs, DeploySuites(env, fs, dest, suites, exampleTmpl, suiteTmpl).value, p)
  {
    OutsideSuites(dest, suites, x, p);
    SuitesKeep(env, fs, dest, suites, exampleTmpl, suiteTmpl, p);
  }

  /** Inside a staging root below `deploy`, the example site is built
      exactly when the three templates exist and every suite's navigation
      parses and has all its views. */
  lemma ExamplesOutcome(env: Env, fs: Fs, root: Path, b: Bundle)
    requires AtOrUnder(root, DeployRoot)
    ensures DeployExamples(env, fs, root, b).Ok?
            <==> TemplatesPresent(fs) && forall i :: 0 <= i < |b.suites| ==> SuiteInputs(env, fs, b.suites[i])
  {
    if TemplatesPresent(fs) {
      var dest := ExamplesDest(root);
      var staged := IndexAndContent(fs, dest, env.render(fs.files[BundleIndexTemplate], BundleParams(b)));
      ExamplesUnfold(env, fs, root, b);
      ChildUnder(root, ExamplesDir);
      UnderTrans(dest, root, DeployRoot);
      SuitesOutcome(env, staged, dest, b.suites, fs.files[ExampleTemplate], fs.files[SuiteIndexTemplate]);
      forall i | 0 <= i < |b.suites|
        ensures SuiteInputs(env, fs, b.suites[i]) <==> SuiteInputs(env, staged, b.suites[i])
      {
        InputsStable(env, fs, staged, dest, b.suites[i]);
      }
    }
  }

  /** `examples/index.html` is the bundle template rendered with the bundle,
      provided no suite is itself called `index.html`. */
  lemma BundleIndexWritten(env: Env, fs: Fs, root: Path, b: Bundle)
    requires DeployExamples(env, fs, root, b).Ok?
    requires forall i :: 0 <= i < |b.suites| ==> '/' !in b.suites[i] && b.suites[i] != IndexPage
    ensures BundleIndexTemplate in fs.files
    ensures DeployExamples(env, fs, root, b).value.files[Join(ExamplesDest(root), IndexPage)]
            == env.render(fs.files[BundleIndexTemplate], BundleParams(b))
  {
    assert TemplatesPresent(fs);
    ExamplesUnfold(env, fs, root, b);
    IndexSurvivesSuites(env, fs, ExamplesDest(root), b.suites, fs.files[ExampleTemplate], fs.files[SuiteIndexTemplate],
                        env.render(fs.files[BundleIndexTemplate], BundleParams(b)));
  }

  /** The suites leave the bundle index as the staging step wrote it. */
  lemma IndexSurvivesSuites(env: Env, fs: Fs, dest: Path, suites: seq<string>, exampleTmpl: string, suiteTmpl: string,
                            bundleIndex: string)
    requires forall i :: 0 <= i < |suites| ==> '/' !in suites[i] && suites[i] != IndexPage
    ensures var r := DeploySuites(env, IndexAndContent(fs, dest, bundleIndex), dest, suites, exampleTmpl, suiteTmpl);
      r.Ok? ==> Join(dest, IndexPage) in r.value.files && r.value.files[Join(dest, IndexPage)] == bundleIndex
  {
    var staged := IndexAndContent(fs, dest, bundleIndex);
    PlainNames();
    assert AtOrUnder(Join(dest, IndexPage), Join(dest, IndexPage));
    SuitesKeepSibling(env, staged, dest, suites, exampleTmpl, suiteTmpl, IndexPage, Join(dest, IndexPage));
  }

  /** Every file of `demos/mvc/content` is copied to `examples/content`,
      provided no suite is itself called `content`. */
  lemma ContentCopied(env: Env, fs: Fs, root: Path, b: Bundle, rel: Path)
    requires AtOrUnder(root, DeployRoot)
    requires DeployExamples(env, fs, root, b).Ok?
    requires forall i :: 0 <= i < |b.suites| ==> '/' !in b.suites[i] && b.suites[i] != ContentRoot
    requires Join(Join(DemosRoot, ContentRoot), rel) in fs.files
    ensures var r := DeployExamples(env, fs, root, b).value;
      && Join(Join(ExamplesDest(root), ContentRoot), rel) in r.files
      && r.files[Join(Join(ExamplesDest(root), ContentRoot), rel)] == fs.files[Join(Join(DemosRoot, ContentRoot), rel)]
  {
    assert TemplatesPresent(fs);
    ExamplesUnfold(env, fs, root, b);
    ContentSurvivesSuites(env, fs, root, b.suites, fs.files[ExampleTemplate], fs.files[SuiteIndexTemplate],
                          env.render(fs.files[BundleIndexTemplate], BundleParams(b)), rel);
  }

  /** The suites leave the copied content as the staging step wrote it. */
  lemma ContentSurvivesSuites(env: Env, fs: Fs, root: Path, suites: seq<string>, exampleTmpl: string, suiteTmpl: string,
                              bundleIndex: string, rel: Path)
    requires AtOrUnder(root, DeployRoot)
    requires forall i :: 0 <= i < |suites| ==> '/' !in suites[i] && suites[i] != ContentRoot
    requires Join(Join(DemosRoot, ContentRoot), rel) in fs.files
    ensures var r := DeploySuites(env, IndexAndContent(fs, ExamplesDest(root), bundleIndex), ExamplesDest(root), suites,
                                  exampleTmpl, suiteTmpl);
      r.Ok? ==> && Join(Join(ExamplesDest(root), ContentRoot), rel) in r.value.files
                && r.value.files[Join(Join(ExamplesDest(root), ContentRoot), rel)]
                   == fs.files[Join(Join(DemosRoot, ContentRoot), rel)]
  {
    var dest := ExamplesDest(root);
    var staged := IndexAndContent(fs, dest, bundleIndex);
    var copy := Join(Join(dest, ContentRoot), rel);
    ContentStaged(fs, root, bundleIndex, rel);
    ChildUnder(Join(dest, ContentRoot), rel);
    PlainNames();
    SuitesKeepSibling(env, staged, dest, suites, exampleTmpl, suiteTmpl, ContentRoot, copy);
  }

  /** The content copy reads its sources from outside the staging root. */
  lemma ContentStaged(fs: Fs, root: Path, bundleIndex: string, rel: Path)
    requires AtOrUnder(root, DeployRoot)
    requires Join(Join(DemosRoot, ContentRoot), rel) in fs.files
    ensures var staged := IndexAndContent(fs, ExamplesDest(root), bundleIndex);
      && Join(Join(ExamplesDest(root), ContentRoot), rel) in staged.files
      && staged.files[Join(Join(ExamplesDest(root), ContentRoot), rel)] == fs.files[Join(Join(DemosRoot, ContentRoot), rel)]
  {
    RelJoin(Join(DemosRoot, ContentRoot), rel);
    SourceOutsideExamples(root, Join(Join(DemosRoot, ContentRoot), rel));
  }

  /** `content` and `index.html` are plain names. */
  lemma PlainNames()
    ensures '/' !in ContentRoot && '/' !in IndexPage
  {
  }

  lemma SourceOutsideExamples(root: Path, source: Path)
    requires AtOrUnder(root, DeployRoot) && Under(source, Join(DemosRoot, ContentRoot))
    ensures !AtOrUnder(source, ExamplesDest(root))
  {
    OutsideDeploy(source, 2);
    ChildUnder(root, ExamplesDir);
    UnderTrans(ExamplesDest(root), root, DeployRoot);
    OutsideStaging(source, ExamplesDest(root));
  }

  /** Item `k` of suite `i` becomes `examples/<suite>/<url>`: the example
      template rendered with the item's view and title, unless a later item
      of the suite has the same URL or a later suite the same name. */
  lemma ExamplesPage(env: Env, fs: Fs, root: Path, b: Bundle, i: nat, k: nat)
    requires AtOrUnder(root, DeployRoot)
    requires DeployExamples(env, fs, root, b).Ok?
    requires forall j :: 0 <= j < |b.suites| ==> '/' !in b.suites[j]
    requires i < |b.suites| && forall j :: i < j < |b.suites| ==> b.suites[j] != b.suites[i]
    requires NavFile(b.suites[i]) in fs.files && env.parseNav(fs.files[NavFile(b.suites[i])]).Some?
    requires k < |Flatten(NavOf(env, fs, b.suites[i]))|
    requires var items := Flatten(NavOf(env, fs, b.suites[i]));
      forall j :: k < j < |items| ==> items[j].url != items[k].url
    ensures var items := Flatten(NavOf(env, fs, b.suites[i]));
      && ExampleTemplate in fs.files && ViewOf(b.suites[i], items[k].url) in fs.files
      && var r := DeployExamples(env, fs, root, b).value;
         && Join(SuiteDest(ExamplesDest(root), b.suites[i]), items[k].url) in r.files
         && r.files[Join(SuiteDest(ExamplesDest(root), b.suites[i]), items[k].url)]
            == env.render(fs.files[ExampleTemplate], PageParams(fs.files[ViewOf(b.suites[i], items[k].url)], items[k].text))
  {
    var dest := ExamplesDest(root);
    var staged := IndexAndContent(fs, dest, env.render(fs.files[BundleIndexTemplate], BundleParams(b)));
    ExamplesUnfold(env, fs, root, b);
    ChildUnder(root, ExamplesDir);
    UnderTrans(dest, root, DeployRoot);
    InputsUnchanged(fs, staged, dest, b.suites[i]);
    assert NavOf(env, staged, b.suites[i]) == NavOf(env, fs, b.suites[i]);
    SuitesPage(env, staged, dest, b.suites, fs.files[ExampleTemplate], fs.files[SuiteIndexTemplate], i, k);
  }
}
