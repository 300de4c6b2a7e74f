/** Example-site deployment (build/build.js `deployExamples`): a bundle
    index, the shared `content` directory, and per suite an index page plus
    one page per navigation item, each rendered from a Razor view with the
    example template. */
module Examples {
  import opened Wrappers
  import opened Strings
  import opened FileTree
  import opened Navigation
  import opened Config
  import opened Env

  // ---------------------------------------------------------------------------
  // Asset paths

  datatype AssetPaths = AssetPaths(styles: string, scripts: string)

  /** `stylesPath` and `scriptsPath`: the unminified files below `source`
      when the bundle ships source, the minified ones otherwise. */
  function SelectAssetPaths(hasSource: bool): (r: AssetPaths)
    ensures hasSource <==> "../../../" + SourceDir + "/" <= r.styles
    ensures hasSource <==> "../../../" + SourceDir + "/" <= r.scripts
    ensures !hasSource <==> EndsWith(r.styles, ".min.css") && EndsWith(r.scripts, ".min.js")
  {
    var prefix := "../../../" + SourceDir + "/";
    if hasSource then AssetPaths("../../../source/styles/$2.css", "../../../source/js/$2.js")
    else
      var r := AssetPaths("../../../styles/$2.min.css", "../../../js/$2.min.js");
      assert r.styles[10] != prefix[10] && r.scripts[9] != prefix[9];
      r
  }

  // ---------------------------------------------------------------------------
  // path.dirname

  /** Where the last `/` of `p` is, if any. */
  function LastSlash(p: Path): (r: Option<nat>)
    ensures r.Some? ==> r.value < |p| && p[r.value] == '/'
    ensures r.Some? ==> forall j :: r.value < j < |p| ==> p[j] != '/'
    ensures r.None? ==> forall j :: 0 <= j < |p| ==> p[j] != '/'
    decreases |p|
  {
    if |p| == 0 then None
    else if p[|p| - 1] == '/' then Some(|p| - 1)
    else LastSlash(p[..|p| - 1])
  }

  /** `path.dirname` for paths without a trailing `/`: everything before
      the last `/`, `/` for a name right below the file-system root, and
      `.` when there is no `/`. */
  function Dirname(p: Path): (r: Path)
    ensures r == "." || r == "/" || (|r| < |p| && r == p[..|r|] && p[|r|] == '/')
  {
    match LastSlash(p)
    case None => "."
    case Some(i) => if i == 0 then "/" else p[..i]
  }

  /** The directory of a path joined below a non-empty directory lies at or
      below that directory, and is that directory for a plain file name. */
  lemma DirnameJoin(dir: Path, x: Path)
    requires |dir| > 0
    ensures AtOrUnder(Dirname(Join(dir, x)), dir)
    ensures '/' !in x ==> Dirname(Join(dir, x)) == dir
  {
    var s := Join(dir, x);
    assert s == (dir + "/") + x;
    assert s[|dir|] == '/';
    var i := LastSlash(s).value;
    assert |dir| <= i;
    if |dir| < i {
      assert s[..i][..|dir| + 1] == dir + "/";
    }
    if '/' !in x {
      forall j | |dir| < j < |s|
        ensures s[j] != '/'
      {
        assert s[j] == x[j - |dir| - 1];
      }
      assert i == |dir|;
    }
  }

  // ---------------------------------------------------------------------------
  // The pages of a suite

  const ViewsPath := Join(DemosRoot, ViewsRoot)

  /** `example.url.replace("html", "cshtml")`: only the first `html` is
      replaced. */
  function ViewName(url: string): string {
    ReplaceFirst(url, "html", "cshtml")
  }

  /** A page `<stem>.html` whose stem holds no `html` is rendered from the
      view `<stem>.cshtml`. */
  lemma ViewNameOfPage(stem: string)
    requires !Contains(stem, "html")
    ensures ViewName(stem + ".html") == stem + ".cshtml"
  {
    AppendKeepsAbsent(stem, '.', "html");
    assert stem + ".html" == (stem + ".") + "html";
    FirstOccurrenceAtJoin(stem + ".", "html", "html");
    assert (stem + ".html")[..|stem| + 1] == stem + ".";
    assert (stem + ".html")[|stem| + 5..] == [];
    assert (stem + ".") + "cshtml" == stem + ".cshtml";
  }

  /** Only the first `html` is replaced: a URL with `html` in a directory
      name keeps its `.html` extension in the view name. */
  lemma ViewNameFirstOnly()
    ensures ViewName("html5/video.html") == "cshtml5/video.html"
  {
    assert FirstOccurrence("html5/video.html", "html", 0);
  }

  /** What one navigation item becomes: the output page, the view it is
      rendered from, and its title. */
  datatype PageJob = PageJob(output: Path, view: Path, title: string)

  /** `Views/<suite>/<view name>` below the demos. */
  function ViewOf(suite: string, url: string): Path {
    Join(Join(ViewsPath, suite), ViewName(url))
  }

  function PageOf(suiteDest: Path, suite: string, e: Example): PageJob {
    PageJob(Join(suiteDest, e.url), ViewOf(suite, e.url), e.text)
  }

  /** The pages of a suite in the order the three nested loops visit the
      navigation items. */
  function Pages(suiteDest: Path, suite: string, nav: Nav): (r: seq<PageJob>)
    ensures |r| == |Flatten(nav)| == ItemCount(nav)
    ensures forall k :: 0 <= k < |r| ==> r[k] == PageOf(suiteDest, suite, Flatten(nav)[k])
  {
    FlattenCount(nav);
    var items := Flatten(nav);
    seq(|items|, k requires 0 <= k < |items| => PageOf(suiteDest, suite, items[k]))
  }

  /** Item `i` of widget group `w` of category `c` is the page at its
      `Position`, and every page is the page of some item. */
  lemma PagesFollowNavigation(suiteDest: Path, suite: string, nav: Nav, c: nat, w: nat, i: nat)
    requires IsItem(nav, c, w, i)
    ensures Position(nav, c, w, i) < |Pages(suiteDest, suite, nav)|
    ensures Pages(suiteDest, suite, nav)[Position(nav, c, w, i)]
            == PageOf(suiteDest, suite, nav[c].widgets[w].items[i])
  {
    FlattenAt(nav, c, w, i);
  }

  lemma PageHasItem(suiteDest: Path, suite: string, nav: Nav, k: nat) returns (c: nat, w: nat, i: nat)
    requires k < |Pages(suiteDest, suite, nav)|
    ensures IsItem(nav, c, w, i) && k == Position(nav, c, w, i)
    ensures Pages(suiteDest, suite, nav)[k] == PageOf(suiteDest, suite, nav[c].widgets[w].items[i])
  {
    FlattenCount(nav);
    c, w, i := FlattenIndex(nav, k);
  }

  /** The inner loop body, job by job: read the view (a missing view ends the
      run), create the page's directory, write the rendered page. */
  function WritePages(env: Env, fs: Fs, tmpl: string, jobs: seq<PageJob>): (r: Result<Fs>)
    ensures r.Ok? ==> forall k :: 0 <= k < |jobs| ==>
              jobs[k].output in r.value.files && Dirname(jobs[k].output) in r.value.dirs
    ensures r.Ok? ==> forall p :: p in r.value.files ==>
              p in fs.files || exists k :: 0 <= k < |jobs| && p == jobs[k].output
    ensures r.Ok? ==> fs.files.Keys <= r.value.files.Keys && fs.dirs <= r.value.dirs
    ensures r.Abort? ==> exists k :: 0 <= k < |jobs| && r.failure == MissingFile(jobs[k].view)
    decreases |jobs|
  {
    if |jobs| == 0 then Ok(fs)
    else
      var job := jobs[0];
      var body :- Read(fs, job.view);
      var next := Write(Mkdir(fs, Dirname(job.output)), job.output, env.render(tmpl, PageParams(body, job.title)));
      var r := WritePages(env, next, tmpl, jobs[1..]);
      assert forall k :: 1 <= k < |jobs| ==> jobs[k] == jobs[1..][k - 1];
      r
  }

  /** No page is written where a view is read. */
  ghost predicate Separate(jobs: seq<PageJob>) {
    forall k, j :: 0 <= k < |jobs| && 0 <= j < |jobs| ==> jobs[k].view != jobs[j].output
  }

  /** The tree after job 0, when its view exists. */
  function AfterFirst(env: Env, fs: Fs, tmpl: string, job: PageJob): (r: Fs)
    requires job.view in fs.files
    ensures forall p :: p != job.output ==> (p in r.files <==> p in fs.files)
    ensures forall p :: p != job.output && p in fs.files ==> r.files[p] == fs.files[p]
  {
    Write(Mkdir(fs, Dirname(job.output)), job.output, env.render(tmpl, PageParams(fs.files[job.view], job.title)))
  }

  lemma WritePagesStep(env: Env, fs: Fs, tmpl: string, jobs: seq<PageJob>)
    requires |jobs| > 0
    ensures jobs[0].view !in fs.files ==> WritePages(env, fs, tmpl, jobs) == Abort(MissingFile(jobs[0].view))
    ensures jobs[0].view in fs.files ==>
              WritePages(env, fs, tmpl, jobs) == WritePages(env, AfterFirst(env, fs, tmpl, jobs[0]), tmpl, jobs[1..])
    ensures forall k :: 1 <= k < |jobs| ==> jobs[k] == jobs[1..][k - 1]
    ensures Separate(jobs) ==> Separate(jobs[1..])
  {
  }

  /** When no page is written over a view, the pages are all written exactly
      when every view exists. */
  lemma {:induction false} PagesOutcome(env: Env, fs: Fs, tmpl: string, jobs: seq<PageJob>)
    requires Separate(jobs)
    ensures WritePages(env, fs, tmpl, jobs).Ok? <==> forall k :: 0 <= k < |jobs| ==> jobs[k].view in fs.files
    decreases |jobs|
  {
    if |jobs| > 0 {
      WritePagesStep(env, fs, tmpl, jobs);
      if jobs[0].view in fs.files {
        var next := AfterFirst(env, fs, tmpl, jobs[0]);
        PagesOutcome(env, next, tmpl, jobs[1..]);
        assert forall k :: 1 <= k < |jobs| ==> (jobs[k].view in next.files <==> jobs[k].view in fs.files);
      }
    }
  }

  /** Otherwise the run stops at the first missing view. */
  lemma {:induction false} PagesFirstMissing(env: Env, fs: Fs, tmpl: string, jobs: seq<PageJob>) returns (k: nat)
    requires Separate(jobs)
    requires WritePages(env, fs, tmpl, jobs).Abort?
    ensures k < |jobs| && jobs[k].view !in fs.files
    ensures forall j :: 0 <= j < k ==> jobs[j].view in fs.files
    ensures WritePages(env, fs, tmpl, jobs).failure == MissingFile(jobs[k].view)
    decreases |jobs|
  {
    WritePagesStep(env, fs, tmpl, jobs);
    if jobs[0].view in fs.files {
      var next := AfterFirst(env, fs, tmpl, jobs[0]);
      var k' := PagesFirstMissing(env, next, tmpl, jobs[1..]);
      k := k' + 1;
      assert jobs[k].view !in fs.files;
      forall j | 0 <= j < k
        ensures jobs[j].view in fs.files
      {
        if j > 0 {
          assert jobs[1..][j - 1].view in next.files;
        }
      }
    } else {
      k := 0;
    }
  }

  /** A path no page is written to keeps its file. */
  lemma {:induction false} PagesElsewhere(env: Env, fs: Fs, tmpl: string, jobs: seq<PageJob>, p: Path)
    requires forall k :: 0 <= k < |jobs| ==> jobs[k].output != p
    ensures WritePages(env, fs, tmpl, jobs).Ok? ==>
              && (p in WritePages(env, fs, tmpl, jobs).value.files <==> p in fs.files)
              && (p in fs.files ==> WritePages(env, fs, tmpl, jobs).value.files[p] == fs.files[p])
    decreases |jobs|
  {
    if |jobs| > 0 && jobs[0].view in fs.files {
      var job := jobs[0];
      var next := Write(Mkdir(fs, Dirname(job.output)), job.output,
                        env.render(tmpl, PageParams(fs.files[job.view], job.title)));
      assert forall k :: 1 <= k < |jobs| ==> jobs[k] == jobs[1..][k - 1];
      PagesElsewhere(env, next, tmpl, jobs[1..], p);
    }
  }

  /** The page of job `k`, when no later job writes the same path, is the
      example template rendered with the view's text and the item's title. */
  lemma {:induction false} PageContent(env: Env, fs: Fs, tmpl: string, jobs: seq<PageJob>, k: nat)
    requires Separate(jobs) && k < |jobs|
    requires forall j :: k < j < |jobs| ==> jobs[j].output != jobs[k].output
    requires WritePages(env, fs, tmpl, jobs).Ok?
    ensures jobs[k].view in fs.files
    ensures WritePages(env, fs, tmpl, jobs).value.files[jobs[k].output]
            == env.render(tmpl, PageParams(fs.files[jobs[k].view], jobs[k].title))
    decreases k
  {
    var job := jobs[0];
    WritePagesStep(env, fs, tmpl, jobs);
    var next := AfterFirst(env, fs, tmpl, job);
    if k == 0 {
      PagesElsewhere(env, next, tmpl, jobs[1..], job.output);
    } else {
      PageContent(env, next, tmpl, jobs[1..], k - 1);
      assert jobs[k].view != job.output;
    }
  }

  /** Pages and their directories all lie below `dir`, so nothing else
      changes. */
  lemma {:induction false} PagesConfined(env: Env, fs: Fs, tmpl: string, jobs: seq<PageJob>, dir: Path)
    requires forall k :: 0 <= k < |jobs| ==>
               AtOrUnder(jobs[k].output, dir) && AtOrUnder(Dirname(jobs[k].output), dir)
    ensures WritePages(env, fs, tmpl, jobs).Ok? ==> Confined(fs, WritePages(env, fs, tmpl, jobs).value, dir)
    decreases |jobs|
  {
    if |jobs| > 0 && jobs[0].view in fs.files {
      var job := jobs[0];
      var next := Write(Mkdir(fs, Dirname(job.output)), job.output,
                        env.render(tmpl, PageParams(fs.files[job.view], job.title)));
      assert forall k :: 1 <= k < |jobs| ==> jobs[k] == jobs[1..][k - 1];
      PagesConfined(env, next, tmpl, jobs[1..], dir);
      var made := Mkdir(fs, Dirname(job.output));
      ConfinedWiden(fs, made, Dirname(job.output), dir);
      ConfinedWiden(made, next, job.output, dir);
      ConfinedTrans(fs, made, next, dir);
      if WritePages(env, next, tmpl, jobs[1..]).Ok? {
        ConfinedTrans(fs, next, WritePages(env, next, tmpl, jobs[1..]).value, dir);
      }
    }
  }

  // ---------------------------------------------------------------------------
  // Suites and the whole example site

  /** `demos/mvc/App_Data/<suite>.nav.json`. */
  function NavFile(suite: string): Path {
    Join(Join(DemosRoot, AppDataDir), suite + ".nav.json")
  }

  /** `JSON.parse`: a document that does not parse throws, which ends the
      run. */
  function ParseNav(env: Env, file: Path, text: string): (r: Result<Nav>)
    ensures r.Ok? <==> env.parseNav(text).Some?
    ensures r.Ok? ==> r.value == env.parseNav(text).value
    ensures r.Abort? ==> r.failure == MalformedNavigation(file)
  {
    match env.parseNav(text)
    case None => Abort(MalformedNavigation(file))
    case Some(nav) => Ok(nav)
  }

  /** `examples/<suite>`. */
  function SuiteDest(dest: Path, suite: string): Path {
    Join(dest, suite)
  }

  /** The suite index written before the pages. */
  function WithSuiteIndex(env: Env, fs: Fs, suiteDest: Path, suiteTmpl: string, nav: Nav): (r: Fs)
    ensures Confined(fs, r, suiteDest)
    ensures suiteDest in r.dirs && fs.dirs <= r.dirs && fs.files.Keys <= r.files.Keys
    ensures Join(suiteDest, IndexPage) in r.files
    ensures r.files[Join(suiteDest, IndexPage)] == env.render(suiteTmpl, NavParams(nav))
    ensures forall p :: p != Join(suiteDest, IndexPage) ==> (p in r.files <==> p in fs.files)
    ensures forall p :: p != Join(suiteDest, IndexPage) && p in fs.files ==> r.files[p] == fs.files[p]
  {
    var made := Mkdir(fs, suiteDest);
    var r := Write(made, Join(suiteDest, IndexPage), env.render(suiteTmpl, NavParams(nav)));
    ChildUnder(suiteDest, IndexPage);
    ConfinedWiden(made, r, Join(suiteDest, IndexPage), suiteDest);
    ConfinedTrans(fs, made, r, suiteDest);
    r
  }

  /** Every page of a suite, and its directory, lies below the suite's
      directory. */
  lemma PagesBelowSuite(suiteDest: Path, suite: string, nav: Nav)
    ensures forall k :: 0 <= k < |Pages(suiteDest, suite, nav)| ==>
              && Under(Pages(suiteDest, suite, nav)[k].output, suiteDest)
              && AtOrUnder(Dirname(Pages(suiteDest, suite, nav)[k].output), suiteDest)
  {
    var pages := Pages(suiteDest, suite, nav);
    forall k | 0 <= k < |pages|
      ensures Under(pages[k].output, suiteDest) && AtOrUnder(Dirname(pages[k].output), suiteDest)
    {
      var url := Flatten(nav)[k].url;
      RelJoin(suiteDest, url);
      if |suiteDest| > 0 {
        DirnameJoin(suiteDest, url);
      }
    }
  }

  /** One iteration of `bundle.suites.forEach`: read and parse the
      navigation, write the suite index, then the pages. */
  function DeploySuite(env: Env, fs: Fs, dest: Path, suite: string, exampleTmpl: string, suiteTmpl: string)
    : (r: Result<Fs>)
    ensures r.Ok? ==> Confined(fs, r.value, SuiteDest(dest, suite))
    ensures r.Ok? ==> SuiteDest(dest, suite) in r.value.dirs && Join(SuiteDest(dest, suite), IndexPage) in r.value.files
    ensures r.Ok? ==> fs.dirs <= r.value.dirs && fs.files.Keys <= r.value.files.Keys
  {
    var text :- Read(fs, NavFile(suite));
    var nav :- ParseNav(env, NavFile(suite), text);
    var suiteDest := SuiteDest(dest, suite);
    var indexed := WithSuiteIndex(env, fs, suiteDest, suiteTmpl, nav);
    var r := WritePages(env, indexed, exampleTmpl, Pages(suiteDest, suite, nav));
    PagesBelowSuite(suiteDest, suite, nav);
    PagesConfined(env, indexed, exampleTmpl, Pages(suiteDest, suite, nav), suiteDest);
    if r.Ok? then
      ConfinedTrans(fs, indexed, r.value, suiteDest);
      r
    else r
  }

  /** `bundle.suites.forEach(...)`, suite by suite in list order. */
  function DeploySuites(env: Env, fs: Fs, dest: Path, suites: seq<string>, exampleTmpl: string, suiteTmpl: string)
    : (r: Result<Fs>)
    ensures r.Ok? ==> Confined(fs, r.value, dest)
    ensures r.Ok? ==> forall i :: 0 <= i < |suites| ==>
              SuiteDest(dest, suites[i]) in r.value.dirs && Join(SuiteDest(dest, suites[i]), IndexPage) in r.value.files
    ensures r.Ok? ==> fs.dirs <= r.value.dirs && fs.files.Keys <= r.value.files.Keys
    decreases |suites|
  {
    if |suites| == 0 then Ok(fs)
    else
      var next :- DeploySuite(env, fs, dest, suites[0], exampleTmpl, suiteTmpl);
      var r := DeploySuites(env, next, dest, suites[1..], exampleTmpl, suiteTmpl);
      ChildUnder(dest, suites[0]);
      ConfinedWiden(fs, next, SuiteDest(dest, suites[0]), dest);
      assert forall i :: 1 <= i < |suites| ==> suites[i] == suites[1..][i - 1];
      if r.Ok? then
        ConfinedTrans(fs, next, r.value, dest);
        r
      else r
  }

  /** `<root>/examples`. */
  function ExamplesDest(root: Path): Path {
    Join(root, ExamplesDir)
  }

  /** `examples/index.html` rendered from the bundle, then the shared
      `content` directory copied next to it. */
  function IndexAndContent(fs: Fs, dest: Path, bundleIndex: string): (r: Fs)
    ensures Confined(fs, r, dest)
    ensures dest in r.dirs && fs.dirs <= r.dirs && fs.files.Keys <= r.files.Keys
    ensures Join(dest, IndexPage) in r.files && r.files[Join(dest, IndexPage)] == bundleIndex
    ensures forall rel :: Join(Join(DemosRoot, ContentRoot), rel) in fs.files
                          && !AtOrUnder(Join(Join(DemosRoot, ContentRoot), rel), dest) ==>
              && Join(Join(dest, ContentRoot), rel) in r.files
              && r.files[Join(Join(dest, ContentRoot), rel)] == fs.files[Join(Join(DemosRoot, ContentRoot), rel)]
  {
    var made := Mkdir(fs, dest);
    var indexed := Write(made, Join(dest, IndexPage), bundleIndex);
    var r := CopyAll(indexed, Join(DemosRoot, ContentRoot), Join(dest, ContentRoot));
    IndexAndContentSteps(fs, made, indexed, r, dest);
    r
  }

  lemma IndexAndContentSteps(fs: Fs, made: Fs, indexed: Fs, r: Fs, dest: Path)
    requires Confined(fs, made, dest) && Confined(made, indexed, Join(dest, IndexPage))
    requires Confined(indexed, r, Join(dest, ContentRoot))
    ensures Confined(fs, r, dest)
    ensures Join(dest, IndexPage) in indexed.files ==> Unchanged(indexed, r, Join(dest, IndexPage))
    ensures forall p :: !AtOrUnder(p, dest) ==> Unchanged(fs, indexed, p)
  {
    ChildUnder(dest, IndexPage);
    ChildUnder(dest, ContentRoot);
    ConfinedWiden(made, indexed, Join(dest, IndexPage), dest);
    ConfinedTrans(fs, made, indexed, dest);
    ConfinedWiden(indexed, r, Join(dest, ContentRoot), dest);
    ConfinedTrans(fs, indexed, r, dest);
    SiblingsApart(dest, IndexPage, ContentRoot, Join(dest, IndexPage));
  }

  /** `deployExamples(root, bundle)`: read the three templates (in this
      order; a missing one ends the run), write the bundle index, copy the
      shared content, then deploy the suites. The asset paths are chosen
      but never used. */
  function DeployExamples(env: Env, fs: Fs, root: Path, b: Bundle): (r: Result<Fs>)
    ensures ExampleTemplate !in fs.files ==> r == Abort(MissingFile(ExampleTemplate))
    ensures ExampleTemplate in fs.files && SuiteIndexTemplate !in fs.files ==>
              r == Abort(MissingFile(SuiteIndexTemplate))
    ensures ExampleTemplate in fs.files && SuiteIndexTemplate in fs.files && BundleIndexTemplate !in fs.files ==>
              r == Abort(MissingFile(BundleIndexTemplate))
    ensures r.Ok? ==> Confined(fs, r.value, ExamplesDest(root))
    ensures r.Ok? ==> ExamplesDest(root) in r.value.dirs && Join(ExamplesDest(root), IndexPage) in r.value.files
    ensures r.Ok? ==> forall i :: 0 <= i < |b.suites| ==>
              && SuiteDest(ExamplesDest(root), b.suites[i]) in r.value.dirs
              && Join(SuiteDest(ExamplesDest(root), b.suites[i]), IndexPage) in r.value.files
  {
    var exampleTmpl :- Read(fs, ExampleTemplate);
    var suiteTmpl :- Read(fs, SuiteIndexTemplate);
    var bundleTmpl :- Read(fs, BundleIndexTemplate);
    var bundleIndex := env.render(bundleTmpl, BundleParams(b));
    var assets := SelectAssetPaths(b.hasSource);
    var dest := ExamplesDest(root);
    var staged := IndexAndContent(fs, dest, bundleIndex);
    var r := DeploySuites(env, staged, dest, b.suites, exampleTmpl, suiteTmpl);
    if r.Ok? then
      ConfinedTrans(fs, staged, r.value, dest);
      r
    else r
  }
}
