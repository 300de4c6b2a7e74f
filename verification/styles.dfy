/** Style deployment (build/build.js `deployStyles`): stylesheets and images
    are copied into the bundle, every `.css` file is license-stamped,
    minified and renamed to `.min.css`, the `mobile` subtree is dropped, and
    bundles that ship source get a second, unminified copy that also takes
    `.less` files. */
module Styles {
  import opened Wrappers
  import opened Strings
  import opened FileTree
  import opened Config
  import opened Env

  // ---------------------------------------------------------------------------
  // File-name rules

  /** `/\.css$/`, case-sensitive. */
  predicate IsCss(p: Path) {
    EndsWith(p, ".css")
  }

  /** `/\.(less|css)$/`, case-sensitive. */
  predicate IsSourceStyle(p: Path) {
    EndsWith(p, ".less") || EndsWith(p, ".css")
  }

  /** `/\.(css|png|jpg|jpeg|gif)$/i`: what the distributable copy takes. */
  predicate IsStyleAsset(p: Path) {
    || EndsWithIgnoringCase(p, ".css")
    || EndsWithIgnoringCase(p, ".png")
    || EndsWithIgnoringCase(p, ".jpg")
    || EndsWithIgnoringCase(p, ".jpeg")
    || EndsWithIgnoringCase(p, ".gif")
  }

  /** `/\.(less|css|png|jpg|jpeg|gif)$/i`: what the source copy takes. */
  predicate IsSourceStyleAsset(p: Path) {
    EndsWithIgnoringCase(p, ".less") || IsStyleAsset(p)
  }

  /** `fileName.replace(".css", ".min.css")`. */
  function MinName(p: Path): Path {
    ReplaceFirst(p, ".css", ".min.css")
  }

  /** The first `.css` of a stylesheet name and what the rename makes of it. */
  lemma MinNameSplit(p: Path) returns (i: nat)
    requires IsCss(p)
    ensures i + 4 <= |p| && FirstOccurrence(p, ".css", i)
    ensures !Contains(p[..i], ".css")
    ensures MinName(p) == p[..i] + ".min.css" + p[i + 4..]
  {
    assert OccursAt(p, ".css", |p| - 4);
    i := IndexOf(p, ".css").value;
    forall j ensures !OccursAt(p[..i], ".css", j) {
      if 0 <= j && j + 4 <= i {
        assert p[..i] + p[i..] == p;
        OccursInPrefix(p[..i], p[i..], ".css", j);
      }
    }
  }

  /** A stylesheet whose stem holds no `.css` is renamed `<stem>.min.css`. */
  lemma MinNameOfStylesheet(stem: Path)
    requires !Contains(stem, ".css")
    ensures MinName(stem + ".css") == stem + ".min.css"
  {
    FirstOccurrenceAtJoin(stem, ".css", ".css");
    assert (stem + ".css")[..|stem|] == stem;
    assert (stem + ".css")[|stem| + 4..] == [];
  }

  /** As a name, the renamed path is four characters longer and still ends
      in `.css`, even when an earlier `.css` is the one replaced. When that
      earlier `.css` belongs to a directory name, the new path lies in a
      directory that does not exist and `fs.renameSync` would fail; the
      tree model does not represent that failure. */
  lemma MinNameShape(p: Path)
    requires IsCss(p)
    ensures |MinName(p)| == |p| + 4
    ensures IsCss(MinName(p))
  {
    var i := MinNameSplit(p);
    assert p[|p| - 4] == '.';
    assert p[i..i + 4] == ".css";
    assert forall k :: i < k < i + 4 ==> p[k] == p[i..i + 4][k - i] != '.';
    if i < |p| - 4 {
      ReplaceKeepsSuffix(p, ".css", ".min.css", i, ".css");
    }
  }

  lemma NoCssBeforeMin(a: Path)
    requires !Contains(a, ".css")
    ensures !Contains(a + ".min", ".css")
  {
    AppendKeepsAbsent(a, '.', ".css");
    AppendKeepsAbsent(a + ['.'], 'm', ".css");
    AppendKeepsAbsent(a + ['.'] + ['m'], 'i', ".css");
    AppendKeepsAbsent(a + ['.'] + ['m'] + ['i'], 'n', ".css");
    assert a + ".min" == a + ['.'] + ['m'] + ['i'] + ['n'];
  }

  /** In a renamed stylesheet the first `.css` is the one the rename wrote. */
  lemma MinNameFirstCss(p: Path) returns (i: nat)
    requires IsCss(p)
    ensures i + 4 <= |p|
    ensures FirstOccurrence(MinName(p), ".css", i + 4)
    ensures MinName(p)[..i] == p[..i] && MinName(p)[i + 8..] == p[i + 4..]
    ensures p == p[..i] + ".css" + p[i + 4..]
  {
    i := MinNameSplit(p);
    var a := p[..i];
    var b := p[i + 4..];
    NoCssBeforeMin(a);
    assert (".css" + b)[..4] == ".css";
    FirstOccurrenceAtJoin(a + ".min", ".css" + b, ".css");
    assert MinName(p) == (a + ".min") + (".css" + b);
    assert p[i..i + 4] == ".css";
    assert p == a + p[i..i + 4] + b;
  }

  /** Two stylesheets never get the same new name. */
  lemma MinNameInjective(p: Path, q: Path)
    requires IsCss(p) && IsCss(q) && MinName(p) == MinName(q)
    ensures p == q
  {
    var i := MinNameFirstCss(p);
    var j := MinNameFirstCss(q);
    FirstOccurrenceUnique(MinName(p), ".css", i + 4, j + 4);
  }

  /** Below a directory whose path holds no `.css`, the rename acts on the
      name relative to that directory. */
  lemma MinNameBelow(dir: Path, rel: Path)
    requires !Contains(dir + "/", ".css")
    ensures MinName(Join(dir, rel)) == Join(dir, MinName(rel))
  {
    ReplaceFirstBehindPrefix(dir + "/", rel, ".css", ".min.css");
  }

  /** The rename never moves a stylesheet into a top-level directory whose
      name has no `.` (such as `mobile`) that it was not already in. */
  lemma MinNameKeepsTopDir(rel: Path, top: Path)
    requires IsCss(rel) && '.' !in top
    requires !Under(rel, top)
    ensures !Under(MinName(rel), top)
  {
    var i := MinNameSplit(rel);
    var m := MinName(rel);
    var t := top + "/";
    var a := rel[..i];
    assert m == a + (".min.css" + rel[i + 4..]);
    assert |m| == |rel| + 4;
    if |t| <= i {
      assert m[..|t|] == a[..|t|] == rel[..|t|];
    } else if |t| <= |m| {
      assert m[i] == '.';
      assert t[i] != '.' by {
        if i < |top| {
          assert top[i] in top;
        }
      }
    }
  }

  // ---------------------------------------------------------------------------
  // The two `processFiles` passes

  ghost predicate Stylesheet(fs: Fs, dir: Path, p: Path) {
    p in fs.files && Under(p, dir) && IsCss(p)
  }

  /** The files the `.css` pass leaves where they are. */
  function Unmatched(fs: Fs, dir: Path): (r: map<Path, string>)
    ensures forall q :: q in r <==> q in fs.files && !(Under(q, dir) && IsCss(q))
    ensures forall q :: q in r ==> r[q] == fs.files[q]
  {
    map q | q in fs.files && !(Under(q, dir) && IsCss(q)) :: fs.files[q]
  }

  /** The renamed, minified stylesheets. */
  function Minified(env: Env, fs: Fs, dir: Path, license: string): (r: map<Path, string>)
    ensures forall p :: Stylesheet(fs, dir, p) ==>
              MinName(p) in r && r[MinName(p)] == license + env.cssmin(env.stripBOM(fs.files[p]))
    ensures forall q :: q in r ==> IsCss(q) && exists p :: Stylesheet(fs, dir, p) && MinName(p) == q
  {
    forall p, q | Stylesheet(fs, dir, p) && Stylesheet(fs, dir, q) && MinName(p) == MinName(q)
      ensures p == q
    {
      MinNameInjective(p, q);
    }
    forall p | IsCss(p)
      ensures IsCss(MinName(p))
    {
      MinNameShape(p);
    }
    map p | p in fs.files && Under(p, dir) && IsCss(p) :: MinName(p) := license + env.cssmin(env.stripBOM(fs.files[p]))
  }

  /** `processFiles(dir, /\.css$/, ...)` as one step: every stylesheet below
      `dir` is replaced by its license-stamped, minified text under its
      `.min.css` name; other files stay. */
  function Minify(env: Env, fs: Fs, dir: Path, license: string): (r: Fs)
    ensures forall p :: Stylesheet(fs, dir, p) ==>
              MinName(p) in r.files && r.files[MinName(p)] == license + env.cssmin(env.stripBOM(fs.files[p]))
    ensures forall q :: q in fs.files && !IsCss(q) ==> q in r.files && r.files[q] == fs.files[q]
    ensures forall q :: q in r.files && !IsCss(q) ==> q in fs.files
    ensures forall q :: q in r.files && Under(q, dir) && IsCss(q) ==>
              exists p :: Stylesheet(fs, dir, p) && MinName(p) == q
    ensures r.dirs == fs.dirs
    ensures !Contains(dir + "/", ".css") ==> Confined(fs, r, dir)
  {
    var kept := Unmatched(fs, dir);
    var renamed := Minified(env, fs, dir, license);
    var r := fs.(files := kept + renamed);
    MinifyConfined(fs, r, dir, kept, renamed);
    r
  }

  lemma MinifyConfined(fs: Fs, r: Fs, dir: Path, kept: map<Path, string>, renamed: map<Path, string>)
    requires r.dirs == fs.dirs && r.files == kept + renamed
    requires forall q :: q in kept <==> q in fs.files && !(Under(q, dir) && IsCss(q))
    requires forall q :: q in kept ==> kept[q] == fs.files[q]
    requires forall q :: q in renamed ==> exists p :: Stylesheet(fs, dir, p) && MinName(p) == q
    ensures !Contains(dir + "/", ".css") ==> Confined(fs, r, dir)
  {
    if !Contains(dir + "/", ".css") {
      forall q | !AtOrUnder(q, dir)
        ensures Unchanged(fs, r, q)
      {
        if q in renamed {
          var p :| Stylesheet(fs, dir, p) && MinName(p) == q;
          MinNameBelow(dir, Rel(p, dir));
          JoinRel(p, dir);
          RelJoin(dir, MinName(Rel(p, dir)));
        }
      }
    }
  }

  /** `processFiles(dir, /\.(less|css)$/, ...)`: every `.less`/`.css` file
      below `dir` is license-stamped in place, without minifying or
      renaming. */
  function StampSources(env: Env, fs: Fs, dir: Path, license: string): (r: Fs)
    ensures r.files.Keys == fs.files.Keys && r.dirs == fs.dirs
    ensures forall p :: p in fs.files && Under(p, dir) && IsSourceStyle(p) ==>
              r.files[p] == license + env.stripBOM(fs.files[p])
    ensures Confined(fs, r, dir)
    ensures forall p :: p in fs.files && !IsSourceStyle(p) ==> r.files[p] == fs.files[p]
  {
    fs.(files := map p | p in fs.files ::
          if Under(p, dir) && IsSourceStyle(p) then license + env.stripBOM(fs.files[p]) else fs.files[p])
  }

  // ---------------------------------------------------------------------------
  // deployStyles

  /** A staging root whose path holds no `.css`: the stylesheet rename then
      only ever touches the part of a path below the styles directory. */
  ghost predicate PlainRoot(root: Path) {
    !Contains(root, ".css")
  }

  lemma PlainStylesDir(root: Path)
    requires PlainRoot(root)
    ensures !Contains(Join(root, StylesDir) + "/", ".css")
  {
    AbsentWithoutChar("styles/", ".css", 0);
    JoinKeepsAbsent(root, '/', "styles/", ".css");
    assert Join(root, StylesDir) + "/" == root + ['/'] + "styles/";
  }

  lemma CssOfJoin(dir: Path, rel: Path)
    ensures IsCss(Join(dir, rel)) <==> IsCss(rel)
    ensures IsSourceStyle(Join(dir, rel)) <==> IsSourceStyle(rel)
  {
    JoinEndsWith(dir, rel, ".css");
    JoinEndsWith(dir, rel, ".less");
  }

  /** Lower-case `.css` and `.less` pass the case-insensitive filters. */
  lemma StylesPassFilters(rel: Path)
    ensures IsCss(rel) ==> IsStyleAsset(rel)
    ensures IsSourceStyle(rel) ==> IsSourceStyleAsset(rel)
  {
    var l := Lower(rel);
    if EndsWith(rel, ".css") {
      assert l[|l| - 4..] == ".css";
    }
    if EndsWith(rel, ".less") {
      assert l[|l| - 5..] == ".less";
    }
  }

  /** The main copy: `<root>/styles`. */
  function StylesDest(root: Path): Path {
    Join(root, StylesDir)
  }

  /** The source copy: `<root>/source/styles`. */
  function SourceStylesDest(root: Path): Path {
    Join(Join(root, SourceDir), StylesDir)
  }

  /** Lines 97-106: copy, minify and rename, drop `mobile`. */
  function DeployMainStyles(env: Env, fs: Fs, root: Path, license: string): (r: Fs)
    ensures StylesDest(root) in r.dirs
    ensures Vacant(r, Join(StylesDest(root), MobileDir))
    ensures PlainRoot(root) ==> Confined(fs, r, StylesDest(root))
  {
    var dest := StylesDest(root);
    var a := Mkdir(fs, dest);
    var b := CopyDir(a, StylesRoot, dest, IsStyleAsset);
    var c := Minify(env, b, dest, license);
    var r := Rmdir(c, Join(dest, MobileDir));
    MainStylesSteps(fs, a, b, c, r, root);
    r
  }

  lemma MainStylesSteps(fs: Fs, a: Fs, b: Fs, c: Fs, r: Fs, root: Path)
    requires a == Mkdir(fs, StylesDest(root))
    requires Confined(a, b, StylesDest(root)) && b.dirs == a.dirs
    requires c.dirs == b.dirs
    requires !Contains(StylesDest(root) + "/", ".css") ==> Confined(b, c, StylesDest(root))
    requires r == Rmdir(c, Join(StylesDest(root), MobileDir))
    ensures StylesDest(root) in r.dirs
    ensures Vacant(r, Join(StylesDest(root), MobileDir))
    ensures PlainRoot(root) ==> Confined(fs, r, StylesDest(root))
  {
    var dest := StylesDest(root);
    var mobile := Join(dest, MobileDir);
    ChildUnder(dest, MobileDir);
    assert !AtOrUnder(dest, mobile) by {
      RelJoin(dest, MobileDir);
    }
    if PlainRoot(root) {
      PlainStylesDir(root);
      ConfinedTrans(fs, a, b, dest);
      ConfinedTrans(fs, b, c, dest);
      forall p | !AtOrUnder(p, dest)
        ensures Unchanged(c, r, p)
      {
        if AtOrUnder(p, mobile) {
          UnderTrans(p, mobile, dest);
        }
      }
      ConfinedTrans(fs, c, r, dest);
    }
  }

  /** Lines 108-118: the unminified, license-stamped copy that also takes
      `.less` files, without `mobile`. */
  function DeploySourceStyles(env: Env, fs: Fs, root: Path, license: string): (r: Fs)
    ensures Join(root, SourceDir) in r.dirs && SourceStylesDest(root) in r.dirs
    ensures Vacant(r, Join(SourceStylesDest(root), MobileDir))
    ensures Confined(fs, r, Join(root, SourceDir))
    ensures forall p :: !AtOrUnder(p, SourceStylesDest(root)) && p != Join(root, SourceDir) ==> Unchanged(fs, r, p)
  {
    var sourceRoot := Join(root, SourceDir);
    var dest := SourceStylesDest(root);
    var a := Mkdir(Mkdir(fs, sourceRoot), dest);
    var b := CopyDir(a, StylesRoot, dest, IsSourceStyleAsset);
    var c := StampSources(env, b, dest, license);
    var r := Rmdir(c, Join(dest, MobileDir));
    SourceStylesSteps(fs, a, b, c, r, root);
    r
  }

  lemma SourceStylesSteps(fs: Fs, a: Fs, b: Fs, c: Fs, r: Fs, root: Path)
    requires a == Mkdir(Mkdir(fs, Join(root, SourceDir)), SourceStylesDest(root))
    requires Confined(a, b, SourceStylesDest(root)) && b.dirs == a.dirs
    requires Confined(b, c, SourceStylesDest(root)) && c.dirs == b.dirs
    requires r == Rmdir(c, Join(SourceStylesDest(root), MobileDir))
    ensures Join(root, SourceDir) in r.dirs && SourceStylesDest(root) in r.dirs
    ensures Vacant(r, Join(SourceStylesDest(root), MobileDir))
    ensures Confined(fs, r, Join(root, SourceDir))
    ensures forall p :: !AtOrUnder(p, SourceStylesDest(root)) && p != Join(root, SourceDir) ==> Unchanged(fs, r, p)
  {
    var sourceRoot := Join(root, SourceDir);
    var dest := SourceStylesDest(root);
    var mobile := Join(dest, MobileDir);
    ChildUnder(sourceRoot, StylesDir);
    ChildUnder(dest, MobileDir);
    assert !AtOrUnder(dest, mobile) by {
      RelJoin(dest, MobileDir);
    }
    assert !AtOrUnder(sourceRoot, mobile) by {
      RelJoin(sourceRoot, StylesDir);
      RelJoin(dest, MobileDir);
    }
    forall p | !AtOrUnder(p, sourceRoot)
      ensures Unchanged(fs, r, p)
    {
      if AtOrUnder(p, dest) {
        UnderTrans(p, dest, sourceRoot);
      }
      if AtOrUnder(p, mobile) {
        UnderTrans(p, mobile, dest);
        UnderTrans(p, dest, sourceRoot);
      }
    }
    forall p | !AtOrUnder(p, dest) && p != sourceRoot
      ensures Unchanged(fs, r, p)
    {
      if AtOrUnder(p, mobile) {
        UnderTrans(p, mobile, dest);
      }
    }
  }

  /** `deployStyles(root, license, copySource)`. */
  function DeployStyles(env: Env, fs: Fs, root: Path, license: string, copySource: bool): (r: Fs)
    ensures StylesDest(root) in r.dirs
    ensures Vacant(r, Join(StylesDest(root), MobileDir))
    ensures copySource ==> Join(root, SourceDir) in r.dirs && SourceStylesDest(root) in r.dirs
    ensures copySource ==> Vacant(r, Join(SourceStylesDest(root), MobileDir))
    ensures PlainRoot(root) ==> Confined(fs, r, root)
    ensures PlainRoot(root) && !copySource ==> Confined(fs, r, StylesDest(root))
    ensures PlainRoot(root) ==> forall p ::
              !AtOrUnder(p, StylesDest(root)) && !AtOrUnder(p, SourceStylesDest(root)) && p != Join(root, SourceDir) ==>
                Unchanged(fs, r, p)
  {
    var m := DeployMainStyles(env, fs, root, license);
    var r := if copySource then DeploySourceStyles(env, m, root, license) else m;
    StylesSteps(fs, m, r, root, copySource);
    r
  }

  lemma StylesSteps(fs: Fs, m: Fs, r: Fs, root: Path, copySource: bool)
    requires StylesDest(root) in m.dirs
    requires Vacant(m, Join(StylesDest(root), MobileDir))
    requires PlainRoot(root) ==> Confined(fs, m, StylesDest(root))
    requires copySource ==> Join(root, SourceDir) in r.dirs && SourceStylesDest(root) in r.dirs
    requires copySource ==> Vacant(r, Join(SourceStylesDest(root), MobileDir))
    requires copySource ==> Confined(m, r, Join(root, SourceDir))
    requires copySource ==> forall p :: !AtOrUnder(p, SourceStylesDest(root)) && p != Join(root, SourceDir) ==> Unchanged(m, r, p)
    requires !copySource ==> r == m
    ensures StylesDest(root) in r.dirs
    ensures Vacant(r, Join(StylesDest(root), MobileDir))
    ensures copySource ==> Join(root, SourceDir) in r.dirs && SourceStylesDest(root) in r.dirs
    ensures copySource ==> Vacant(r, Join(SourceStylesDest(root), MobileDir))
    ensures PlainRoot(root) ==> Confined(fs, r, root)
    ensures PlainRoot(root) && !copySource ==> Confined(fs, r, StylesDest(root))
    ensures PlainRoot(root) ==> forall p ::
              !AtOrUnder(p, StylesDest(root)) && !AtOrUnder(p, SourceStylesDest(root)) && p != Join(root, SourceDir) ==>
                Unchanged(fs, r, p)
  {
    var mobile := Join(StylesDest(root), MobileDir);
    ChildUnder(root, StylesDir);
    if PlainRoot(root) {
      ConfinedWiden(fs, m, StylesDest(root), root);
    }
    if copySource {
      SourcePassKeepsMain(m, r, root);
      forall p | AtOrUnder(p, mobile)
        ensures p !in r.files && p !in r.dirs
      {
        ChildUnder(StylesDest(root), MobileDir);
        UnderTrans(p, mobile, StylesDest(root));
        assert Unchanged(m, r, p);
      }
      assert Unchanged(m, r, StylesDest(root));
      if PlainRoot(root) {
        ConfinedTrans(fs, m, r, root);
      }
    }
  }

  /** The source pass leaves `<root>/styles` alone. */
  lemma SourcePassKeepsMain(m: Fs, r: Fs, root: Path)
    requires Confined(m, r, Join(root, SourceDir))
    ensures Confined(m, r, root)
    ensures forall p :: AtOrUnder(p, StylesDest(root)) ==> Unchanged(m, r, p)
  {
    ChildUnder(root, SourceDir);
    ConfinedWiden(m, r, Join(root, SourceDir), root);
    forall p | AtOrUnder(p, StylesDest(root))
      ensures Unchanged(m, r, p)
    {
      SiblingsApart(root, StylesDir, SourceDir, p);
    }
  }
  /** The intermediate trees of the main pass. */
  lemma MainPassStates(env: Env, fs: Fs, root: Path, license: string) returns (b: Fs, c: Fs)
    ensures b == CopyDir(Mkdir(fs, StylesDest(root)), StylesRoot, StylesDest(root), IsStyleAsset)
    ensures c == Minify(env, b, StylesDest(root), license)
    ensures DeployMainStyles(env, fs, root, license) == Rmdir(c, Join(StylesDest(root), MobileDir))
  {
    b := CopyDir(Mkdir(fs, StylesDest(root)), StylesRoot, StylesDest(root), IsStyleAsset);
    c := Minify(env, b, StylesDest(root), license);
  }

  /** A relative name outside `mobile` stays outside `<dest>/mobile`. */
  lemma OutsideMobile(dest: Path, rel: Path)
    requires !AtOrUnder(rel, MobileDir)
    ensures !AtOrUnder(Join(dest, rel), Join(dest, MobileDir))
  {
    JoinAtOrUnder(dest, rel, MobileDir);
  }

  /** What the main pass leaves at a path below `<root>/styles` survives
      the source pass. */
  lemma MainPassSurvives(env: Env, fs: Fs, root: Path, license: string, copySource: bool, q: Path)
    requires AtOrUnder(q, StylesDest(root))
    ensures Unchanged(DeployMainStyles(env, fs, root, license), DeployStyles(env, fs, root, license, copySource), q)
  {
    var m := DeployMainStyles(env, fs, root, license);
    if copySource {
      SourcePassKeepsMain(m, DeploySourceStyles(env, m, root, license), root);
    }
  }

  /** The rename never moves a stylesheet into or out of `mobile`. */
  lemma MinNameOutsideMobile(rel: Path)
    requires IsCss(rel) && !AtOrUnder(rel, MobileDir)
    ensures !AtOrUnder(MinName(rel), MobileDir)
  {
    MinNameShape(rel);
    MinNameKeepsTopDir(rel, MobileDir);
  }

  /** The `.css` pass at one stylesheet, named relative to the directory. */
  lemma MinifyAt(env: Env, b: Fs, dest: Path, license: string, rel: Path)
    requires !Contains(dest + "/", ".css")
    requires Join(dest, rel) in b.files && IsCss(rel)
    ensures var c := Minify(env, b, dest, license);
      && Join(dest, MinName(rel)) in c.files
      && c.files[Join(dest, MinName(rel))] == license + env.cssmin(env.stripBOM(b.files[Join(dest, rel)]))
  {
    CssOfJoin(dest, rel);
    RelJoin(dest, rel);
    assert Stylesheet(b, dest, Join(dest, rel));
    MinNameBelow(dest, rel);
  }

  /** Every lower-case `.css` file below `styles` outside `mobile` ends up,
      license-stamped and minified, under its `.min.css` name below
      `<root>/styles`. */
  lemma StylesheetsMinified(env: Env, fs: Fs, root: Path, license: string, copySource: bool, rel: Path)
    requires PlainRoot(root)
    requires Join(StylesRoot, rel) in fs.files && IsCss(rel) && !AtOrUnder(rel, MobileDir)
    ensures var r := DeployStyles(env, fs, root, license, copySource);
      && Join(StylesDest(root), MinName(rel)) in r.files
      && r.files[Join(StylesDest(root), MinName(rel))]
         == license + env.cssmin(env.stripBOM(fs.files[Join(StylesRoot, rel)]))
  {
    var dest := StylesDest(root);
    var b, c := MainPassStates(env, fs, root, license);
    StylesPassFilters(rel);
    assert Join(dest, rel) in b.files && b.files[Join(dest, rel)] == fs.files[Join(StylesRoot, rel)];
    PlainStylesDir(root);
    MinifyAt(env, b, dest, license, rel);
    MinNameOutsideMobile(rel);
    OutsideMobile(dest, MinName(rel));
    ChildUnder(dest, MinName(rel));
    MainPassSurvives(env, fs, root, license, copySource, Join(dest, MinName(rel)));
  }

  /** Files the filter takes that do not end in lower-case `.css` (such as
      `.CSS` or `.png`) keep their name and content. */
  lemma OtherAssetsKept(env: Env, fs: Fs, root: Path, license: string, copySource: bool, rel: Path)
    requires Join(StylesRoot, rel) in fs.files && IsStyleAsset(rel) && !IsCss(rel)
    requires !AtOrUnder(rel, MobileDir)
    ensures var r := DeployStyles(env, fs, root, license, copySource);
      && Join(StylesDest(root), rel) in r.files
      && r.files[Join(StylesDest(root), rel)] == fs.files[Join(StylesRoot, rel)]
  {
    var dest := StylesDest(root);
    var b, c := MainPassStates(env, fs, root, license);
    assert Join(dest, rel) in b.files && b.files[Join(dest, rel)] == fs.files[Join(StylesRoot, rel)];
    CssOfJoin(dest, rel);
    OutsideMobile(dest, rel);
    ChildUnder(dest, rel);
    MainPassSurvives(env, fs, root, license, copySource, Join(dest, rel));
  }

  // ---------------------------------------------------------------------------
  // What ends up below `<root>/styles`: nothing but the copied assets

  /** A file left below `<root>/styles` by the main pass is either the
      minified form of a lower-case `.css` file below `styles`, or a file the
      filter took, unchanged under its own name. */
  lemma MainPassOrigin(env: Env, fs: Fs, root: Path, license: string, q: Path)
    requires PlainRoot(root) && Vacant(fs, StylesDest(root))
    requires q in DeployMainStyles(env, fs, root, license).files && Under(q, StylesDest(root))
    ensures var m := DeployMainStyles(env, fs, root, license);
      IsCss(q) ==> exists rel :: && Join(StylesRoot, rel) in fs.files && IsCss(rel)
                                 && q == Join(StylesDest(root), MinName(rel))
                                 && m.files[q] == license + env.cssmin(env.stripBOM(fs.files[Join(StylesRoot, rel)]))
    ensures var m := DeployMainStyles(env, fs, root, license);
      !IsCss(q) ==> && Join(StylesRoot, Rel(q, StylesDest(root))) in fs.files
                    && IsStyleAsset(Rel(q, StylesDest(root)))
                    && m.files[q] == fs.files[Join(StylesRoot, Rel(q, StylesDest(root)))]
  {
    var dest := StylesDest(root);
    var b, c := MainPassStates(env, fs, root, license);
    assert q in c.files;
    if IsCss(q) {
      var p :| Stylesheet(b, dest, p) && MinName(p) == q;
      assert p !in fs.files;
      var rel := Rel(p, dest);
      JoinRel(p, dest);
      CssOfJoin(dest, rel);
      PlainStylesDir(root);
      MinNameBelow(dest, rel);
      assert Join(StylesRoot, rel) in fs.files && IsCss(rel) && q == Join(dest, MinName(rel));
    } else {
      assert q in b.files && c.files[q] == b.files[q];
      assert q !in fs.files;
    }
  }

  /** Starting from an empty `<root>/styles`, every file below it after
      `deployStyles` comes from the copy: a minified stylesheet under its
      `.min.css` name, or another asset the filter took, unchanged. */
  lemma StylesOrigin(env: Env, fs: Fs, root: Path, license: string, copySource: bool, q: Path)
    requires PlainRoot(root) && Vacant(fs, StylesDest(root))
    requires q in DeployStyles(env, fs, root, license, copySource).files && Under(q, StylesDest(root))
    ensures var r := DeployStyles(env, fs, root, license, copySource);
      IsCss(q) ==> exists rel :: && Join(StylesRoot, rel) in fs.files && IsCss(rel)
                                 && q == Join(StylesDest(root), MinName(rel))
                                 && r.files[q] == license + env.cssmin(env.stripBOM(fs.files[Join(StylesRoot, rel)]))
    ensures var r := DeployStyles(env, fs, root, license, copySource);
      !IsCss(q) ==> && Join(StylesRoot, Rel(q, StylesDest(root))) in fs.files
                    && IsStyleAsset(Rel(q, StylesDest(root)))
                    && r.files[q] == fs.files[Join(StylesRoot, Rel(q, StylesDest(root)))]
  {
    MainPassSurvives(env, fs, root, license, copySource, q);
    MainPassOrigin(env, fs, root, license, q);
  }

  // ---------------------------------------------------------------------------
  // The source copy

  /** The intermediate trees of the source pass. */
  lemma SourcePassStates(env: Env, m: Fs, root: Path, license: string) returns (b: Fs, c: Fs)
    ensures b == CopyDir(Mkdir(Mkdir(m, Join(root, SourceDir)), SourceStylesDest(root)),
                         StylesRoot, SourceStylesDest(root), IsSourceStyleAsset)
    ensures c == StampSources(env, b, SourceStylesDest(root), license)
    ensures DeploySourceStyles(env, m, root, license) == Rmdir(c, Join(SourceStylesDest(root), MobileDir))
  {
    b := CopyDir(Mkdir(Mkdir(m, Join(root, SourceDir)), SourceStylesDest(root)),
                 StylesRoot, SourceStylesDest(root), IsSourceStyleAsset);
    c := StampSources(env, b, SourceStylesDest(root), license);
  }

  /** With source, every `.less`/`.css` file below `styles` outside `mobile`
      appears below `<root>/source/styles` under its own name,
      license-stamped but not minified; the other assets the source filter
      takes appear there unchanged. */
  lemma SourceStylesStamped(env: Env, fs: Fs, root: Path, license: string, rel: Path)
    requires PlainRoot(root) && Under(root, DeployRoot)
    requires Join(StylesRoot, rel) in fs.files && IsSourceStyleAsset(rel) && !AtOrUnder(rel, MobileDir)
    ensures var r := DeployStyles(env, fs, root, license, true);
      && Join(SourceStylesDest(root), rel) in r.files
      && r.files[Join(SourceStylesDest(root), rel)]
         == if IsSourceStyle(rel) then license + env.stripBOM(fs.files[Join(StylesRoot, rel)])
            else fs.files[Join(StylesRoot, rel)]
  {
    var dest := SourceStylesDest(root);
    var m := DeployMainStyles(env, fs, root, license);
    OutsideDeploy(Join(StylesRoot, rel), 0);
    InputOutsideStaging(Join(StylesRoot, rel), root, StylesDir);
    assert Unchanged(fs, m, Join(StylesRoot, rel));
    var b, c := SourcePassStates(env, m, root, license);
    assert Join(dest, rel) in b.files && b.files[Join(dest, rel)] == fs.files[Join(StylesRoot, rel)];
    CssOfJoin(dest, rel);
    RelJoin(dest, rel);
    OutsideMobile(dest, rel);
  }
}
