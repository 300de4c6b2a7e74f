# Release packaging of the Kendo UI build script, modelled in Dafny

`build/build.js` packages a UI component library into one distributable
archive per licence variant. For each configured bundle (commercial, trial and
open-source editions of `kendoui.web-dataviz`) it does the following in order:

1. creates a staging root `deploy/<name>.<license>`;
2. deploys the minified scripts and styles, license-stamped with the rendered
   source licence. Bundles that ship source also get unminified copies below
   `source/`;
3. copies the licence agreements;
4. renders an example web site from each suite's navigation document and Razor
   views;
5. zips the root to `release/<name>.<VERSION>.<license>.zip` and copies that
   archive to its "latest" name.

The bundles run strictly one after another: each starts from the previous
bundle's zip callback. Before them the workspace is reset, the multi-part
scripts are merged and the themes are built.

The model works on an abstract file tree: a map from path to text, plus the
directories created by `mkdir`.

- **Uninterpreted collaborators.** The collaborators from modules that are not
  part of this model are fields of an `Env` value:
  - the CSS minifier and BOM stripping;
  - the template engine;
  - the script deployer;
  - the archiver;
  - the JSON parser;
  - the merge and theme steps;
  - the version and the year.
- **Failures.** A missing input file or an unparsable navigation document throws
  in the script and ends the whole process. The model records this as a
  `Failure` that stops the run.

Modules:

| module | file | what it holds |
|---|---|---|
| `Strings` | `strings.dfy` | `String.prototype.replace` with a string pattern (first occurrence only), `/x$/` and `/x$/i` tests. |
| `FileTree` | `filetree.dfy` | Paths, the tree, and the imported file helpers (`readText`, `writeText`, `mkdir`, `rmdirSyncRecursive`, `copyDirSyncRecursive`), described by their effect on the tree. |
| `Config` | `config.dfy` | The bundle list, the constants, and the staging-root and archive names. |
| `Navigation` | `navigation.dfy` | Parsed navigation documents and the order the three nested loops visit them. |
| `Env` | `env.dfy` | The uninterpreted collaborators. |
| `Scripts`, `Styles`, `Licenses`, `Examples` | `scripts.dfy`, `styles.dfy`, `licenses.dfy`, `examples.dfy` | `deployScripts`, `deployStyles`, `deployLicenses`, `deployExamples`. |
| `ExampleSite`, `SourceFlag` | `site.dfy`, `sourceflag.dfy` | What the example site contains, stated against its inputs, and the proof that `hasSource` changes no example page. |
| `BundleBuild` | `build.dfy` | `buildBundle`: the source licence, the four deploy steps, the two archives. |
| `Orchestration` | `release.dfy` | `initWorkspace`, `buildAllBundles` and the top-level statements; a run is described by the log of the steps it performed. |

Behaviour of the script worth knowing:

- **Directory and page names.**
  - Scripts land in `<root>/js`.
  - The bundle index is `examples/index.html`.
- **Asset paths.** The paths chosen by `hasSource` (lines 143-153) are never
  handed to any template. The example template sees only the view body and the
  title. So example pages do not link to different assets for bundles with
  source.
- **Failures.** Any failure ends the process, including one inside a single
  bundle.
- **Online examples.** The final "online examples" step never signals
  completion, because its `zip` call is commented out.
- **Step order within a bundle.** The log records a bundle's six steps in the
  order `buildBundle` calls them. That order comes from the body of
  `BundleBuild.DeploySteps` and `BundleBuild.Package`, which make the calls in
  that order. The log does not check it separately.

## Model

| member | source | states |
|---|---|---|
| `Strings.ReplaceFirst` | build/build.js:202 | With a string pattern, only the first occurrence is replaced, by `rep`. Without an occurrence the text is returned unchanged. |
| `Strings.IndexOf` | build/build.js:202 | The search finds an index exactly when the pattern occurs, and the index it finds is the first occurrence. |
| `Strings.ReplaceFirstLength` | build/build.js:104 | When the pattern occurs, a replacement changes the length by exactly the length of `rep` minus the length of `pat`. |
| `Strings.ReplaceFirstBehindPrefix` | build/build.js:202 | When a prefix holds no occurrence and ends in a character foreign to the pattern, the replacement acts only on the rest. |
| `Strings.ReplaceKeepsSuffix` | build/build.js:104 | A replacement that ends before the suffix keeps the suffix. |
| `Strings.Lower` | build/build.js:98 | The `i` flag's ASCII folding: same length, each character folded. |
| `FileTree.Read` | build/build.js:199 | `readText` succeeds exactly when the file exists and returns its text. Otherwise it fails with `MissingFile` for that path. |
| `FileTree.Write` | build/build.js:157 | `writeText` creates or overwrites exactly one file and changes nothing else. |
| `FileTree.Mkdir` | build/build.js:73-74 | `mkdir` adds exactly that directory and leaves the files alone. |
| `FileTree.Rmdir` | build/build.js:71 | `rmdirSyncRecursive` removes exactly the directory and everything below it. Removing an absent directory changes nothing. |
| `FileTree.CopyDir` | build/build.js:98 | Every file below the source whose relative name passes the filter appears under the same relative name below the destination. Anything else below the destination was already there. Nothing outside the destination changes. |
| `FileTree.CopyAll` | build/build.js:129-137 | The unfiltered copy places every source file under its relative name below the destination and changes nothing outside it. |
| `Config.DeployName` | build/build.js:197 | The name, the version and the licence can be read back from `<name>.<version>.<license>` at their positions, separated by single dots. |
| `Config.BundleRoot` | build/build.js:198 | The staging root lies directly below `deploy` under the relative name `<name>.<license>`. |
| `Config.PackageName` | build/build.js:201 | The archive lies below `release` under the relative name `<deploy name>.zip`, and ends in `.zip`. |
| `Config.LatestName` | build/build.js:202 | The latest name replaces the first occurrence of the version in the archive name by `latest`. Without an occurrence it is the archive name itself. |
| `Config.PackageNameInjective` | build/build.js:197-201 | For one bundle name and version, the archive name determines the licence. |
| `Config.LatestNameShape` | build/build.js:201-202 | If the version's first character does not occur in `release/<name>.`, the "latest" archive is `release/<name>.latest.<license>.zip`. |
| `Config.LatestNameEarlyMatch` | build/build.js:202 | The condition above cannot be weakened to "the version occurs neither in `release/` nor in the name". For name `k1` and version `1.1` the replacement yields `release/klatest.1.commercial.zip`. |
| `Config.ConfiguredLatestNames` | build/build.js:21-39 | For the three configured bundles and any version starting with a digit, the "latest" archive is `release/kendoui.web-dataviz.latest.<license>.zip`. |
| `Config.ConfiguredBundlesIsolated` | build/build.js:21-39 | No path lies at or below two configured staging roots. For every version the three archive names are pairwise distinct. |
| `Config.ConfiguredShape` | build/build.js:21-39 | All configured bundles share one name. Their licences differ in length, and no `<name>.<license>` holds a `/`. |
| `Config.InputOutsideStaging` | build/build.js:198 | Nothing below a staging root is a path outside `deploy`, so a bundle step never writes its own inputs. |
| `Navigation.FlattenCount` | build/build.js:174-176 | The three nested loops visit exactly as many examples as the document holds. |
| `Navigation.FlattenAt` | build/build.js:174-176 | Item `i` of widget group `w` of category `c` is visited at position `Position(c, w, i)`, which is category, then group, then item order. |
| `Navigation.FlattenIndex` | build/build.js:174-176 | Every visited example is an item of the document, visited at its `Position`. |
| `Scripts.DeployScripts` | build/build.js:77-90 | The deployer's minified output lands below `<root>/js`. With source, `source` and `source/js` exist. Nothing outside the root changes, and without source nothing outside `<root>/js` changes. |
| `Scripts.SourceScriptsDeployed` | build/build.js:85-89 | With source, the deployer's unminified output, built from the same sources, lands below `<root>/source/js`. |
| `Styles.MinNameShape` | build/build.js:104 | As a name, the renamed stylesheet is four characters longer and still ends in `.css`, even when an earlier `.css` is the one replaced. |
| `Styles.MinNameOfStylesheet` | build/build.js:104 | A stylesheet `<stem>.css` whose stem holds no `.css` becomes `<stem>.min.css`. |
| `Styles.MinNameInjective` | build/build.js:104 | Two stylesheets never receive the same new name. |
| `Styles.MinNameKeepsTopDir` | build/build.js:104-106 | The rename never moves a stylesheet into a top-level directory such as `mobile`. |
| `Styles.Minify` | build/build.js:99-105 | Every lower-case `.css` file below the directory is replaced by `license + cssmin(stripBOM(text))` under its `.min.css` name. Files without a `.css` ending stay. Every new stylesheet below the directory comes from one that was there. |
| `Styles.StampSources` | build/build.js:113-117 | Every `.less`/`.css` file below the directory becomes `license + stripBOM(text)` under its own name. The set of files does not change. |
| `Styles.DeployStyles` | build/build.js:92-120 | `<root>/styles` exists and holds nothing below `mobile`. With source, `source/styles` exists without `mobile`. For a plain root: nothing outside the root changes, and nothing outside the two style directories except the `source` entry. |
| `Styles.DeployMainStyles` | build/build.js:97-106 | `<root>/styles` exists and nothing remains below its `mobile`. For a plain root nothing outside `<root>/styles` changes. |
| `Styles.DeploySourceStyles` | build/build.js:108-119 | `source` and `source/styles` exist and nothing remains below `source/styles/mobile`. Nothing outside `source` changes, and below it only `source/styles` and the `source` entry itself. |
| `Styles.StylesheetsMinified` | build/build.js:97-106 | Every lower-case `.css` file below `styles` outside `mobile` ends up, license-stamped and minified, under its `.min.css` name below `<root>/styles`. |
| `Styles.OtherAssetsKept` | build/build.js:98 | Assets the case-insensitive filter takes that do not end in lower-case `.css` (`.CSS`, `.png`, …) keep their name and content. |
| `Styles.StylesOrigin` | build/build.js:97-106 | Starting from an empty `<root>/styles`, every file there afterwards is either a minified stylesheet under its `.min.css` name or an asset the filter took, unchanged. |
| `Styles.SourceStylesStamped` | build/build.js:108-119 | With source, every `.less`/`.css` file outside `mobile` appears below `<root>/source/styles` under its own name, license-stamped and not minified. Other assets appear there unchanged. |
| `Licenses.DeployLicenses` | build/build.js:122-138 | Both licence directories exist and only `LicenseAgreements` changes. Every EULA file lands below `LicenseAgreements` unless its name is `ThirdParty` or lies below it. The third-party notices land below `ThirdParty`. |
| `Examples.SelectAssetPaths` | build/build.js:143-153 | The asset paths point below `source/` exactly when the bundle has source, and at the `.min` files exactly when it has not. |
| `Examples.ViewNameOfPage` | build/build.js:178 | A page `<stem>.html` whose stem holds no `html` is rendered from `<stem>.cshtml`. |
| `Examples.ViewNameFirstOnly` | build/build.js:178 | Only the first `html` is replaced: `html5/video.html` reads the view `cshtml5/video.html`. |
| `Examples.DirnameJoin` | build/build.js:186 | The directory created for a page lies at or below the suite directory, and is the suite directory for a plain page name. |
| `Examples.Dirname` | build/build.js:186 | The directory of a path is `.`, `/`, or a proper prefix of the path that stops right before a `/`. |
| `Examples.Pages` | build/build.js:174-180 | One page per navigation item, in visiting order, at `<suite dir>/<url>`, read from `Views/<suite>/<view name>`. There are as many pages as items. |
| `Examples.PagesFollowNavigation` | build/build.js:174-180 | Item `i` of group `w` of category `c` yields the page at its `Position`. |
| `Examples.PageHasItem` | build/build.js:174-180 | Every page is the page of some item. |
| `Examples.WritePages` | build/build.js:176-188 | On success every page and its directory exist and no other file is created. A failure names the view of one of the pages; that this view is missing is stated by `Examples.PagesFirstMissing`. |
| `Examples.PagesOutcome` | build/build.js:182 | The page loop succeeds exactly when every view exists. |
| `Examples.PagesFirstMissing` | build/build.js:182 | A failing page loop stops at the first missing view, and every earlier view exists. |
| `Examples.PageContent` | build/build.js:181-187 | A page no later item overwrites is the example template rendered with its view's text and the item's title. |
| `Examples.ParseNav` | build/build.js:166-167 | A navigation document that does not parse fails with `MalformedNavigation` for its path. Otherwise the parsed document is used. |
| `Examples.IndexAndContent` | build/build.js:155-162 | Only `examples` changes. It holds `index.html` with the rendered bundle index, and every file of `demos/mvc/content` is copied below `examples/content`. |
| `Examples.DeploySuite` | build/build.js:164-191 | On success the suite's directory and index exist, no file or directory disappears, and nothing outside the suite's directory changes. |
| `Examples.DeploySuites` | build/build.js:164-191 | On success every suite's directory and index exist and nothing outside `examples` changes. |
| `Examples.DeployExamples` | build/build.js:140-192 | The three templates are read in order, and the first missing one is the failure. On success only `<root>/examples` changes and it holds the bundle index and every suite index. |
| `ExampleSite.SuiteOutcome` | build/build.js:164-190 | A suite deploys exactly when its navigation document exists and parses and every item's view exists. |
| `ExampleSite.SuitePage` | build/build.js:177-187 | Each item's page of a deployed suite is the rendered example template, unless a later item has the same URL. |
| `ExampleSite.SuiteIndex` | build/build.js:169-172 | The suite index is the suite template rendered with the navigation, unless an item's page is itself `index.html`. |
| `ExampleSite.SuiteWritesOnlyPages` | build/build.js:168-188 | A suite creates no file but its index and one page per item. |
| `ExampleSite.SuitesOutcome` | build/build.js:164-191 | The suites deploy exactly when every suite's inputs exist beforehand. No suite writes what a later one reads. |
| `ExampleSite.ExamplesOutcome` | build/build.js:140-192 | The example site is built exactly when the three templates exist and every suite's navigation parses and has all its views. |
| `ExampleSite.BundleIndexWritten` | build/build.js:147-157 | `examples/index.html` is the bundle template rendered with the bundle. |
| `ExampleSite.ContentCopied` | build/build.js:159-162 | Every file of `demos/mvc/content` is copied to `examples/content` and survives the suites. |
| `ExampleSite.ExamplesPage` | build/build.js:164-191 | Item `k` of suite `i` becomes `examples/<suite>/<url>`, the rendered example template, unless overwritten by a later item or suite of the same name. |
| `SourceFlag.ExamplesDependOnSuites` | build/build.js:140-192 | Two bundles with the same suites give example sites that differ at most in `examples/index.html`, or fail with the same failure. |
| `SourceFlag.ExamplesIgnoreSourceFlag` | build/build.js:143-153 | Flipping `hasSource` changes no page of the example site except the bundle index. |
| `BundleBuild.SourceLicense` | build/build.js:199-200 | The licence header is rendered from `resources/legal/src-license.txt` with the run's version and year. It fails with `MissingFile` exactly when that file is absent. |
| `BundleBuild.DeploySteps` | build/build.js:204-218 | On success the example site stands in the staging root: `examples`, its index, and every suite's directory and index. |
| `BundleBuild.Package` | build/build.js:219-220 | Both archives hold the archive of the staging root. Nothing but the two archive paths changes. |
| `BundleBuild.BuildBundle` | build/build.js:194-226 | A bundle either completes or fails. It fails before any step exactly when the source licence is missing. Otherwise a failure comes after scripts, styles and licences, in the examples step. |
| `BundleBuild.ArchivesOutsideDeploy` | build/build.js:201-202 | Both archive names lie outside `deploy`. |
| `BundleBuild.LicenseApartFromArchives` | build/build.js:199-202 | The source licence is neither of a bundle's archives nor below them. |
| `BundleBuild.Staging` | build/build.js:205-217 | The four deploy steps change only the staging root. With source, all three source directories exist. Without, nothing below `source` changes. No `mobile` styles remain. |
| `BundleBuild.BundleConfined` | build/build.js:194-226 | A built bundle changes nothing outside its staging root and its two archives. Both archives hold the archive of the staging root as it finally stands. |
| `BundleBuild.BundleSourcePolicy` | build/build.js:85-89 | With source, `source`, `source/js` and `source/styles` exist. Without source, from an empty staging root, nothing exists below `source`. |
| `BundleBuild.BundleWithoutMobile` | build/build.js:106-118 | A built bundle holds nothing below `styles/mobile`, nor below `source/styles/mobile` when it ships source. |
| `BundleBuild.BundleKeepsFiles` | build/build.js:194-226 | A built bundle removes no file outside its staging root. |
| `BundleBuild.BundleKeepsInput` | build/build.js:194-226 | A path outside `deploy` and apart from the bundle's archives comes through a built bundle unchanged. |
| `Orchestration.StepIndex` | build/build.js:204-220 | Each step has a position in the fixed order scripts, styles, licences, examples, zip, latest copy. |
| `Orchestration.ScheduleShape` | build/build.js:228-238 | The schedule lists step `k % 6` of bundle `from + k / 6` at position `k`. |
| `Orchestration.BuildAllBundles` | build/build.js:228-238 | A completed run performed all steps of every bundle from `ix` on, then called `success`. A stopped run performed all steps of the earlier bundles, then nothing or the first three steps of the failing one. |
| `Orchestration.AfterBundle` | build/build.js:232-234 | The next bundle starts only from the previous bundle's zip callback. A failure ends the run. |
| `Orchestration.ScheduleOrder` | build/build.js:228-238 | A schedule followed by `success` performs every step of every bundle exactly once: bundle order first, then step order, with `success` last. |
| `Orchestration.CompletedLog` | build/build.js:228-238 | The log of a completed run is in that order. |
| `Orchestration.MissingLicenseStopsFirst` | build/build.js:199 | Without the source licence the run stops before any step of the first bundle. |
| `Orchestration.LicenseSurvives` | build/build.js:199-217 | From a workspace holding the source licence, a bundle can fail only in its examples step and leaves the licence in place. |
| `Orchestration.StopsOnlyInExamples` | build/build.js:194-238 | With the source licence present, a stopped run ends after the scripts, styles and licence steps of the failing bundle. |
| `Orchestration.ArchivesKept` | build/build.js:219-238 | A completed run keeps every file that lay outside `deploy`, and holds both archives of every bundle. |
| `Orchestration.InitWorkspace` | build/build.js:70-75 | Afterwards `deploy` and `release` exist and nothing lies below `deploy`. Files outside `deploy` are untouched, and so are directories other than `release`. |
| `Orchestration.InitIdempotent` | build/build.js:70-75 | Initialising an initialised workspace changes nothing. |
| `Orchestration.Prepare` | build/build.js:248-255 | After the merge and theme steps, `deploy` is still empty and `release` exists. |
| `Orchestration.Release` | build/build.js:248-262 | A completed run performed every step of the three bundles exactly once in order and holds all six archives. A stopped run performed all earlier bundles, then nothing or the first three steps of the failing one. |
| `Orchestration.ClearedRootsVacant` | build/build.js:71-73 | After initialisation every staging root is empty. |
| `Orchestration.ConfiguredRootsPlain` | build/build.js:21-39 | No configured staging root contains `.css`, so the stylesheet rename never touches it. |

## Left out

- The helpers the script imports (`./kendo-build`, `./kendo-scripts`, `./themes`, `./lib/cssmin`, `fs`, `path`) are not part of this model. The file helpers are modelled by their effect on the tree, and the rest are uninterpreted.
- `processFilesRecursive` is modelled as one simultaneous pass. Its traversal order is not modelled, nor a tree holding both `x.css` and `x.min.css` beforehand, where sequential renaming could overwrite.
- `path.join` normalisation: paths are joined with `/` and assumed already normal. Directory names are plain.
- `JSON.parse`: the navigation document is taken as already parsed. The category order is the order `for…in` visits, taken as given.
- The zip byte format: `archive` is uninterpreted. The asynchronous `zip` is modelled as sequencing, with its callback running after the archive is written.
- `console.log`, the start date and the elapsed-time report are left out. The year is a parameter.
- `buildOnlineExamples` is modelled as the `Finished` event only. Its `zip` call is commented out, so the continuation after it never runs.
- A stopped run keeps its log and failure but not the partial tree an aborted process leaves behind.
- A missing EULA or third-party directory is modelled as copying nothing. The copy helper's behaviour on a missing source is not part of this model.
- `mergeScripts` and `themes.build` are assumed to write only below `src` and `styles`.
- `BundleBuild.Staging`, `BundleBuild.BundleConfined` and the other bundle lemmas assume a staging root without `.css` (`PlainRoot`). `Orchestration.ConfiguredRootsPlain` proves this for the configured bundles.
- `ExampleSite.BundleIndexWritten`, `ExampleSite.ContentCopied` and `ExampleSite.ExamplesPage` assume suite names without `/` and distinct from `index.html`/`content`, which holds for the configured suites.
- `Config.ConfiguredLatestNames` assumes a version that starts with a digit. `kendoBuild.generateVersion` is not part of this model.
- `Orchestration.Release` states the run's log and archives, not the contents of every bundle. Those are stated per bundle by the `BundleBuild` lemmas.
- `Styles.Minify`: the rename is modelled on the tree of paths, without requiring that the new name's directory exists. A stylesheet below a directory whose name contains `.css` (say `a.css/b.css`) would be renamed to `a.min.css/b.css`. That directory does not exist, so `fs.renameSync` throws, while the model succeeds. The configured staging roots contain no `.css` (`Orchestration.ConfiguredRootsPlain`).
- `Styles.StylesheetsMinified`, `Styles.StylesOrigin` and `Styles.DeployStyles` inherit that gap. For a stylesheet below a `*.css` directory they state an outcome the script does not reach.
- `Scripts.DeployScripts`: what `kendoScripts.deployScripts` writes is taken to lie below its destination directory. The deployer's output is placed, keyed relative to the destination, and nothing else is touched. `BundleBuild.BundleConfined` and the other frame statements rest on this.
- `Examples.Dirname`: the contract does not say that the `/` it stops at is the last one. Its use for page directories is stated by `Examples.DirnameJoin`.
- `Styles.MinName` and `Examples.ViewName` compute names only. What they produce is stated by `Styles.MinNameShape`, `Styles.MinNameOfStylesheet`, `Styles.MinNameInjective`, `Examples.ViewNameOfPage` and `Examples.ViewNameFirstOnly`.
- `BundleBuild.Package`: writing the archive and copying it to its latest name are taken to succeed. The same holds for `BundleBuild.BuildBundle`, `Orchestration.LicenseSurvives`, `Orchestration.StopsOnlyInExamples`, `Orchestration.BuildAllBundles` and `Orchestration.Release`. The model does not check that the target directories exist. For a version containing `/`, the archive would lie in a directory that does not exist, and `zip` would fail. For a version whose first occurrence starts inside `release/` (such as `e`), the latest name leaves `release`, and `kendoBuild.copyFileSync` would throw. In both cases the script stops at the zip or latest-copy step, while these members state a completed bundle or a stop only before any step or after the first three. `Config.LatestNameShape` shows that a version whose first character does not occur in `release/<name>.` keeps the latest name inside `release`. `kendoBuild.generateVersion` is not part of this model. `Config.ConfiguredLatestNames` assumes it yields a version that starts with a digit.
- `BundleBuild.BuildBundle`: does not model a stop at the zip or latest-copy step, for the reason given under `BundleBuild.Package`.
- `Orchestration.LicenseSurvives`: does not model a stop at the zip or latest-copy step, for the reason given under `BundleBuild.Package`.
- `Orchestration.StopsOnlyInExamples`: does not model a stop at the zip or latest-copy step, for the reason given under `BundleBuild.Package`.
- `Orchestration.BuildAllBundles`: does not model a stop at the zip or latest-copy step, for the reason given under `BundleBuild.Package`.
- `Orchestration.Release`: does not model a stop at the zip or latest-copy step, for the reason given under `BundleBuild.Package`.
