/** Everything the build script obtains from modules that are not part of
    this model, as uninterpreted values: the run's version and year, the CSS
    minifier, BOM stripping, the template engine, the script deployer, the
    archiver, the JSON parser for navigation documents, and the two
    whole-workspace steps run before the bundles. */
module Env {
  import opened Wrappers
  import opened FileTree
  import opened Navigation
  import opened Config

  /** What a template is rendered with. The example page template receives
      only a body and a title. */
  datatype Params =
    | LicenseParams(version: string, year: int)
    | BundleParams(bundle: Bundle)
    | NavParams(nav: Nav)
    | PageParams(body: string, title: string)

  datatype Env = Env(
    /** `kendoBuild.generateVersion()`, computed once per run. */
    version: string,
    /** `startDate.getFullYear()`. */
    year: int,
    cssmin: string -> string,
    stripBOM: string -> string,
    /** `template(text)(params)`. */
    render: (string, Params) -> string,
    /** `JSON.parse` of a navigation document; `None` when it throws. */
    parseNav: string -> Option<Nav>,
    /** `kendoScripts.deployScripts(src, dest, license, minify)`: the files it
        writes, relative to `dest`, from the script sources below `src`. */
    scripts: (map<Path, string>, string, bool) -> map<Path, string>,
    /** The archive text `zip` produces for a directory's files, keyed
        relative to that directory. */
    archive: map<Path, string> -> string,
    /** `kendoScripts.mergeScripts()`: the files it writes below `src`, from
        the script sources there. */
    mergeScripts: map<Path, string> -> map<Path, string>,
    /** `themes.build()`: the files it writes below `styles`, from the style
        sources there. */
    buildThemes: map<Path, string> -> map<Path, string>)
}
