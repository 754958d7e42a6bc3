/**
 * The renderer's build configuration: the flags read from the environment, the externals
 * table, the Babel plugin list and the configuration object built from them.
 */
module SweetConfig {
  import ProcessEnv

  /** `process.env.NODE_ENV === 'development'`. */
  function IsDev(env: ProcessEnv.Env): bool
  {
    ProcessEnv.Equals(env, "NODE_ENV", "development")
  }

  /** `process.env.ANALYZER === 'true'`. */
  function Analyzer(env: ProcessEnv.Env): bool
  {
    ProcessEnv.Equals(env, "ANALYZER", "true")
  }

  // ---------------------------------------------------------------------------
  // HTML minification

  /** The `minifyJS` options. */
  datatype MinifyJs = MinifyJs(ecma: int, safari10: bool)

  /** `htmlWebpackPluginMinify`: `false`, or the minifier's options. */
  datatype HtmlMinify =
    | NoMinify
    | MinifyOptions(collapseWhitespace: bool, keepClosingSlash: bool, removeComments: bool,
                    removeRedundantAttributes: bool, removeScriptTypeAttributes: bool,
                    removeStyleLinkTypeAttributes: bool, useShortDoctype: bool,
                    minifyCSS: bool, minifyJS: MinifyJs)

  /** The options used outside development: every switch on, ES2020 with the Safari 10 fix. */
  const ProductionMinify: HtmlMinify :=
    MinifyOptions(true, true, true, true, true, true, true, true, MinifyJs(2020, true))

  /** No minification in development, the production options otherwise. */
  function HtmlWebpackPluginMinify(isDev: bool): HtmlMinify
  {
    if isDev then NoMinify else ProductionMinify
  }

  // ---------------------------------------------------------------------------
  // Externals

  /** The expression a module is loaded with at run time. */
  function RequireExpr(name: string): string
  {
    "globalThis.require('" + name + "')"
  }

  /** Different modules get different expressions: the name can be read back from the expression. */
  lemma RequireExprInjective(a: string, b: string)
    ensures RequireExpr(a) == RequireExpr(b) ==> a == b
  {
    var ea, eb := RequireExpr(a), RequireExpr(b);
    assert ea[20..|ea| - 2] == a;
    assert eb[20..|eb| - 2] == b;
  }

  /**
   * `nodeExternals`: one entry per module name, loaded with Node's own `require`; a name
   * listed twice keeps one entry.
   */
  method NodeExternals(node: seq<string>) returns (result: map<string, string>)
    ensures result.Keys == set i | 0 <= i < |node| :: node[i]
    ensures forall name :: name in result ==> result[name] == RequireExpr(name)
  {
    result := map[];
    for k := 0 to |node|
      invariant result.Keys == set i | 0 <= i < k :: node[i]
      invariant forall name :: name in result ==> result[name] == RequireExpr(name)
    {
      result := result[node[k] := RequireExpr(node[k])];
    }
  }

  /** The modules left to Node at run time. */
  const ExternalNames: seq<string> := [
    "child_process", "crypto", "fs", "net", "path", "process", "querystring", "stream",
    "url", "util", "zlib", "@electron/remote", "electron", "got", "puppeteer-core"
  ]

  /** The modules bundled into the dll. */
  const Dll: seq<string> := [
    "react", "react-dom", "prop-types", "@reduxjs/toolkit", "react-redux", "reselect",
    "react-router", "react-router-dom", "history"
  ]

  // ---------------------------------------------------------------------------
  // Babel plugins

  /** The Babel plugins the configuration uses, with their options. */
  datatype BabelPlugin =
    | Import(libraryName: string, libraryDirectory: string, style: bool)
    | RemovePropTypes(mode: string, removeImport: bool)

  /** Loads antd's ES modules and styles on demand. */
  const AntdImport: BabelPlugin := Import("antd", "es", true)

  /** Strips prop-types, together with their import. */
  const StripPropTypes: BabelPlugin := RemovePropTypes("remove", true)

  /**
   * The plugin list: the antd import plugin, with the prop-types stripper put in front of
   * it outside development.
   */
  method Plugins(isDev: bool) returns (plugins: seq<BabelPlugin>)
    ensures plugins != [] && plugins[|plugins| - 1] == AntdImport
    ensures isDev ==> plugins == [AntdImport]
    ensures !isDev ==> |plugins| == 2 && plugins[0] == StripPropTypes
  {
    plugins := [AntdImport];
    if !isDev {
      plugins := [StripPropTypes] + plugins;
    }
  }

  // ---------------------------------------------------------------------------
  // The configuration object

  /** The webpack plugins. */
  datatype WebpackPlugin = AntdDayjs | BundleAnalyzer

  /** An HTML page: its template (relative to the package) and its minification. */
  datatype HtmlPage = HtmlPage(template: string, minify: HtmlMinify)

  /** The parts of the configuration that depend on the environment or are built. */
  datatype Config = Config(
    frame: string,
    dll: seq<string>,
    entry: map<string, seq<string>>,
    html: seq<HtmlPage>,
    externals: map<string, string>,
    jsEcmascript: bool,
    jsPlugins: seq<BabelPlugin>,
    tsConfigFile: string,
    tsPlugins: seq<BabelPlugin>,
    webpackPlugins: seq<WebpackPlugin>)

  /** The default export, for the environment the build runs in. */
  method BuildConfig(env: ProcessEnv.Env) returns (config: Config)
    ensures config.frame == "react" && config.dll == Dll && config.jsEcmascript
    ensures config.entry == map["index" := ["src/index.tsx"],
                                "player" := ["src/pages/48/Pocket48/Player/Player.tsx"]]
    ensures |config.html| == 2
    ensures forall i :: 0 <= i < |config.html| ==> config.html[i].minify == HtmlWebpackPluginMinify(IsDev(env))
    ensures config.externals.Keys == set i | 0 <= i < |ExternalNames| :: ExternalNames[i]
    ensures forall name :: name in config.externals ==> config.externals[name] == RequireExpr(name)
    // one list shared by both loaders
    ensures config.jsPlugins == config.tsPlugins
    ensures IsDev(env) ==> config.jsPlugins == [AntdImport]
    ensures !IsDev(env) ==> config.jsPlugins == [StripPropTypes, AntdImport]
    ensures config.tsConfigFile == if IsDev(env) then "tsconfig.json" else "tsconfig.prod.json"
    // the analyzer only on request, after the dayjs replacement
    ensures config.webpackPlugins == if Analyzer(env) then [AntdDayjs, BundleAnalyzer] else [AntdDayjs]
  {
    var isDev := IsDev(env);
    var analyzer := Analyzer(env);
    var minify := HtmlWebpackPluginMinify(isDev);
    var plugins := Plugins(isDev);
    var externals := NodeExternals(ExternalNames);
    config := Config(
      "react",
      Dll,
      map["index" := ["src/index.tsx"], "player" := ["src/pages/48/Pocket48/Player/Player.tsx"]],
      [HtmlPage("src/index.pug", minify), HtmlPage("src/pages/48/Pocket48/Player/player.pug", minify)],
      externals,
      true,
      plugins,
      if isDev then "tsconfig.json" else "tsconfig.prod.json",
      plugins,
      [AntdDayjs] + (if analyzer then [BundleAnalyzer] else []));
  }
}
