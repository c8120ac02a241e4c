/**
 * The default Rsbuild configuration the hook builds in `initialize` from the
 * Sails app's `appPath` and `port`, before the user's
 * `sails.config.shipwright.build` is merged over it.
 *
 * `path.resolve` is modelled as appending plain segments to an absolute
 * path; normalisation and the working directory are outside the model.
 */
module Config {
  import opened Wrappers
  import opened Text

  /** An absolute path, as its segments below the filesystem root. */
  datatype Path = Path(segments: seq<string>)

  /** `path.resolve(base, ...segments)` for plain segments. */
  function Resolve(base: Path, segments: seq<string>): Path {
    Path(base.segments + segments)
  }

  /** `p` is `dir` itself or lies somewhere below it. */
  predicate Under(p: Path, dir: Path) {
    dir.segments <= p.segments
  }

  /** `source`: the bundle entries and the import aliases. */
  datatype SourceConfig = SourceConfig(entry: map<string, Path>, alias: map<string, Path>)

  /** `output.distPath`: the output root and the per-type subdirectories, as written (relative). */
  datatype DistPath = DistPath(root: string, css: string, js: string, font: string, image: string, html: string)

  /** What a copy rule copies: a directory, or a glob matched below the rule's context. */
  datatype CopyFrom = FromDir(dir: Path) | FromGlob(pattern: string)

  /** One entry of `output.copy`. */
  datatype CopyRule = CopyRule(context: Option<Path>, from: CopyFrom, to: Path, noErrorOnMissing: bool)

  datatype OutputConfig = OutputConfig(manifest: bool, distPath: DistPath, copy: seq<CopyRule>)

  /** `server`; `port` is `sails.config.port` copied whatever its type, so its type is a parameter. */
  datatype ServerConfig<P> = ServerConfig(port: Option<P>, strictPort: bool, printUrls: bool)

  /** `dev`: the filter deciding which emitted files the dev server also writes to disk. */
  datatype DevConfig = DevConfig(writeToDisk: string -> bool)

  /** The configuration object passed to `defineConfig`. */
  datatype BuildConfig<P> = BuildConfig(
    source: SourceConfig,
    output: OutputConfig,
    htmlPlugin: bool,
    chunkSplitStrategy: string,
    server: ServerConfig<P>,
    dev: DevConfig)

  const ManifestName := "manifest.json"

  /** The asset directories copied unchanged into the output directory, in rule order. */
  const CopiedDirs := ["images", "fonts", "dependencies"]

  /** The asset source tree, `<appPath>/assets`. */
  function AssetsDir(appPath: Path): Path {
    Resolve(appPath, ["assets"])
  }

  /** The build output directory the copy rules write to, `<appPath>/.tmp/public`. */
  function PublicDir(appPath: Path): Path {
    Resolve(appPath, [".tmp", "public"])
  }

  /** The directory a copy rule reads from lies below `dir`. */
  predicate ReadsBelow(rule: CopyRule, dir: Path) {
    match rule.from
    case FromDir(d) => Under(d, dir)
    case FromGlob(_) => rule.context.Some? && Under(rule.context.value, dir)
  }

  /** `dev.writeToDisk`: an emitted file is written to disk exactly when its name contains "manifest.json". */
  function WriteToDisk(file: string): (b: bool)
    ensures b <==> exists i :: OccursAt(file, ManifestName, i)
  {
    Contains(file, ManifestName)
  }

  /** The manifest is always written, wherever it sits; a script bundle is not. */
  lemma WriteToDiskExamples()
    ensures WriteToDisk(ManifestName)
    ensures WriteToDisk(".tmp/public/manifest.json")
    ensures !WriteToDisk("js/app.js")
  {
    assert OccursAt(ManifestName, ManifestName, 0);
    var nested := ".tmp/public/manifest.json";
    assert nested[12..12 + |ManifestName|] == ManifestName;
    assert OccursAt(nested, ManifestName, 12);
  }

  /**
   * `source`: the single entry `app` is `<appPath>/assets/js/app.js`; the
   * alias `~` is the asset tree and `@` its `js` directory, so the entry is
   * `@/app.js`.
   */
  function DefaultSource(appPath: Path): (s: SourceConfig)
    ensures s.entry.Keys == {"app"} && s.alias.Keys == {"@", "~"}
    ensures s.entry["app"] == Resolve(appPath, ["assets", "js", "app.js"])
    ensures s.alias["~"] == AssetsDir(appPath)
    ensures s.alias["@"] == Resolve(s.alias["~"], ["js"])
    ensures s.entry["app"] == Resolve(s.alias["@"], ["app.js"])
  {
    SourceConfig(
      map["app" := Resolve(appPath, ["assets", "js", "app.js"])],
      map["@" := Resolve(appPath, ["assets", "js"]), "~" := Resolve(appPath, ["assets"])])
  }

  /** `output.copy`: images, fonts, vendored dependencies and every `.html` file under the asset tree. */
  function DefaultCopyRules(appPath: Path): (rules: seq<CopyRule>)
    ensures |rules| == 4
    ensures forall k :: 0 <= k < |rules| ==> rules[k].noErrorOnMissing
    ensures forall k :: 0 <= k < |rules| ==> Under(rules[k].to, PublicDir(appPath))
    ensures forall k :: 0 <= k < |rules| ==> ReadsBelow(rules[k], AssetsDir(appPath))
    ensures forall k :: 0 <= k < |rules| ==> !Under(rules[k].to, AssetsDir(appPath))
    ensures forall k :: 0 <= k < |CopiedDirs| ==>
      && rules[k].context == None
      && rules[k].from == FromDir(Resolve(AssetsDir(appPath), [CopiedDirs[k]]))
      && rules[k].to == Resolve(PublicDir(appPath), [CopiedDirs[k]])
    ensures rules[3].context == Some(AssetsDir(appPath))
    ensures rules[3].from == FromGlob("**/*.html") && rules[3].to == PublicDir(appPath)
  {
    var assets, public := AssetsDir(appPath), PublicDir(appPath);
    var rules := [
      CopyRule(None, FromDir(Resolve(appPath, ["assets", "images"])), Resolve(appPath, [".tmp", "public", "images"]), true),
      CopyRule(None, FromDir(Resolve(appPath, ["assets", "fonts"])), Resolve(appPath, [".tmp", "public", "fonts"]), true),
      CopyRule(None, FromDir(Resolve(appPath, ["assets", "dependencies"])), Resolve(appPath, [".tmp", "public", "dependencies"]), true),
      CopyRule(Some(Resolve(appPath, ["assets"])), FromGlob("**/*.html"), Resolve(appPath, [".tmp", "public"]), true)
    ];
    forall k | 0 <= k < |rules| ensures !Under(rules[k].to, assets) {
      var n := |appPath.segments|;
      assert rules[k].to.segments[n] == ".tmp" != assets.segments[n];
    }
    rules
  }

  /** `output.distPath`, with the values as written. */
  function DefaultDistPath(): DistPath {
    DistPath(".tmp/public", "css", "js", "fonts", "images", "/")
  }

  /** `output`: a manifest is emitted, along with the default dist paths and copy rules. */
  function DefaultOutput(appPath: Path): (o: OutputConfig)
    ensures o.manifest
    ensures o.distPath.root == ".tmp/public"
    ensures o.copy == DefaultCopyRules(appPath)
  {
    OutputConfig(true, DefaultDistPath(), DefaultCopyRules(appPath))
  }

  /**
   * The relative output root, split at its slashes and resolved against
   * `appPath`, is the directory every copy rule writes into.
   */
  lemma OutputRootIsPublicDir(appPath: Path)
    ensures Split(DefaultOutput(appPath).distPath.root, '/') == [".tmp", "public"]
    ensures Resolve(appPath, Split(DefaultOutput(appPath).distPath.root, '/')) == PublicDir(appPath)
  {
    var segs := [".tmp", "public"];
    assert '/' !in segs[0] && '/' !in segs[1];
    assert Join(segs, "/") == segs[0] + "/" + segs[1];
    assert segs[0] + "/" + segs[1] == DefaultDistPath().root;
    SplitJoin(segs, '/');
  }

  /**
   * The copy rules and the dist paths agree: the image and font rules write
   * into the image and font subdirectories the dist paths name, below the
   * output directory, and the `.html` rule into the output directory itself,
   * where `distPath.html` puts markup.
   */
  lemma CopyTargetsMatchDistPath(appPath: Path)
    ensures DefaultOutput(appPath).copy[0].to == Resolve(PublicDir(appPath), [DefaultOutput(appPath).distPath.image])
    ensures DefaultOutput(appPath).copy[1].to == Resolve(PublicDir(appPath), [DefaultOutput(appPath).distPath.font])
    ensures DefaultOutput(appPath).copy[3].to == PublicDir(appPath)
    ensures DefaultOutput(appPath).distPath.html == "/"
  {
  }

  /**
   * The invariants the composed configuration keeps: at least one entry, a
   * manifest, copy rules that never fail on a missing source and that read
   * from the asset tree and write only below the output directory, never
   * back into the asset tree.
   */
  ghost predicate WellFormed<P>(appPath: Path, c: BuildConfig<P>) {
    && |c.source.entry| >= 1
    && c.output.manifest
    && (forall k :: 0 <= k < |c.output.copy| ==> c.output.copy[k].noErrorOnMissing)
    && (forall k :: 0 <= k < |c.output.copy| ==> ReadsBelow(c.output.copy[k], AssetsDir(appPath)))
    && (forall k :: 0 <= k < |c.output.copy| ==> Under(c.output.copy[k].to, PublicDir(appPath)))
    && (forall k :: 0 <= k < |c.output.copy| ==> !Under(c.output.copy[k].to, AssetsDir(appPath)))
  }

  /**
   * The default configuration in `initialize`: well formed; the dev server
   * uses the Sails port as given (undefined included), refuses to move to
   * another port and prints no URLs; the HTML plugin is off; and the dev
   * server writes to disk exactly the files whose name contains the manifest
   * name.
   */
  function DefaultConfig<P>(appPath: Path, port: Option<P>): (c: BuildConfig<P>)
    ensures WellFormed(appPath, c)
    ensures c.source == DefaultSource(appPath) && c.output == DefaultOutput(appPath)
    ensures c.server.port == port && c.server.strictPort && !c.server.printUrls
    ensures !c.htmlPlugin && c.chunkSplitStrategy == "split-by-experience"
    ensures forall f :: c.dev.writeToDisk(f) <==> exists i :: OccursAt(f, ManifestName, i)
  {
    var s := DefaultSource(appPath);
    assert "app" in s.entry.Keys;
    BuildConfig(
      s,
      DefaultOutput(appPath),
      false,
      "split-by-experience",
      ServerConfig(port, true, false),
      DevConfig(WriteToDisk))
  }
}
