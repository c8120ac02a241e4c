# sails-hook-shipwright, modelled in Dafny

The shipwright hook connects a Sails application to the Rsbuild bundler.
When Sails starts, the hook composes a default Rsbuild configuration from
the app's path and port, and creates the bundler. If `NODE_ENV` is
`production` it runs one build; otherwise it starts a dev server. Once the
bundler is created and the build or dev server has started, it installs two
view helpers, `shipwright.scripts` and `shipwright.styles`, which turn the
build manifest's `allFiles` list into `<script>` and `<link>` tags. If any of
these steps throws, the error is logged and the helpers are not installed.

This project models the parts of `index.js` that compute something:

- `tags.dfy` (module `Tags`) is the tag generator. `generateScripts` and
  `generateStyles` differ only in the suffix they keep (`.js` or `.css`)
  and in the HTML template they fill. So both are one `Accessor` value
  (`Tags.Scripts`, `Tags.Styles`) run through one loop, `Tags.Generate`.
  That method pushes a tag for each matching entry, as the `forEach` does,
  and then joins the tags with `'\n'`. It is proved against the
  specification functions `Entries` (the kept entries), `Tags` (the pushed
  tags) and `Render` (the joined string). The lemmas beside it cover
  manifest order, exact multiplicity, verbatim embedding, the separator
  and the empty result.
- `text.dfy` (module `Text`) holds the JavaScript string operations the
  hook uses: `endsWith`, `includes` and `Array.prototype.join`. A
  one-character `split` is the partner of `join`, with round trips proved
  in both directions.
- `config.dfy` (module `Config`) is the default configuration literal
  passed to `defineConfig`, as datatypes and functions. Its `dev.writeToDisk`
  filter is `Config.WriteToDisk`. `path.resolve` is modelled as appending
  plain segments to an absolute path.
- `lifecycle.dfy` (module `Lifecycle`) is the `NODE_ENV` test that picks
  production or development, and the `try`/`catch` around the bundler calls
  that decides whether the view helpers are installed.
- `wrappers.dfy` (module `Wrappers`) has an `Option` type for JavaScript's
  `undefined`.

The manifest's `allFiles` list is a parameter of the tag generator. The
hook itself reads it from `<appPath>/.tmp/public/manifest.json` with
`require`.

Three behaviours one might expect differ from what the code does, and the
model follows the code:
- A missing manifest makes `require` throw. The view helpers do not return
  the empty string in that case.
- An undefined `sails.config.port` is passed through as `server.port`. The
  field is not omitted.
- `require` caches the manifest after the first read. So the helpers do not
  reread it on every call.

## Model

| member | source | states |
|---|---|---|
| `Tags.Generate` | index.js:24-30 | the accumulate-then-join loop returns exactly `Render(acc, files)`: the tags of the kept entries, in manifest order, joined with a newline |
| `Tags.GenerateScripts` | index.js:22-31 | `generateScripts` over a given `allFiles` list returns the rendering of the script accessor (`.js` suffix, script template) |
| `Tags.GenerateStyles` | index.js:33-42 | `generateStyles` over a given `allFiles` list returns the rendering of the stylesheet accessor (`.css` suffix, link template) |
| `Tags.Entries` | index.js:25-29 | every kept entry ends with the suffix, and a file is kept exactly when it is in the manifest and ends with the suffix |
| `Tags.EntriesCount` | index.js:25-29 | each matching entry is kept exactly as many times as it occurs in the manifest; non-matching entries are never kept |
| `Tags.EntriesAppend` | index.js:25-29 | filtering distributes over concatenation, so manifest order is kept |
| `Tags.TagsAppend` | index.js:25-29 | the pushed-tag list distributes over concatenation, so the tags follow manifest order |
| `Tags.TagsOfEntries` | index.js:25-29 | the tag list has one tag per kept entry, and tag k wraps kept entry k |
| `Tags.TagParse` | index.js:27 | the entry can be read back verbatim from its tag (script template; the same holds for the link template at line 38), so different entries give different tags |
| `Tags.TagKindsDistinct` | index.js:27-38 | a script tag is never read as a stylesheet link, and a link is never read as a script tag |
| `Tags.ScriptsSingleLine` | index.js:27 | the script template has opening text and no line break |
| `Tags.StylesSingleLine` | index.js:38 | the link template has opening text and no line break |
| `Tags.TagNewlines` | index.js:27 | a tag contains a line break only when its entry does |
| `Tags.TagsMention` | index.js:25-29 | a tag for file f is in the output list exactly when f is a manifest entry with the accessor's suffix |
| `Tags.KindsDisjoint` | index.js:26-37 | no manifest entry is kept by both accessors, and no entry has a tag in both outputs |
| `Tags.OtherSuffixesIgnored` | index.js:36-41 | an entry ending in neither `.js` nor `.css` (an image, say) has a tag in neither output |
| `Tags.RenderEmpty` | index.js:30 | the output is the empty string exactly when no manifest entry has the suffix, including for an empty manifest |
| `Tags.RenderBounds` | index.js:30 | a non-empty output starts with the first kept entry's tag and ends with the last one's, so there is no leading or trailing separator |
| `Tags.RenderLines` | index.js:41 | when no entry contains a line break, splitting the output at newlines gives exactly the tag list: one line per kept entry |
| `Tags.ManifestExample` | index.js:22-42 | for `app.abc123.js`, `app.abc123.css`, `vendor.png`, the script output is exactly the one script tag, the style output is exactly the one link tag, and the image is in neither |
| `Text.ScriptStyleSuffixesExclusive` | index.js:26 | no string ends in both `.js` and `.css` (the suffix tested at line 37) |
| `Text.Contains` | index.js:112 | `includes`: true exactly when the substring occurs at some index |
| `Text.JoinStartsWith` | index.js:30 | a join of at least one part starts with the first part |
| `Text.JoinEndsWith` | index.js:30 | a join of at least one part ends with the last part: no trailing separator |
| `Text.JoinEmpty` | index.js:41 | a join of non-empty parts is empty exactly when there are no parts |
| `Text.SplitJoin` | index.js:30 | joining with c and then splitting on c gives back the parts, when no part contains c |
| `Text.JoinSplit` | index.js:30 | splitting on c and then joining with c gives back the string |
| `Config.WriteToDisk` | index.js:112 | the dev server writes an emitted file to disk exactly when its name contains `manifest.json` |
| `Config.WriteToDiskExamples` | index.js:112 | the manifest is written both by itself and under `.tmp/public`; `js/app.js` is not written |
| `Config.DefaultSource` | index.js:55-63 | exactly one entry, `app`, at `<appPath>/assets/js/app.js`; exactly two aliases: `~` is `<appPath>/assets` and `@` is its `js` directory, so the entry is `@/app.js` |
| `Config.DefaultCopyRules` | index.js:74-96 | four rules; each tolerates a missing source, reads from below `<appPath>/assets`, and writes below `<appPath>/.tmp/public` and never into the asset tree; rules 0-2 copy `images`, `fonts` and `dependencies` of the asset tree to the directory of the same name in the output directory; rule 3 copies `**/*.html` with the asset tree as context into the output directory itself |
| `Config.DefaultOutput` | index.js:64-97 | a manifest is emitted, `distPath.root` stays the relative string `.tmp/public`, and the copy rules are the default four |
| `Config.OutputRootIsPublicDir` | index.js:67 | the relative root splits into `.tmp` and `public`, and resolved against appPath it is the directory the copy rules write into |
| `Config.CopyTargetsMatchDistPath` | index.js:66-96 | the image and font rules write into the `image` and `font` subdirectories named by `distPath`; the `.html` rule writes into the output root, where `distPath.html` is `/` |
| `Config.DefaultConfig` | index.js:54-114 | the default configuration is well formed (an entry, a manifest, tolerant copy rules from the asset tree into the output directory); it passes the Sails port through unchanged, whatever its type and undefined included, with `strictPort` on and `printUrls` off; the HTML plugin is off; chunks use `split-by-experience`; and `writeToDisk` holds exactly for names containing `manifest.json` |
| `Lifecycle.SelectMode` | index.js:122 | production exactly when `NODE_ENV` is set and equal to `production`; any other value, or an unset variable, selects development |
| `Lifecycle.ModeDependsOnlyOnNodeEnv` | index.js:122 | two environments that agree on `NODE_ENV` select the same mode |
| `Lifecycle.Initialize` | index.js:120-146 | the helpers are installed exactly when `createRsbuild` resolves and then the selected mode's `build()` or `createDevServer()` resolves, and then with that mode; otherwise the error is logged and nothing is installed |
| `Lifecycle.InitializeAwaitsOnlyItsMode` | index.js:122-126 | a production start does not depend on `createDevServer`, and a development start does not depend on `build` |

## Left out

- `getManifestFiles` (index.js:11-21) reads the manifest with `require`. That is file I/O and goes through Node's module cache, so the list is a parameter instead. The model says nothing about a missing manifest: the code throws there.
- `mergeRsbuildConfig` (index.js:115-118) and the `defaults.shipwright.build` object (index.js:43-48) are left out. The merge happens inside the Rsbuild library, and its key-precedence and union rules cannot be seen in this code.
- `createRsbuild`, `build`, `createDevServer`, `afterListen` and `close` (index.js:119-138) are left out. They are asynchronous bundler calls whose behaviour lives outside this code. Whether `createRsbuild`, `build` and `createDevServer` resolve is a parameter of `Lifecycle.Initialize`.
- The `sails.after` and `sails.on` subscriptions are left out. So is registering the middleware and the `upgrade` handler on the shared HTTP server (index.js:126-139). This is event wiring in the Sails framework, and the model has no host server to attach to.
- The assignment to `sails.config.views.locals` (index.js:141-143) is modelled only as the `HelpersInstalled` outcome of `Lifecycle.Initialize`. It runs only after the bundler is created and the build or dev server has started, and a throw in any of those steps skips it. The object it assigns holds the two accessors, whose results are modelled. The assignment replaces any locals set before, and that is not modelled.
- `sails.log.error` in the `catch` (index.js:144-146) is logging only.
- `path.resolve` is modelled as appending plain segments to an absolute path. Normalisation of `.` and `..` and resolving against the working directory are not modelled.
- Config.OutputRootIsPublicDir: resolves the relative `distPath.root` against appPath. Rsbuild resolves it against its own root directory, which is the working directory by default. So the lemma describes the layout only when Sails is lifted from appPath.
- Config.DefaultConfig: `writeToDisk` is a function value in the model. Rsbuild calls it itself, and nothing here models how it calls it.
- Tags.GenerateScripts and Tags.GenerateStyles take `allFiles` as a sequence of strings. A non-string entry would make `endsWith` throw, and that is not modelled.
- `Tags.Tag` puts an entry into the template verbatim, as the code does. HTML escaping is not part of the code, so it is not modelled.
