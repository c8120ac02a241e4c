/**
 * The tag generator: the `scripts` and `styles` accessors the hook installs
 * into the view locals (`generateScripts` and `generateStyles`). Each walks
 * the manifest's `allFiles` list in order, keeps the entries with its
 * suffix, wraps each kept entry in a fixed HTML template and joins the tags
 * with a newline.
 *
 * The two accessors differ only in the suffix and the template, so both
 * are one `Accessor` value run through the same loop. The manifest list is
 * a parameter here; reading it from disk is outside the model.
 */
module Tags {
  import opened Wrappers
  import opened Text

  /** The suffix a manifest entry must end with, and the template text before and after a kept entry. */
  datatype Accessor = Accessor(suffix: string, opening: string, closing: string)

  const ScriptOpening := "<script type=\"text/javascript\" src=\""
  const ScriptClosing := "\"></script>"
  const StyleOpening := "<link rel=\"stylesheet\" href=\""
  const StyleClosing := "\">"

  /** `generateScripts`: `.js` entries as script tags. */
  const Scripts := Accessor(".js", ScriptOpening, ScriptClosing)

  /** `generateStyles`: `.css` entries as stylesheet links. */
  const Styles := Accessor(".css", StyleOpening, StyleClosing)

  /** A template that opens with some text and has no line break in it. */
  predicate SingleLine(acc: Accessor) {
    acc.opening != [] && '\n' !in acc.opening && '\n' !in acc.closing
  }

  /** The markup for one entry: the entry, verbatim, between the template's opening and closing text. */
  function Tag(acc: Accessor, file: string): string {
    acc.opening + file + acc.closing
  }

  /** Reads back the entry a tag of `acc` references, or None when `tag` is not such a tag. */
  function SourceOf(acc: Accessor, tag: string): Option<string> {
    var o, c := acc.opening, acc.closing;
    if |o| + |c| <= |tag| && tag[..|o|] == o && tag[|tag| - |c|..] == c
    then Some(tag[|o|..|tag| - |c|])
    else None
  }

  /** The manifest entries an accessor keeps: those ending in `suffix`, in manifest order. */
  function Entries(suffix: string, files: seq<string>): (kept: seq<string>)
    ensures forall k :: 0 <= k < |kept| ==> EndsWith(kept[k], suffix)
    ensures forall f :: f in kept <==> f in files && EndsWith(f, suffix)
    decreases |files|
  {
    if files == [] then []
    else (if EndsWith(files[0], suffix) then [files[0]] else []) + Entries(suffix, files[1..])
  }

  /** The tags the accessor's loop pushes, in manifest order. */
  function Tags(acc: Accessor, files: seq<string>): seq<string>
    decreases |files|
  {
    if files == [] then []
    else (if EndsWith(files[0], acc.suffix) then [Tag(acc, files[0])] else []) + Tags(acc, files[1..])
  }

  /** What the accessor returns: its tags joined with a newline. */
  function Render(acc: Accessor, files: seq<string>): string {
    Join(Tags(acc, files), "\n")
  }

  /** One accessor, as the `forEach` loop that pushes a tag for each matching entry, then `join('\n')`. */
  method Generate(acc: Accessor, manifestFiles: seq<string>) returns (html: string)
    ensures html == Render(acc, manifestFiles)
  {
    var tags: seq<string> := [];
    for i := 0 to |manifestFiles|
      invariant tags == Tags(acc, manifestFiles[..i])
    {
      var file := manifestFiles[i];
      if EndsWith(file, acc.suffix) {
        tags := tags + [Tag(acc, file)];
      }
      TagsAppend(acc, manifestFiles[..i], [file]);
      assert manifestFiles[..i + 1] == manifestFiles[..i] + [file];
    }
    assert manifestFiles[..|manifestFiles|] == manifestFiles;
    html := Join(tags, "\n");
  }

  /** `generateScripts`, with the manifest's `allFiles` passed in. */
  method GenerateScripts(manifestFiles: seq<string>) returns (html: string)
    ensures html == Render(Scripts, manifestFiles)
  {
    html := Generate(Scripts, manifestFiles);
  }

  /** `generateStyles`, with the manifest's `allFiles` passed in. */
  method GenerateStyles(manifestFiles: seq<string>) returns (html: string)
    ensures html == Render(Styles, manifestFiles)
  {
    html := Generate(Styles, manifestFiles);
  }

  /** The script template opens with text and has no line break. */
  lemma ScriptsSingleLine()
    ensures SingleLine(Scripts)
  {
    assert '\n' !in ScriptOpening;
    assert '\n' !in ScriptClosing;
  }

  /** The stylesheet template opens with text and has no line break. */
  lemma StylesSingleLine()
    ensures SingleLine(Styles)
  {
    assert '\n' !in StyleOpening;
    assert '\n' !in StyleClosing;
  }

  /** The entry can be read back from its tag, so different entries have different tags. */
  lemma TagParse(acc: Accessor, file: string)
    ensures SourceOf(acc, Tag(acc, file)) == Some(file)
  {
  }

  /** A script tag is never read as a stylesheet link, nor the other way round. */
  lemma TagKindsDistinct(file: string)
    ensures SourceOf(Styles, Tag(Scripts, file)) == None
    ensures SourceOf(Scripts, Tag(Styles, file)) == None
  {
    var s, l := Tag(Scripts, file), Tag(Styles, file);
    assert s[1] == Scripts.opening[1] == 's';
    assert l[1] == Styles.opening[1] == 'l';
    if |Styles.opening| <= |s| {
      assert s[..|Styles.opening|][1] == 's';
    }
    if |Scripts.opening| <= |l| {
      assert l[..|Scripts.opening|][1] == 'l';
    }
  }

  /** A tag of a single-line template has a line break exactly where its entry has one. */
  lemma TagNewlines(acc: Accessor, file: string)
    requires SingleLine(acc)
    ensures '\n' in Tag(acc, file) <==> '\n' in file
  {
  }

  /** The tag list is the kept entries, each wrapped in its tag. */
  lemma {:induction false} TagsOfEntries(acc: Accessor, files: seq<string>)
    ensures |Tags(acc, files)| == |Entries(acc.suffix, files)|
    ensures forall k :: 0 <= k < |Tags(acc, files)| ==> Tags(acc, files)[k] == Tag(acc, Entries(acc.suffix, files)[k])
    decreases |files|
  {
    if files != [] {
      TagsOfEntries(acc, files[1..]);
    }
  }

  /** Filtering keeps manifest order: it distributes over concatenation. */
  lemma {:induction false} EntriesAppend(suffix: string, a: seq<string>, b: seq<string>)
    ensures Entries(suffix, a + b) == Entries(suffix, a) + Entries(suffix, b)
    decreases |a|
  {
    if a != [] {
      EntriesAppend(suffix, a[1..], b);
      assert (a + b)[1..] == a[1..] + b;
    } else {
      assert a + b == b;
    }
  }

  /** The tag list keeps manifest order: it distributes over concatenation. */
  lemma {:induction false} TagsAppend(acc: Accessor, a: seq<string>, b: seq<string>)
    ensures Tags(acc, a + b) == Tags(acc, a) + Tags(acc, b)
    decreases |a|
  {
    if a != [] {
      TagsAppend(acc, a[1..], b);
      assert (a + b)[1..] == a[1..] + b;
    } else {
      assert a + b == b;
    }
  }

  /** Each matching manifest entry is kept exactly as often as it occurs; any other entry never. */
  lemma {:induction false} EntriesCount(suffix: string, files: seq<string>, f: string)
    ensures multiset(Entries(suffix, files))[f] == if EndsWith(f, suffix) then multiset(files)[f] else 0
    decreases |files|
  {
    if files != [] {
      EntriesCount(suffix, files[1..], f);
      assert files == [files[0]] + files[1..];
    }
  }

  /** A tag for `f` is in the accessor's tag list exactly when `f` is a manifest entry with the accessor's suffix. */
  lemma TagsMention(acc: Accessor, files: seq<string>, f: string)
    ensures Tag(acc, f) in Tags(acc, files) <==> f in files && EndsWith(f, acc.suffix)
  {
    var kept, tags := Entries(acc.suffix, files), Tags(acc, files);
    TagsOfEntries(acc, files);
    if Tag(acc, f) in tags {
      var k :| 0 <= k < |tags| && tags[k] == Tag(acc, f);
      TagParse(acc, f);
      TagParse(acc, kept[k]);
      assert f == kept[k];
    }
    if f in kept {
      var k :| 0 <= k < |kept| && kept[k] == f;
      assert tags[k] == Tag(acc, f);
    }
  }

  /** No manifest entry is kept by both accessors, and no entry has a tag in both outputs. */
  lemma KindsDisjoint(files: seq<string>, f: string)
    ensures !(f in Entries(".js", files) && f in Entries(".css", files))
    ensures !(Tag(Scripts, f) in Tags(Scripts, files) && Tag(Styles, f) in Tags(Styles, files))
  {
    ScriptStyleSuffixesExclusive(f);
    TagsMention(Scripts, files, f);
    TagsMention(Styles, files, f);
  }

  /** An entry with neither suffix (an image, say) has a tag in neither output. */
  lemma OtherSuffixesIgnored(files: seq<string>, f: string)
    requires !EndsWith(f, ".js") && !EndsWith(f, ".css")
    ensures Tag(Scripts, f) !in Tags(Scripts, files) && Tag(Styles, f) !in Tags(Styles, files)
  {
    TagsMention(Scripts, files, f);
    TagsMention(Styles, files, f);
  }

  /** The output is the empty string exactly when no manifest entry has the suffix (an empty manifest included). */
  lemma RenderEmpty(acc: Accessor, files: seq<string>)
    requires acc.opening != []
    ensures Render(acc, files) == "" <==> forall f :: f in files ==> !EndsWith(f, acc.suffix)
  {
    var kept, tags := Entries(acc.suffix, files), Tags(acc, files);
    TagsOfEntries(acc, files);
    forall k | 0 <= k < |tags| ensures tags[k] != "" {
      assert |tags[k]| >= |acc.opening|;
    }
    JoinEmpty(tags, "\n");
    if kept != [] {
      assert kept[0] in kept;
    }
  }

  /**
   * When something is kept, the output starts with the first kept entry's tag
   * and ends with the last one's: there is no leading or trailing separator.
   */
  lemma RenderBounds(acc: Accessor, files: seq<string>)
    requires Entries(acc.suffix, files) != []
    ensures StartsWith(Render(acc, files), Tag(acc, Entries(acc.suffix, files)[0]))
    ensures EndsWith(Render(acc, files), Tag(acc, Entries(acc.suffix, files)[|Entries(acc.suffix, files)| - 1]))
  {
    TagsOfEntries(acc, files);
    JoinStartsWith(Tags(acc, files), "\n");
    JoinEndsWith(Tags(acc, files), "\n");
  }

  /**
   * When no manifest entry contains a line break, the output splits at its
   * newlines into exactly the tag list: one line per kept entry, in order.
   */
  lemma RenderLines(acc: Accessor, files: seq<string>)
    requires SingleLine(acc)
    requires forall k :: 0 <= k < |files| ==> '\n' !in files[k]
    requires Entries(acc.suffix, files) != []
    ensures Split(Render(acc, files), '\n') == Tags(acc, files)
  {
    var kept, tags := Entries(acc.suffix, files), Tags(acc, files);
    TagsOfEntries(acc, files);
    forall k | 0 <= k < |tags| ensures '\n' !in tags[k] {
      assert kept[k] in files;
      TagNewlines(acc, kept[k]);
    }
    assert "\n" == ['\n'];
    SplitJoin(tags, '\n');
  }

  /** A manifest with a script, a stylesheet and an image: one tag each, and none for the image. */
  lemma ManifestExample()
    ensures Render(Scripts, ["app.abc123.js", "app.abc123.css", "vendor.png"])
         == Tag(Scripts, "app.abc123.js")
    ensures Render(Styles, ["app.abc123.js", "app.abc123.css", "vendor.png"])
         == Tag(Styles, "app.abc123.css")
  {
  }
}
