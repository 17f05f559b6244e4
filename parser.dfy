/** Parser: the configuration sets, the per-extension overview entries and
    the separate-tab file lists, filled by a walk over the project tree, and
    the footer totals that become the next time points. */
module Stats {
  import opened JavaString
  import opened FileTree
  import opened LineClassifier
  import opened OverView
  import opened TimePoints
  import opened Footers
  import ParsingUtil
  import Persistence

  /** A row of a separate tab, with the fields parseFile fills in. */
  datatype StatEntry = StatEntry(
    name: string,
    totalLines: int,
    sourceCodeLines: int,
    commentLines: int,
    docLines: int,
    blankLines: int)

  /** Files above this many bytes are counted with the buffered reader. */
  const LARGE_FILE_SIZE: int := 50000000

  /** The overview entries (as values) and the separate-tab lists. */
  datatype Totals = Totals(overview: map<string, EntryStats>, tabs: map<string, seq<StatEntry>>)

  /** The size a file passes to addValues: Files.size, or 0 when it throws. */
  function FileSize(data: FileData): int
  {
    if data.size.Some? then data.size.value else 0
  }

  /** The counters the line reader leaves on a separate-tab file's entry:
      none when Files.size throws first. */
  function DetailCounts(data: FileData): LineCounts
  {
    if data.size.Some? then Scan(data.lines).counts else LineCounts(0, 0, 0, 0)
  }

  /** The total of a separate-tab file: when Files.size or the line reader
      throws, the newline count of the raw bytes (if those can be read)
      replaces the lines counted so far. */
  function DetailTotal(data: FileData): int
  {
    if (data.size.None? || data.readFails) && data.bytes.Some? then ParsingUtil.NewlineCount(data.bytes.value)
    else DetailCounts(data).totalLines
  }

  /** The entry a separate-tab file yields from its counters and total;
      its code lines are the total minus blank, comment and doc lines, also
      on the fallback path, where the counters already bumped are kept. */
  function EntryOf(name: string, counts: LineCounts, totalLines: int): StatEntry
  {
    StatEntry(name, totalLines, totalLines - counts.blankLines - counts.commentLines - counts.docLines,
              counts.commentLines, counts.docLines, counts.blankLines)
  }

  function DetailEntry(name: string, data: FileData): StatEntry
  {
    EntryOf(name, DetailCounts(data), DetailTotal(data))
  }

  /** The size and the line count a file outside the separate tabs adds:
      the newline count of its bytes, or 0 when reading fails. */
  function PlainResult(data: FileData): (int, int)
  {
    if data.size.None? then (0, 0)
    else if data.bytes.None? then (data.size.value, 0)
    else (data.size.value, ParsingUtil.NewlineCount(data.bytes.value))
  }

  /** The overview after computeIfAbsent and addValues for one extension. */
  function AddedTo(overview: map<string, EntryStats>, extension: string, size: int, totalLines: int, sourceCodeLines: int)
    : map<string, EntryStats>
  {
    var prior := if extension in overview then overview[extension] else FreshStats();
    overview[extension := Added(prior, size, totalLines, sourceCodeLines)]
  }

  /** On the normal path (Files.size and the reader both succeed) a
      separate-tab file's total is its number of lines, and blank, comment,
      doc and code lines are non-negative and add up to that total. */
  lemma NormalPathEntry(name: string, data: FileData)
    requires data.size.Some? && !data.readFails
    ensures var entry := DetailEntry(name, data);
      && entry.name == name
      && entry.totalLines == |data.lines|
      && entry.blankLines >= 0 && entry.commentLines >= 0 && entry.docLines >= 0 && entry.sourceCodeLines >= 0
      && entry.blankLines + entry.commentLines + entry.docLines + entry.sourceCodeLines == entry.totalLines
  {
    ScanConsistent(data.lines);
  }

  /** On the fallback path the counters bumped before the reader threw are
      kept while the total is replaced by the newline count, so the code
      lines can come out negative. A carriage return, a full decoder buffer
      of plain letters and then a malformed byte: the strict reader delivers
      the first line, blank, before it decodes the second buffer and throws,
      and none of the file's bytes is a newline. */
  lemma FallbackCodeCanBeNegative()
    ensures var bytes: seq<ParsingUtil.Byte> := [13] + seq(8191, _ => 97) + [255];
      DetailEntry("a.java", FileData(Some(8193), [""], true, Some(bytes))).sourceCodeLines == -1
  {
    assert Scan([""]) == Step(Scan([]), "");
    assert Trim("") == "";
    var bytes: seq<ParsingUtil.Byte> := [13] + seq(8191, _ => 97) + [255];
    assert forall k :: 0 <= k < |bytes| ==> bytes[k] != ParsingUtil.NEWLINE;
    ParsingUtil.NewlineCountZero(bytes);
  }

  /** A file outside the separate tabs adds its size, its newline count and
      no code lines to its extension's entry (nothing when Files.size throws,
      no lines when reading its bytes throws), and changes nothing else. */
  lemma PlainFileAdds(t: Totals, separateTabs: set<string>, name: string, data: FileData, extension: string)
    requires extension !in separateTabs
    ensures var r := FileEffect(t, separateTabs, name, data, extension);
      var prior := if extension in t.overview then t.overview[extension] else FreshStats();
      var added := r.overview[extension];
      && r.tabs == t.tabs
      && (forall k :: k in t.overview && k != extension ==> r.overview[k] == t.overview[k])
      && added.count == prior.count + 1 && added.linesCode == prior.linesCode
      && (data.size.None? ==> added.sizeSum == prior.sizeSum && added.lines == prior.lines)
      && (data.size.Some? && data.bytes.None? ==> added.sizeSum == prior.sizeSum + data.size.value && added.lines == prior.lines)
      && (data.size.Some? && data.bytes.Some? ==>
            added.sizeSum == prior.sizeSum + data.size.value
            && added.lines == prior.lines + ParsingUtil.NewlineCount(data.bytes.value))
  {
  }

  /** What parseFile does to the overview and the tabs for one file. */
  function FileEffect(t: Totals, separateTabs: set<string>, name: string, data: FileData, extension: string): (r: Totals)
    requires extension in separateTabs ==> extension in t.tabs
    ensures r.tabs.Keys == t.tabs.Keys && r.overview.Keys == t.overview.Keys + {extension}
  {
    if extension in separateTabs then
      var entry := DetailEntry(name, data);
      Totals(AddedTo(t.overview, extension, FileSize(data), entry.totalLines, entry.sourceCodeLines),
             t.tabs[extension := t.tabs[extension] + [entry]])
    else
      var result := PlainResult(data);
      Totals(AddedTo(t.overview, extension, result.0, result.1, 0), t.tabs)
  }

  /** What parsing the given files one after another does (directories,
      which the walk never hands to parseFile, are passed over). */
  function WalkEffect(t: Totals, separateTabs: set<string>, files: seq<Node>): (r: Totals)
    requires separateTabs <= t.tabs.Keys
    ensures r.tabs.Keys == t.tabs.Keys
    decreases |files|
  {
    if |files| == 0 then t
    else
      var prev := WalkEffect(t, separateTabs, files[..|files| - 1]);
      var file := files[|files| - 1];
      if file.Dir? then prev
      else FileEffect(prev, separateTabs, file.name, file.data, ParsingUtil.FileExtension(file.name))
  }

  /** The total and code lines one parsed file adds to its overview entry. */
  function FileLines(separateTabs: set<string>, file: Node): (int, int)
    requires file.File?
  {
    var extension := ParsingUtil.FileExtension(file.name);
    if extension in separateTabs then
      var entry := DetailEntry(file.name, file.data);
      (entry.totalLines, entry.sourceCodeLines)
    else (PlainResult(file.data).1, 0)
  }

  /** How many files a walk parses, and the lines and code lines they add. */
  datatype Tally = Tally(files: int, lines: int, code: int)

  /** The footer's count, total lines and code lines are the tally's. */
  predicate Matches(footer: Footer, tally: Tally)
  {
    footer.count == tally.files && footer.lines == tally.lines && footer.linesCode == tally.code
  }

  function WalkTally(separateTabs: set<string>, files: seq<Node>): Tally
    decreases |files|
  {
    if |files| == 0 then Tally(0, 0, 0)
    else
      var prev := WalkTally(separateTabs, files[..|files| - 1]);
      var file := files[|files| - 1];
      if file.Dir? then prev
      else
        var added := FileLines(separateTabs, file);
        Tally(prev.files + 1, prev.lines + added.0, prev.code + added.1)
  }

  /** Parsing files moves the footer by exactly what those files add: one
      count per file, and their total and code lines, whichever extensions
      they fall under and whatever the order of the entries. */
  lemma {:induction false} WalkFooterTotals(t: Totals, separateTabs: set<string>, files: seq<Node>)
    requires separateTabs <= t.tabs.Keys && Counted(t.overview)
    ensures Counted(WalkEffect(t, separateTabs, files).overview)
    ensures var before, after := FooterTotal(t.overview), FooterTotal(WalkEffect(t, separateTabs, files).overview);
      var tally := WalkTally(separateTabs, files);
      && after.count == before.count + tally.files
      && after.lines == before.lines + tally.lines
      && after.linesCode == before.linesCode + tally.code
    decreases |files|
  {
    if |files| > 0 {
      var init, file := files[..|files| - 1], files[|files| - 1];
      WalkFooterTotals(t, separateTabs, init);
      if file.File? {
        FileFooterStep(WalkEffect(t, separateTabs, init), separateTabs, file);
      }
    }
  }

  /** From an empty overview, the footer after a walk counts exactly the
      files parsed and their total and code lines. */
  lemma WalkFromEmptyFooter(tabs: map<string, seq<StatEntry>>, separateTabs: set<string>, files: seq<Node>)
    requires separateTabs <= tabs.Keys
    ensures var after := WalkEffect(Totals(map[], tabs), separateTabs, files).overview;
      && Counted(after)
      && var footer, tally := FooterTotal(after), WalkTally(separateTabs, files);
      && footer.count == tally.files && footer.lines == tally.lines && footer.linesCode == tally.code
  {
    WalkFooterTotals(Totals(map[], tabs), separateTabs, files);
    assert Enumeration({}) == [];
  }

  /** Parsing one file adds one to the footer's file count, and that file's
      total and code lines to its line columns. */
  lemma FileFooterStep(t: Totals, separateTabs: set<string>, file: Node)
    requires separateTabs <= t.tabs.Keys && Counted(t.overview) && file.File?
    ensures var next := FileEffect(t, separateTabs, file.name, file.data, ParsingUtil.FileExtension(file.name));
      && Counted(next.overview)
      && var before, after, lines := FooterTotal(t.overview), FooterTotal(next.overview), FileLines(separateTabs, file);
      && after.count == before.count + 1
      && after.lines == before.lines + lines.0
      && after.linesCode == before.linesCode + lines.1
  {
    var extension := ParsingUtil.FileExtension(file.name);
    var next := FileEffect(t, separateTabs, file.name, file.data, extension);
    var lines := FileLines(separateTabs, file);
    var prior := if extension in t.overview then t.overview[extension] else FreshStats();
    var size := if extension in separateTabs then FileSize(file.data) else PlainResult(file.data).0;
    var e := Added(prior, size, lines.0, lines.1);
    assert next.overview == t.overview[extension := e];
    FooterAdd(t.overview, Enumeration(t.overview.Keys), extension, e, Enumeration(next.overview.Keys));
  }

  /** The extensions a ';'-separated setting lists. */
  function Elements(parts: seq<string>): set<string>
  {
    set part | part in parts
  }

  /** The excluded directories as configured, each normalised by Path.of. */
  function Normalized(dirs: seq<string>, normalize: string -> string): set<string>
  {
    set dir | dir in dirs :: normalize(dir)
  }

  /** The directories the four exclude checkboxes add under the project. */
  function BundleDirs(projectPath: string, separator: string, idea: bool, npm: bool, compiler: bool, git: bool)
    : set<string>
  {
    Bundle(projectPath + separator, idea, npm, compiler, git)
  }

  function Bundle(under: string, idea: bool, npm: bool, compiler: bool, git: bool): set<string>
  {
    IdeaDirs(under, idea) + NpmDirs(under, npm) + CompilerDirs(under, compiler) + GitDirs(under, git)
  }

  function IdeaDirs(under: string, idea: bool): set<string>
  {
    if idea then {under + ".idea"} else {}
  }

  function NpmDirs(under: string, npm: bool): set<string>
  {
    if npm then {under + "node_modules"} else {}
  }

  function CompilerDirs(under: string, compiler: bool): set<string>
  {
    if compiler then
      {under + "out", under + "build", under + "target", under + "cmake-build-debug", under + "cmake-build-release"}
    else {}
  }

  function GitDirs(under: string, git: bool): set<string>
  {
    if git then {under + ".git", under + ".gitignore", under + ".svn", under + ".hg"} else {}
  }

  lemma PrefixCancel(prefix: string, a: string, b: string)
    ensures prefix + a == prefix + b <==> a == b
  {
    if prefix + a == prefix + b {
      assert a == (prefix + a)[|prefix|..];
      assert b == (prefix + b)[|prefix|..];
    }
  }

  /** A checkbox excludes exactly its own directories: projectPath +
      separator + name is excluded by the bundles iff name is one of the
      ticked boxes' names, so build2 is never caught by build. */
  lemma BundleDirsExact(projectPath: string, separator: string, idea: bool, npm: bool, compiler: bool, git: bool,
                        name: string)
    ensures projectPath + separator + name in BundleDirs(projectPath, separator, idea, npm, compiler, git) <==>
      || (idea && name == ".idea")
      || (npm && name == "node_modules")
      || (compiler && name in {"out", "build", "target", "cmake-build-debug", "cmake-build-release"})
      || (git && name in {".git", ".gitignore", ".svn", ".hg"})
  {
    var under := projectPath + separator;
    assert under + name in IdeaDirs(under, idea) <==> idea && name == ".idea" by {
      PrefixCancel(under, name, ".idea");
    }
    assert under + name in NpmDirs(under, npm) <==> npm && name == "node_modules" by {
      PrefixCancel(under, name, "node_modules");
    }
    assert under + name in CompilerDirs(under, compiler)
      <==> compiler && name in {"out", "build", "target", "cmake-build-debug", "cmake-build-release"} by {
      PrefixCancel(under, name, "out");
      PrefixCancel(under, name, "build");
      PrefixCancel(under, name, "target");
      PrefixCancel(under, name, "cmake-build-debug");
      PrefixCancel(under, name, "cmake-build-release");
    }
    assert under + name in GitDirs(under, git) <==> git && name in {".git", ".gitignore", ".svn", ".hg"} by {
      PrefixCancel(under, name, ".git");
      PrefixCancel(under, name, ".gitignore");
      PrefixCancel(under, name, ".svn");
      PrefixCancel(under, name, ".hg");
    }
  }

  /** A type list written out with ';' reads back as the same types. */
  lemma TypeListRoundTrip(types: seq<string>)
    requires |types| >= 1 && types[|types| - 1] != ""
    requires forall i :: 0 <= i < |types| ==> ';' !in types[i]
    ensures Elements(Split(Join(types, ';'), ';')) == Elements(types)
  {
    SplitJoin(types, ';');
  }

  /** The parser. The source keeps the sets and maps in static fields shared
      by the one Parser there is; here they are fields of that Parser. */
  /** The overview and tabs right after resetCache: no entries, and an
      empty list for every separate-tab type. */
  function ResetTotals(separateTabs: set<string>): (r: Totals)
    ensures r.overview == map[] && r.tabs.Keys == separateTabs
    ensures forall tab :: tab in r.tabs ==> r.tabs[tab] == []
  {
    Totals(map[], map tab | tab in separateTabs :: [])
  }

  /** The overview and tabs after resetCache and a walk of root that
      parses the files the filter admits. */
  function Refreshed(separateTabs: set<string>, f: FileTree.Filter, root: Node): Totals
  {
    WalkEffect(ResetTotals(separateTabs), separateTabs, Visit(f, root))
  }

  /** After a refresh the footer's file, line and code counts are exactly
      the tallies of the files the walk admits. */
  lemma RefreshedFooter(separateTabs: set<string>, f: FileTree.Filter, root: Node)
    ensures Counted(Refreshed(separateTabs, f, root).overview)
    ensures Matches(FooterTotal(Refreshed(separateTabs, f, root).overview), WalkTally(separateTabs, Visit(f, root)))
  {
    var empty := ResetTotals(separateTabs);
    assert Totals(map[], empty.tabs) == empty;
    WalkFromEmptyFooter(empty.tabs, separateTabs, Visit(f, root));
  }

  class Parser {
    var excludedTypes: set<string>
    var excludedDirs: set<string>
    var separateTabs: set<string>
    var whiteListTypes: set<string>
    var overView: map<string, OverViewEntry>
    var tabs: map<string, seq<StatEntry>>
    var commitHappened: bool
    var commitText: string
    var projectPath: string
    var charset: ParsingUtil.Charset

    /** Distinct extensions own distinct entries, and every entry has been
        added to at least once. */
    ghost predicate Valid()
      reads this`overView, overView.Values
    {
      && Distinct()
      && Counted(StatsOf(overView))
    }

    /** Distinct extensions own distinct entries. */
    ghost predicate Distinct()
      reads this`overView
    {
      forall k1, k2 :: k1 in overView && k2 in overView && k1 != k2 ==> overView[k1] != overView[k2]
    }

    /** The overview entries as values, with the tabs. */
    function Contents(): Totals
      reads this`overView, this`tabs, overView.Values
    {
      Totals(StatsOf(overView), tabs)
    }

    /** The visitor's view of the sets. */
    function Filter(): FileTree.Filter
      reads this`excludedDirs, this`whiteListTypes, this`excludedTypes
    {
      FileTree.Filter(excludedDirs, whiteListTypes, excludedTypes)
    }

    constructor (projectPath: string)
      ensures excludedTypes == {} && excludedDirs == {} && separateTabs == {} && whiteListTypes == {}
      ensures overView == map[] && tabs == map[]
      ensures !commitHappened && commitText == "" && this.projectPath == projectPath
      ensures charset == ParsingUtil.Charset(Persistence.UTF_8)
      ensures Valid()
    {
      excludedTypes := {};
      excludedDirs := {};
      separateTabs := {};
      whiteListTypes := {};
      overView := map[];
      tabs := map[];
      commitHappened := false;
      commitText := "";
      this.projectPath := projectPath;
      charset := ParsingUtil.Charset(Persistence.UTF_8);
    }

    /** resetCache: no overview entries, and one empty list per separate-tab type. */
    method ResetCache()
      modifies this`overView, this`tabs
      ensures overView == map[]
      ensures tabs == map tab | tab in separateTabs :: []
      ensures Valid()
    {
      overView := map[];
      tabs := map[];
      var remaining := separateTabs;
      while remaining != {}
        invariant remaining <= separateTabs && overView == map[]
        invariant tabs == map tab | tab in separateTabs - remaining :: []
        decreases remaining
      {
        var tab :| tab in remaining;
        tabs := tabs[tab := []];
        remaining := remaining - {tab};
      }
      assert separateTabs - remaining == separateTabs;
    }

    /** updateState: the four sets are cleared and refilled from the saved
        settings, and the charset is looked up. Path.of's normalisation,
        File.separator and the supported charsets are parameters. Nothing
        the sets held before survives, so a second call gives the same sets. */
    method UpdateState(save: Persistence.PersistentSave, normalize: string -> string, separator: string,
                       supported: set<string>)
      modifies this`excludedTypes, this`excludedDirs, this`separateTabs, this`whiteListTypes, this`charset
      ensures excludedTypes == Elements(Split(save.excludedFileTypes, ';'))
      ensures separateTabs == Elements(Split(save.separateTabsTypes, ';'))
      ensures whiteListTypes == if save.includedFileTypes == "" then {} else Elements(Split(save.includedFileTypes, ';'))
      ensures excludedDirs == Normalized(save.excludedDirectories, normalize)
        + BundleDirs(projectPath, separator, save.excludeIdea, save.excludeNpm, save.excludeCompiler, save.excludeGit)
      ensures charset == ParsingUtil.CharsetFallback(save.charSet, ParsingUtil.Charset(Persistence.UTF_8), supported)
    {
      UpdateTypes(save.excludedFileTypes, save.separateTabsTypes, save.includedFileTypes);
      charset := ParsingUtil.CharsetFallback(save.charSet, ParsingUtil.Charset(Persistence.UTF_8), supported);
      UpdateDirectories(save.excludedDirectories, normalize, separator,
                        save.excludeIdea, save.excludeNpm, save.excludeCompiler, save.excludeGit);
    }

    /** The three type sets of updateState: each is cleared and refilled from
        its ';'-separated setting; an empty included setting leaves the
        whitelist empty. */
    method UpdateTypes(excluded: string, separate: string, included: string)
      modifies this`excludedTypes, this`separateTabs, this`whiteListTypes
      ensures excludedTypes == Elements(Split(excluded, ';'))
      ensures separateTabs == Elements(Split(separate, ';'))
      ensures whiteListTypes == if included == "" then {} else Elements(Split(included, ';'))
    {
      // clear() followed by addAll of the split setting
      excludedTypes := Elements(Split(excluded, ';'));
      separateTabs := Elements(Split(separate, ';'));
      whiteListTypes := {};
      if included != "" {
        whiteListTypes := Elements(Split(included, ';'));
      }
    }

    /** The directory part of updateState: the set is cleared, refilled with
        the normalised saved directories, then with the ticked bundles. */
    method UpdateDirectories(dirs: seq<string>, normalize: string -> string, separator: string,
                             idea: bool, npm: bool, compiler: bool, git: bool)
      modifies this`excludedDirs
      ensures excludedDirs == Normalized(dirs, normalize) + BundleDirs(projectPath, separator, idea, npm, compiler, git)
    {
      excludedDirs := {};
      ExcludeDirectories(dirs, normalize);
      ExcludeBundles(separator, idea, npm, compiler, git);
    }

    /** The loop over the saved excluded directories in updateState. */
    method ExcludeDirectories(dirs: seq<string>, normalize: string -> string)
      modifies this`excludedDirs
      ensures excludedDirs == old(excludedDirs) + Normalized(dirs, normalize)
    {
      ghost var start := excludedDirs;
      for i := 0 to |dirs|
        invariant excludedDirs == start + Normalized(dirs[..i], normalize)
      {
        assert dirs[..i + 1] == dirs[..i] + [dirs[i]];
        excludedDirs := excludedDirs + {normalize(dirs[i])};
      }
      assert dirs[..|dirs|] == dirs;
    }

    /** The checkbox part of updateState: each ticked box excludes its
        directories under the project path. */
    method ExcludeBundles(separator: string, idea: bool, npm: bool, compiler: bool, git: bool)
      modifies this`excludedDirs
      ensures excludedDirs == old(excludedDirs) + BundleDirs(projectPath, separator, idea, npm, compiler, git)
    {
      // each run of excludedDirs.add calls adds its directories as one set
      var under := projectPath + separator;
      var bundle: set<string> := {};
      if idea {
        bundle := bundle + {under + ".idea"};
      }
      if npm {
        bundle := bundle + {under + "node_modules"};
      }
      if compiler {
        bundle := bundle + {under + "out", under + "build", under + "target", under + "cmake-build-debug",
                            under + "cmake-build-release"};
      }
      if git {
        bundle := bundle + {under + ".git", under + ".gitignore", under + ".svn", under + ".hg"};
      }
      excludedDirs := excludedDirs + bundle;
    }

    /** parseFile(path, extension) for a file with the given name and data. */
    method ParseFile(name: string, extension: string, data: FileData)
      requires Valid()
      requires extension in separateTabs ==> extension in tabs
      modifies this`overView, this`tabs, overView.Values
      ensures fresh(overView.Values - old(overView.Values))
      ensures Valid()
      ensures Contents() == FileEffect(old(Contents()), separateTabs, name, data, extension)
    {
      ghost var was := StatsOf(overView);
      if extension in separateTabs {
        var statEntry, size := ParseDetailed(name, data);
        ghost var oldTabs := tabs;
        AddToOverView(extension, size, statEntry.totalLines, statEntry.sourceCodeLines);
        tabs := tabs[extension := tabs[extension] + [statEntry]];
        assert Contents() == Totals(AddedTo(was, extension, size, statEntry.totalLines, statEntry.sourceCodeLines),
                                    oldTabs[extension := oldTabs[extension] + [statEntry]]);
      } else {
        var size, lines := ParsePlain(data);
        AddToOverView(extension, size, lines, 0);
        assert Contents() == Totals(AddedTo(was, extension, size, lines, 0), tabs);
      }
    }

    /** Files.walkFileTree(node, visitor): preVisitDirectory skips an
        excluded directory with everything under it, and every file met is
        handed to visitFile. */
    method Walk(node: Node)
      requires Valid() && separateTabs <= tabs.Keys
      modifies this`overView, this`tabs, overView.Values
      ensures fresh(overView.Values - old(overView.Values))
      ensures Valid() && tabs.Keys == old(tabs.Keys)
      ensures Contents() == WalkEffect(old(Contents()), separateTabs, Visit(Filter(), node))
      decreases node
    {
      match node
      case File(_, _, _) =>
        VisitFile(node);
      case Dir(path, children) =>
        if path in excludedDirs {
          return;
        }
        ghost var before := Contents();
        ghost var filter := Filter();
        for i := 0 to |children|
          invariant fresh(overView.Values - old(overView.Values))
          invariant Valid() && tabs.Keys == old(tabs.Keys) && Filter() == filter
          invariant Contents() == WalkEffect(before, separateTabs, VisitAll(filter, children[..i]))
        {
          ghost var mid := Contents();
          Walk(children[i]);
          assert Contents() == WalkEffect(mid, separateTabs, Visit(filter, children[i]));
          VisitAllStep(before, separateTabs, filter, children, i);
        }
        assert children[..|children|] == children;
    }

    /** visitFile: the file is parsed when its extension passes the
        whitelist test (a whitelist is set) or the exclude test (none is). */
    method VisitFile(file: Node)
      requires file.File?
      requires Valid() && separateTabs <= tabs.Keys
      modifies this`overView, this`tabs, overView.Values
      ensures fresh(overView.Values - old(overView.Values))
      ensures Valid() && tabs.Keys == old(tabs.Keys)
      ensures Contents() == WalkEffect(old(Contents()), separateTabs, Visit(Filter(), file))
    {
      var extension := ParsingUtil.FileExtension(file.name);
      ghost var before := Contents();
      // the whitelist test when a whitelist is set, the exclude test otherwise
      var parsed := if whiteListTypes == {} then extension != "" && extension !in excludedTypes
                    else extension in whiteListTypes;
      assert Visit(Filter(), file) == if parsed then [file] else [];
      WalkEffectOne(before, separateTabs, file);
      if parsed {
        ParseFile(file.name, extension, file.data);
      }
    }

    /** updatePane: the caches are reset, the tree under the project path
        is walked, and the tables and time points are rebuilt. The footer,
        and so both new samples, count exactly the files the walk parses,
        with their total and code lines. The separate-tab types and the
        filter are those in force when the update starts; updatePane does
        not change them. */
    method UpdatePane(root: Node, save: Persistence.PersistentSave, now: int, hourOf: int -> int, date: string)
        returns (footer: Footer)
      modifies this`overView, this`tabs, this`commitHappened, save`commitTimePoints, save`genericTimePoints
      requires root.path == projectPath
      ensures Valid() && Contents() == Refreshed(old(separateTabs), old(Filter()), root)
      ensures Counted(Contents().overview) && footer == FooterTotal(Contents().overview)
      ensures Matches(footer, WalkTally(old(separateTabs), Visit(old(Filter()), root)))
      ensures !commitHappened
      ensures old(commitHappened) ==>
        save.commitTimePoints
        == Persistence.AfterAdd(old(save.commitTimePoints), COMMIT, TimePoint(now, footer.linesCode, footer.lines, commitText), now, hourOf)
      ensures !old(commitHappened) ==> save.commitTimePoints == old(save.commitTimePoints)
      ensures save.genericTimePoints
        == Persistence.AfterAdd(old(save.genericTimePoints), GENERIC, TimePoint(now, footer.linesCode, footer.lines, date), now, hourOf)
    {
      ResetAndIterate(root);
      assert commitHappened == old(commitHappened);
      assert save.commitTimePoints == old(save.commitTimePoints) && save.genericTimePoints == old(save.genericTimePoints);
      footer := RebuildTabbedPane(save, now, hourOf, date);
      RefreshedFooter(old(separateTabs), old(Filter()), root);
    }

    /** The background task's resetCache() followed by iterateFiles(): the
        overview and the tabs are rebuilt from nothing by the walk. */
    method ResetAndIterate(root: Node)
      modifies this`overView, this`tabs
      ensures Valid() && Contents() == Refreshed(old(separateTabs), old(Filter()), root)
    {
      ResetCache();
      assert Contents() == ResetTotals(separateTabs);
      Walk(root);
      assert separateTabs == old(separateTabs) && Filter() == old(Filter());
    }

    /** The footer part of rebuildTabbedPane: the rows of the overview
        entries, in the map's iteration order, are summed column by column;
        the totals become a COMMIT sample (only after a commit, which is then
        marked as handled) and a GENERIC sample. The clock reading, the
        hour-of-day function and the formatted date are parameters. */
    method RebuildTabbedPane(save: Persistence.PersistentSave, now: int, hourOf: int -> int, date: string)
        returns (footer: Footer)
      requires Valid()
      modifies this`commitHappened, save`commitTimePoints, save`genericTimePoints
      ensures Valid() && Contents() == old(Contents())
      ensures Counted(old(Contents()).overview) && footer == FooterTotal(old(Contents()).overview)
      ensures !commitHappened
      ensures old(commitHappened) ==>
        save.commitTimePoints
        == Persistence.AfterAdd(old(save.commitTimePoints), COMMIT, TimePoint(now, footer.linesCode, footer.lines, commitText), now, hourOf)
      ensures !old(commitHappened) ==> save.commitTimePoints == old(save.commitTimePoints)
      ensures save.genericTimePoints
        == Persistence.AfterAdd(old(save.genericTimePoints), GENERIC, TimePoint(now, footer.linesCode, footer.lines, date), now, hourOf)
    {
      footer := SumRows();
      RecordSamples(save, footer, now, hourOf, date);
    }

    /** The end of rebuildTabbedPane: the footer's code and total lines
        become a COMMIT sample labelled with the commit text (only after a
        commit, which is then marked as handled) and a GENERIC sample
        labelled with the date. */
    method RecordSamples(save: Persistence.PersistentSave, footer: Footer, now: int, hourOf: int -> int, date: string)
      modifies this`commitHappened, save`commitTimePoints, save`genericTimePoints
      ensures unchanged(overView.Values)
      ensures !commitHappened
      ensures old(commitHappened) ==>
        save.commitTimePoints
        == Persistence.AfterAdd(old(save.commitTimePoints), COMMIT, TimePoint(now, footer.linesCode, footer.lines, commitText), now, hourOf)
      ensures !old(commitHappened) ==> save.commitTimePoints == old(save.commitTimePoints)
      ensures save.genericTimePoints
        == Persistence.AfterAdd(old(save.genericTimePoints), GENERIC, TimePoint(now, footer.linesCode, footer.lines, date), now, hourOf)
    {
      if commitHappened {
        save.AddTimePoint(COMMIT, TimePoint(now, footer.linesCode, footer.lines, commitText), now, hourOf);
        commitHappened := false;
      }
      save.AddTimePoint(GENERIC, TimePoint(now, footer.linesCode, footer.lines, date), now, hourOf);
    }

    /** The loop of rebuildTabbedPane over overView.entrySet(): every
        entry's row is added to the footer once, in the map's (unspecified)
        iteration order. */
    method SumRows() returns (footer: Footer)
      requires Valid()
      ensures Counted(Contents().overview) && footer == FooterTotal(Contents().overview)
    {
      var stats := Contents().overview;
      footer := SumFooter(stats);
    }

    /** overView.computeIfAbsent(extension, ...) followed by addValues on
        the entry: only that extension's entry changes. */
    method AddToOverView(extension: string, size: int, totalLines: int, sourceCodeLines: int)
      requires Valid()
      modifies this`overView, overView.Values
      ensures fresh(overView.Values - old(overView.Values))
      ensures Valid()
      ensures StatsOf(overView) == AddedTo(old(StatsOf(overView)), extension, size, totalLines, sourceCodeLines)
    {
      ghost var was := StatsOf(overView);
      var entry := EntryFor(extension);
      ghost var prior := entry.Stats();
      AddValuesAt(extension, size, totalLines, sourceCodeLines);
      UpdateTwice(was, extension, prior, Added(prior, size, totalLines, sourceCodeLines));
    }

    /** overView.get(extension).addValues(...): only that entry changes. */
    method AddValuesAt(extension: string, size: int, totalLines: int, sourceCodeLines: int)
      requires extension in overView && Distinct()
      modifies overView[extension]
      ensures StatsOf(overView) == old(StatsOf(overView))[extension := Added(old(overView[extension].Stats()), size, totalLines, sourceCodeLines)]
    {
      ghost var was := StatsOf(overView);
      overView[extension].AddValues(size, totalLines, sourceCodeLines);
      forall k | k in overView && k != extension
        ensures StatsOf(overView)[k] == was[k]
      {
        assert overView[k] != overView[extension];
      }
    }

    /** overView.computeIfAbsent(extension, k -> new OverViewEntry()): the
        entry of the extension, created and stored when there is none yet. */
    method EntryFor(extension: string) returns (entry: OverViewEntry)
      requires Valid()
      modifies this`overView
      ensures overView == old(overView)[extension := entry] && Distinct()
      ensures extension in old(overView) ==> entry == old(overView)[extension]
      ensures extension !in old(overView) ==> fresh(entry)
      ensures entry.Stats() == if extension in old(overView) then old(StatsOf(overView))[extension] else FreshStats()
      ensures StatsOf(overView) == old(StatsOf(overView))[extension := entry.Stats()]
      ensures fresh(overView.Values - old(overView.Values))
    {
      if extension !in overView {
        var created := new OverViewEntry();
        overView := overView[extension := created];
      }
      entry := overView[extension];
    }
  }

  /** The loop over the overview entries, on their stats: every entry's row
      is added to the footer once, in the map's (unspecified) iteration
      order, and the sum is the footer of the overview. */
  method SumFooter(stats: map<string, EntryStats>) returns (footer: Footer)
    requires Counted(stats)
    ensures footer == FooterTotal(stats)
  {
    footer := ZeroFooter();
    ghost var visited: seq<string> := [];
    var remaining := stats.Keys;
    while remaining != {}
      invariant remaining <= stats.Keys
      invariant multiset(visited) + multiset(remaining) == multiset(stats.Keys)
      invariant Listed(stats, visited)
      invariant footer == FooterOf(stats, visited)
      decreases remaining
    {
      var extension :| extension in remaining;
      footer := Plus(footer, Row(stats[extension]));
      assert (visited + [extension])[..|visited|] == visited;
      visited := visited + [extension];
      assert multiset(remaining - {extension}) + multiset{extension} == multiset(remaining) by {
        forall y
          ensures (multiset(remaining - {extension}) + multiset{extension})[y] == multiset(remaining)[y]
        {
        }
      }
      remaining := remaining - {extension};
    }
    FooterOrderIndependent(stats, visited, Enumeration(stats.Keys));
  }

  /** Walking a single file is parsing it when it is a file, and nothing
      when it is a directory. */
  lemma WalkEffectOne(t: Totals, separateTabs: set<string>, file: Node)
    requires separateTabs <= t.tabs.Keys
    ensures WalkEffect(t, separateTabs, []) == t
    ensures file.File? ==>
      WalkEffect(t, separateTabs, [file]) == FileEffect(t, separateTabs, file.name, file.data, ParsingUtil.FileExtension(file.name))
  {
    assert [file][..0] == [];
  }

  lemma UpdateTwice(m: map<string, EntryStats>, k: string, a: EntryStats, b: EntryStats)
    ensures m[k := a][k := b] == m[k := b]
  {
  }

  /** The stats of the entries of an overview map. */
  function StatsOf(m: map<string, OverViewEntry>): map<string, EntryStats>
    reads m.Values
  {
    map k | k in m :: m[k].Stats()
  }

  lemma {:induction false} VisitAllAppend(f: FileTree.Filter, a: seq<Node>, b: seq<Node>)
    ensures VisitAll(f, a + b) == VisitAll(f, a) + VisitAll(f, b)
    decreases |a|
  {
    if |a| > 0 {
      assert (a + b)[1..] == a[1..] + b;
      VisitAllAppend(f, a[1..], b);
    } else {
      assert a + b == b;
    }
  }

  /** Walking one more child adds that child's files to the effect. */
  lemma VisitAllStep(t: Totals, separateTabs: set<string>, f: FileTree.Filter, nodes: seq<Node>, i: int)
    requires 0 <= i < |nodes| && separateTabs <= t.tabs.Keys
    ensures WalkEffect(t, separateTabs, VisitAll(f, nodes[..i + 1]))
         == WalkEffect(WalkEffect(t, separateTabs, VisitAll(f, nodes[..i])), separateTabs, Visit(f, nodes[i]))
  {
    VisitAllSnoc(f, nodes, i);
    WalkEffectAppend(t, separateTabs, VisitAll(f, nodes[..i]), Visit(f, nodes[i]));
  }

  /** The files of the first i + 1 children are those of the first i, then
      those of child i. */
  lemma VisitAllSnoc(f: FileTree.Filter, nodes: seq<Node>, i: int)
    requires 0 <= i < |nodes|
    ensures VisitAll(f, nodes[..i + 1]) == VisitAll(f, nodes[..i]) + Visit(f, nodes[i])
  {
    assert nodes[..i + 1] == nodes[..i] + [nodes[i]];
    VisitAllAppend(f, nodes[..i], [nodes[i]]);
    assert VisitAll(f, [nodes[i]]) == Visit(f, nodes[i]) + VisitAll(f, [nodes[i]][1..]);
    assert [nodes[i]][1..] == [];
  }

  lemma {:induction false} WalkEffectAppend(t: Totals, separateTabs: set<string>, a: seq<Node>, b: seq<Node>)
    requires separateTabs <= t.tabs.Keys
    ensures WalkEffect(t, separateTabs, a + b) == WalkEffect(WalkEffect(t, separateTabs, a), separateTabs, b)
    decreases |b|
  {
    if |b| > 0 {
      var init, last := b[..|b| - 1], b[|b| - 1];
      assert (a + b)[..|a + b| - 1] == a + init && (a + b)[|a + b| - 1] == last;
      WalkEffectAppend(t, separateTabs, a, init);
      var mid := WalkEffect(t, separateTabs, a);
    } else {
      assert a + b == a;
    }
  }

  /** The separate-tab branch of parseFile: the lines are classified one by
      one; if Files.size or the reader throws, the newline count of the raw
      bytes becomes the total. */
  method ParseDetailed(name: string, data: FileData) returns (entry: StatEntry, size: int)
    ensures entry == DetailEntry(name, data) && size == FileSize(data)
  {
    size := 0;
    var counts := LineCounts(0, 0, 0, 0);
    var failed := false;
    if data.size.None? {
      failed := true;
    } else {
      size := data.size.value;
      counts := ClassifyLines(data.lines);
      failed := data.readFails;
    }
    var totalLines := counts.totalLines;
    if failed && data.bytes.Some? {
      totalLines := CountNewlines(size, data.bytes.value);
    }
    entry := EntryOf(name, counts, totalLines);
    assert counts == DetailCounts(data);
    assert totalLines == DetailTotal(data);
  }

  /** The other branch of parseFile: the size and the newline count of the
      raw bytes, each left at 0 when reading it throws. */
  method ParsePlain(data: FileData) returns (size: int, lines: int)
    ensures (size, lines) == PlainResult(data)
  {
    lines := 0;
    size := 0;
    if data.size.Some? {
      size := data.size.value;
      if data.bytes.Some? {
        lines := CountNewlines(size, data.bytes.value);
      }
    }
  }

  /** The fallback counter parseFile picks by size: parseLargeNonUTFFile
      above 50000000 bytes, parseSmallNonUTFFile otherwise. Both count the
      newline bytes. */
  method CountNewlines(size: int, bytes: seq<ParsingUtil.Byte>) returns (lines: int)
    ensures lines == ParsingUtil.NewlineCount(bytes)
  {
    if size > LARGE_FILE_SIZE {
      lines := ParsingUtil.ParseLargeNonUTFFile(ParsingUtil.Chunked(bytes, ParsingUtil.BUFFER_SIZE));
      ParsingUtil.LargeAndSmallAgree(bytes);
    } else {
      lines := ParsingUtil.ParseSmallNonUTFFile(bytes);
    }
  }
}
