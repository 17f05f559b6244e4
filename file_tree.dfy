/** The project tree as Files.walkFileTree sees it, and the two visitor
    decisions Parser makes on it: preVisitDirectory prunes a directory whose
    path string is excluded, visitFile picks the files to parse by extension. */
module FileTree {
  import ParsingUtil

  datatype Option<T> = None | Some(value: T)

  /** What the file system yields for one file: Files.size (None when it
      throws), the lines the reader delivers before it stops, whether it
      stops with an exception (a malformed byte sequence, an unreadable
      file), and the file's bytes (None when reading them throws). */
  datatype FileData = FileData(
    size: Option<int>,
    lines: seq<string>,
    readFails: bool,
    bytes: Option<seq<ParsingUtil.Byte>>)

  /** A file, named by its full path and by its last path element, or a
      directory with the entries it lists. */
  datatype Node =
    | File(path: string, name: string, data: FileData)
    | Dir(path: string, children: seq<Node>)

  /** The visitor's view of the parser's sets. */
  datatype Filter = Filter(excludedDirs: set<string>, whiteListTypes: set<string>, excludedTypes: set<string>)

  /** visitFile's test on an extension: with an empty whitelist, any
      non-empty extension that is not excluded; otherwise exactly the
      whitelisted extensions. */
  predicate Qualifies(f: Filter, extension: string)
  {
    if f.whiteListTypes == {} then extension != "" && extension !in f.excludedTypes
    else extension in f.whiteListTypes
  }

  /** preVisitDirectory's test: the directory's path string is excluded as is. */
  predicate Pruned(f: Filter, path: string)
  {
    path in f.excludedDirs
  }

  /** The files walkFileTree hands to parseFile, in visiting order. */
  function Visit(f: Filter, node: Node): seq<Node>
    decreases node, 1
  {
    match node
    case File(_, name, _) => if Qualifies(f, ParsingUtil.FileExtension(name)) then [node] else []
    case Dir(path, children) => if Pruned(f, path) then [] else VisitAll(f, children)
  }

  function VisitAll(f: Filter, nodes: seq<Node>): seq<Node>
    decreases nodes, 0
  {
    if |nodes| == 0 then []
    else Visit(f, nodes[0]) + VisitAll(f, nodes[1..])
  }

  /** The file target lies in the tree under node, below no pruned directory
      (node itself included). */
  ghost predicate Reachable(f: Filter, node: Node, target: Node)
    decreases node
  {
    match node
    case File(_, _, _) => node == target
    case Dir(path, children) =>
      !Pruned(f, path) && exists i :: 0 <= i < |children| && Reachable(f, children[i], target)
  }

  /** The walk parses exactly the reachable files whose extension qualifies:
      nothing under an excluded directory, nothing filtered out, nothing
      missed. */
  lemma {:induction false} VisitIsReachableAndQualifying(f: Filter, node: Node, target: Node)
    ensures target in Visit(f, node) <==>
      target.File? && Reachable(f, node, target) && Qualifies(f, ParsingUtil.FileExtension(target.name))
    decreases node, 1
  {
    match node
    case File(_, _, _) =>
    case Dir(path, children) =>
      if !Pruned(f, path) {
        VisitAllIsReachableAndQualifying(f, children, target);
      }
  }

  lemma {:induction false} VisitAllIsReachableAndQualifying(f: Filter, nodes: seq<Node>, target: Node)
    ensures target in VisitAll(f, nodes) <==>
      target.File? && Qualifies(f, ParsingUtil.FileExtension(target.name))
      && exists i :: 0 <= i < |nodes| && Reachable(f, nodes[i], target)
    decreases nodes, 0
  {
    if |nodes| > 0 {
      VisitIsReachableAndQualifying(f, nodes[0], target);
      VisitAllIsReachableAndQualifying(f, nodes[1..], target);
      ReachableSplit(f, nodes, target);
    }
  }

  /** Reaching target from some node of a list is reaching it from the first
      node or from some node of the rest. */
  lemma ReachableSplit(f: Filter, nodes: seq<Node>, target: Node)
    requires |nodes| > 0
    ensures (exists i :: 0 <= i < |nodes| && Reachable(f, nodes[i], target)) <==>
      Reachable(f, nodes[0], target) || exists i :: 0 <= i < |nodes[1..]| && Reachable(f, nodes[1..][i], target)
  {
    if exists i :: 0 <= i < |nodes| && Reachable(f, nodes[i], target) {
      var i :| 0 <= i < |nodes| && Reachable(f, nodes[i], target);
      if i > 0 {
        assert nodes[1..][i - 1] == nodes[i];
      }
    }
    if exists i :: 0 <= i < |nodes[1..]| && Reachable(f, nodes[1..][i], target) {
      var i :| 0 <= i < |nodes[1..]| && Reachable(f, nodes[1..][i], target);
      assert nodes[i + 1] == nodes[1..][i];
    }
  }

  /** With a whitelist in place the exclude list plays no part. */
  lemma WhiteListOverridesExcludes(f: Filter, extension: string, excluded: set<string>)
    requires f.whiteListTypes != {}
    ensures Qualifies(f, extension) <==> Qualifies(f.(excludedTypes := excluded), extension)
    ensures Qualifies(f, extension) <==> extension in f.whiteListTypes
  {
  }

  /** Without a whitelist a file without extension is never parsed, and with
      one it is parsed only when "" itself is whitelisted. */
  lemma NoExtension(f: Filter)
    ensures Qualifies(f, "") <==> "" in f.whiteListTypes
  {
  }

  lemma JavaExtension()
    ensures ParsingUtil.FileExtension("A.java") == "java"
  {
    assert "A.java" == "A" + "." + "java";
  }

  /** Exclusion compares whole path strings: excluding root/build prunes that
      directory but still visits root/build2. */
  lemma ExactPathPruning()
    ensures var java := File("root/build2/A.java", "A.java", FileData(Some(0), [], false, Some([])));
      var hidden := File("root/build/B.java", "B.java", FileData(Some(0), [], false, Some([])));
      var tree := Dir("root", [Dir("root/build", [hidden]), Dir("root/build2", [java])]);
      Visit(Filter({"root/build"}, {}, {}), tree) == [java]
  {
    var f := Filter({"root/build"}, {}, {});
    var java := File("root/build2/A.java", "A.java", FileData(Some(0), [], false, Some([])));
    JavaExtension();
    var hidden := File("root/build/B.java", "B.java", FileData(Some(0), [], false, Some([])));
    var build, build2 := Dir("root/build", [hidden]), Dir("root/build2", [java]);
    assert Visit(f, build) == [] by {
      assert Pruned(f, "root/build");
    }
    assert Visit(f, build2) == [java] by {
      assert !Pruned(f, "root/build2");
      assert VisitAll(f, [java]) == Visit(f, java) + VisitAll(f, []);
    }
    assert [build, build2][1..] == [build2];
    assert VisitAll(f, [build2]) == [java] by {
      assert VisitAll(f, [build2]) == Visit(f, build2) + VisitAll(f, []);
    }
    assert VisitAll(f, [build, build2]) == Visit(f, build) + VisitAll(f, [build2]);
  }
}
