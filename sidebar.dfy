/** The file explorer: the set of expanded folder paths, the toggle that
    flips one path, and which rows the tree shows for a given set. */
module Sidebar {

  datatype ItemKind = File | Folder

  /** A tree entry: Listed when it carries a children list (possibly
      empty), Bare when it has none. */
  datatype FileItem =
    | Bare(name: string, kind: ItemKind)
    | Listed(name: string, kind: ItemKind, children: seq<FileItem>)

  /** The tree the explorer shows. */
  const InitialFiles: seq<FileItem> := [
    Listed("src", Folder, [
      Listed("components", Folder, [
        Bare("layout", Folder),
        Bare("features", Folder),
        Bare("shared", Folder)]),
      Listed("app", Folder, [
        Bare("layout.tsx", File),
        Bare("page.tsx", File)])])]

  /** The set the explorer starts with. */
  const InitialExpanded: set<string> := {"src"}

  /** toggleFolder's new set: path flips membership, every other path keeps
      its own. */
  function Toggled(expanded: set<string>, path: string): (r: set<string>)
    ensures path in r <==> path !in expanded
    ensures forall q :: q != path ==> (q in r <==> q in expanded)
  {
    if path in expanded then expanded - {path} else expanded + {path}
  }

  /** Toggling the same path twice restores the set. */
  lemma ToggleTwice(expanded: set<string>, path: string)
    ensures Toggled(Toggled(expanded, path), path) == expanded
  {
  }

  /** An item's path: its name at the top level, otherwise the parent's path,
      a slash and its name. */
  function ChildPath(parent: string, name: string): (r: string)
    ensures parent == "" ==> r == name
    ensures parent != "" ==>
      |r| == |parent| + 1 + |name| && r[..|parent|] == parent &&
      r[|parent|] == '/' && r[|parent| + 1..] == name
  {
    if parent == "" then name else parent + "/" + name
  }

  /** One row of the rendered tree. */
  datatype Row = Row(path: string, name: string, parent: string, depth: nat, isFolder: bool, isExpanded: bool)

  /** What a row says about the set it was rendered for: its path is built
      from its parent's, and a row below the top level hangs under an
      expanded folder. */
  ghost predicate RowsFit(rows: seq<Row>, parent: string, depth: nat, expanded: set<string>)
  {
    forall k :: 0 <= k < |rows| ==>
      rows[k].path == ChildPath(rows[k].parent, rows[k].name) &&
      rows[k].isExpanded == (rows[k].path in expanded) &&
      depth <= rows[k].depth &&
      (rows[k].depth == depth ==> rows[k].parent == parent) &&
      (rows[k].depth > depth ==> rows[k].parent in expanded)
  }

  /** The names of a list of items, in order. */
  ghost function Names(items: seq<FileItem>): seq<string>
  {
    if items == [] then [] else [items[0].name] + Names(items[1..])
  }

  /** The names of the rows at depth d, in order. */
  ghost function TopNames(rows: seq<Row>, d: nat): seq<string>
  {
    if rows == [] then []
    else (if rows[0].depth == d then [rows[0].name] else []) + TopNames(rows[1..], d)
  }

  lemma {:induction false} TopNamesAppend(a: seq<Row>, b: seq<Row>, d: nat)
    ensures TopNames(a + b, d) == TopNames(a, d) + TopNames(b, d)
  {
    if a == [] {
      assert a + b == b;
    } else {
      assert (a + b)[1..] == a[1..] + b;
      TopNamesAppend(a[1..], b, d);
    }
  }

  lemma {:induction false} TopNamesDeeper(rows: seq<Row>, d: nat)
    requires forall k :: 0 <= k < |rows| ==> rows[k].depth > d
    ensures TopNames(rows, d) == []
  {
    if rows != [] {
      TopNamesDeeper(rows[1..], d);
    }
  }

  /** renderFileItem: the item's row, then its children's rows, which are
      listed only when it is a folder, its path is expanded and it has
      children; the rows one level down are then exactly the children, in
      order, under the item's path. */
  function RenderItem(item: FileItem, parent: string, depth: nat, expanded: set<string>): (rows: seq<Row>)
    ensures |rows| >= 1 && rows[0].name == item.name && rows[0].depth == depth
    ensures RowsFit(rows, parent, depth, expanded)
    ensures forall k :: 1 <= k < |rows| ==> rows[k].depth > depth
    ensures item.kind == File || ChildPath(parent, item.name) !in expanded || item.Bare? ==>
      |rows| == 1
    ensures item.kind == Folder && ChildPath(parent, item.name) in expanded && item.Listed? ==>
      |rows| >= 1 + |item.children| &&
      TopNames(rows[1..], depth + 1) == Names(item.children) &&
      forall k :: 1 <= k < |rows| && rows[k].depth == depth + 1 ==>
        rows[k].parent == ChildPath(parent, item.name)
    decreases item
  {
    var path := ChildPath(parent, item.name);
    var isFolder := item.kind == Folder;
    var isExpanded := path in expanded;
    var row := Row(path, item.name, parent, depth, isFolder, isExpanded);
    if isFolder && isExpanded && item.Listed? then
      var kids := RenderItems(item.children, path, depth + 1, expanded);
      assert ([row] + kids)[1..] == kids;
      [row] + kids
    else
      [row]
  }

  /** The rows of a list of items, in order: the rows at the list's depth
      are exactly the items, in order, each under the parent's path. */
  function RenderItems(items: seq<FileItem>, parent: string, depth: nat, expanded: set<string>): (rows: seq<Row>)
    ensures |rows| >= |items|
    ensures RowsFit(rows, parent, depth, expanded)
    ensures TopNames(rows, depth) == Names(items)
    decreases items
  {
    if items == [] then []
    else
      var first := RenderItem(items[0], parent, depth, expanded);
      var rest := RenderItems(items[1..], parent, depth, expanded);
      TopNamesDeeper(first[1..], depth);
      TopNamesAppend(first, rest, depth);
      first + rest
  }

  /** With nothing expanded only the top-level items are listed. */
  lemma {:induction false} CollapsedShowsTopLevel(items: seq<FileItem>, parent: string, depth: nat)
    ensures |RenderItems(items, parent, depth, {})| == |items|
    decreases items
  {
    if items != [] {
      CollapsedShowsTopLevel(items[1..], parent, depth);
    }
  }

  /** The explorer's state. */
  class SidebarState {
    var expandedFolders: set<string>

    constructor ()
      ensures expandedFolders == InitialExpanded
    {
      expandedFolders := {"src"};
    }

    /** toggleFolder: copies the set, flips path in the copy and installs
        the copy. */
    method ToggleFolder(path: string)
      modifies this
      ensures expandedFolders == Toggled(old(expandedFolders), path)
    {
      var newExpanded := expandedFolders;
      if path in newExpanded {
        newExpanded := newExpanded - {path};
      } else {
        newExpanded := newExpanded + {path};
      }
      expandedFolders := newExpanded;
    }

    /** A click on a row: folders toggle, files leave the set as it is. */
    method ClickItem(item: FileItem, currentPath: string)
      modifies this
      ensures item.kind == File ==> expandedFolders == old(expandedFolders)
      ensures item.kind == Folder ==> expandedFolders == Toggled(old(expandedFolders), currentPath)
    {
      if item.kind == Folder {
        ToggleFolder(currentPath);
      }
    }

    /** The rows shown for the current set: at least one per top-level
        item, exactly one each with nothing expanded, and at start src
        with its two collapsed folders. */
    function Rows(): (rows: seq<Row>)
      reads this
      ensures |rows| >= |InitialFiles| && RowsFit(rows, "", 0, expandedFolders)
      ensures expandedFolders == {} ==> |rows| == |InitialFiles|
      ensures expandedFolders == InitialExpanded ==>
        |rows| == 3 &&
        rows[0].path == "src" && rows[1].path == "src/components" && rows[2].path == "src/app"
    {
      CollapsedShowsTopLevel(InitialFiles, "", 0);
      InitialRows();
      RenderItems(InitialFiles, "", 0, expandedFolders)
    }
  }

  /** A collapsed folder, or a file, shows its own row alone. */
  lemma CollapsedItemRow(item: FileItem, parent: string, depth: nat, expanded: set<string>)
    requires ChildPath(parent, item.name) !in expanded
    ensures RenderItem(item, parent, depth, expanded) ==
      [Row(ChildPath(parent, item.name), item.name, parent, depth, item.kind == Folder, false)]
  {
  }

  /** The rows of two items are those of the first, then those of the
      second. */
  lemma RenderPair(a: FileItem, b: FileItem, parent: string, depth: nat, expanded: set<string>)
    ensures RenderItems([a, b], parent, depth, expanded) ==
      RenderItem(a, parent, depth, expanded) + RenderItem(b, parent, depth, expanded)
  {
    assert [a, b][1..] == [b];
    assert [b][1..] == [];
    assert RenderItems([b], parent, depth, expanded) ==
      RenderItem(b, parent, depth, expanded) + RenderItems([], parent, depth, expanded);
    assert RenderItem(b, parent, depth, expanded) + [] == RenderItem(b, parent, depth, expanded);
  }

  /** An expanded folder with two collapsed children lists its own row and
      theirs. */
  lemma ExpandedPairRows(item: FileItem, parent: string, depth: nat, expanded: set<string>)
    requires item.Listed? && item.kind == Folder && |item.children| == 2
    requires ChildPath(parent, item.name) in expanded
    requires ChildPath(ChildPath(parent, item.name), item.children[0].name) !in expanded
    requires ChildPath(ChildPath(parent, item.name), item.children[1].name) !in expanded
    ensures var rows := RenderItem(item, parent, depth, expanded);
      var path := ChildPath(parent, item.name);
      |rows| == 3 && rows[0].path == path &&
      rows[1].path == ChildPath(path, item.children[0].name) &&
      rows[2].path == ChildPath(path, item.children[1].name)
  {
    var path := ChildPath(parent, item.name);
    var a := item.children[0];
    var b := item.children[1];
    CollapsedItemRow(a, path, depth + 1, expanded);
    CollapsedItemRow(b, path, depth + 1, expanded);
    RenderPair(a, b, path, depth + 1, expanded);
    assert item.children == [a, b];
  }

  /** At start the explorer lists src and, since src is expanded, its two
      folders, which are themselves collapsed. */
  lemma InitialRows()
    ensures var rows := RenderItems(InitialFiles, "", 0, InitialExpanded);
      |rows| == 3 &&
      rows[0].path == "src" && rows[1].path == "src/components" && rows[2].path == "src/app"
  {
    var src := InitialFiles[0];
    assert ChildPath("", src.name) == "src";
    assert ChildPath("src", src.children[0].name) == "src/components";
    assert ChildPath("src", src.children[1].name) == "src/app";
    ExpandedPairRows(src, "", 0, InitialExpanded);
    assert InitialFiles == [src];
    RenderSingle(src, "", 0, InitialExpanded);
  }

  /** The rows of one item are its own. */
  lemma RenderSingle(a: FileItem, parent: string, depth: nat, expanded: set<string>)
    ensures RenderItems([a], parent, depth, expanded) == RenderItem(a, parent, depth, expanded)
  {
    assert [a][1..] == [];
    assert RenderItem(a, parent, depth, expanded) + [] == RenderItem(a, parent, depth, expanded);
  }
}
