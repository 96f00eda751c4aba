/**
 * Directory listing and the depth-bounded tree (agent_mcp/tools/navigation.py).
 *
 * The file system is an input: a listing is the items `iterdir` yields (or
 * the error it raises), and the tree below the root is an `FsNode` value
 * whose directories carry their entries and whether `iterdir` succeeds.
 */
module Navigation {
  import opened Wrappers
  import opened Sorting

  datatype NavError =
    | PathNotFound        // FileNotFoundError("PATH_NOT_FOUND: ...")
    | NotADirectory       // NotADirectoryError
    | PermissionDenied    // PermissionError("PERMISSION_DENIED: ...")
    | InvalidMaxDepth     // ValueError("max_depth must be between 1 and 10")

  // ===========================================================================
  // list_directory
  // ===========================================================================

  /** What `is_dir` and `is_file` report: a directory, a regular file, or neither (a socket, a FIFO, a device). */
  datatype ItemKind = Directory | RegularFile | Other

  /** An item `iterdir` yields, with its kind, `stat` fields and root-relative path. */
  datatype DirItem = DirItem(name: string, kind: ItemKind, stSize: int, stMtime: int, path: string)

  /** What listing the requested path gives. */
  datatype Listing = Missing | NotADir | Denied | Items(items: seq<DirItem>)

  datatype EntryType = Dir | File

  /** `FileEntry(name, type, size, mtime, path)`. */
  datatype FileEntry = FileEntry(name: string, kind: EntryType, size: int, mtime: int, path: string)

  datatype ListResult = ListResult(entries: seq<FileEntry>, total: int, truncated: bool)

  /** The entry built for one item: type `dir` exactly for directories, and size 0 unless a regular file. */
  function EntryOf(item: DirItem): (e: FileEntry)
    ensures e.name == item.name && e.mtime == item.stMtime && e.path == item.path
    ensures e.kind == Dir <==> item.kind == Directory
    ensures e.kind == Dir ==> e.size == 0
    ensures item.kind == RegularFile ==> e.size == item.stSize
  {
    FileEntry(item.name, if item.kind == Directory then Dir else File,
              if item.kind == RegularFile then item.stSize else 0, item.stMtime, item.path)
  }

  function NameKey(e: FileEntry): Key { StrKey(e.name) }
  function SizeKey(e: FileEntry): Key { IntKey(e.size) }
  function TimeKey(e: FileEntry): Key { IntKey(e.mtime) }

  /** The sort key `sort_by` selects; any other value leaves the listing order. */
  function KeyFor(sortBy: string): Option<FileEntry -> Key>
  {
    if sortBy == "name" then Some(NameKey)
    else if sortBy == "size" then Some(SizeKey)
    else if sortBy == "time" then Some(TimeKey)
    else None
  }

  function SortEntries(entries: seq<FileEntry>, sortBy: string, order: string): seq<FileEntry>
  {
    match KeyFor(sortBy)
    case Some(key) => SortBy(entries, key, order == "desc")
    case None => entries
  }

  function Entries(items: seq<DirItem>): (r: seq<FileEntry>)
    ensures |r| == |items|
    ensures forall i :: 0 <= i < |items| ==> r[i] == EntryOf(items[i])
  {
    if items == [] then [] else Entries(items[..|items| - 1]) + [EntryOf(items[|items| - 1])]
  }

  /** Reference definition of `list_directory` on a path that passed validation. */
  function ListSpec(listing: Listing, sortBy: string, order: string, limit: int): Result<ListResult, NavError>
  {
    match listing
    case Missing => Failure(PathNotFound)
    case NotADir => Failure(NotADirectory)
    case Denied => Failure(PermissionDenied)
    case Items(items) =>
      var sorted := SortEntries(Entries(items), sortBy, order);
      if limit > 0 && |sorted| > limit then Success(ListResult(sorted[..limit], |sorted|, true))
      else Success(ListResult(sorted, |sorted|, false))
  }

  method ListDirectory(listing: Listing, sortBy: string, order: string, limit: int)
    returns (r: Result<ListResult, NavError>)
    ensures r == ListSpec(listing, sortBy, order, limit)
    ensures listing.Missing? ==> r == Failure(PathNotFound)
    ensures listing.NotADir? ==> r == Failure(NotADirectory)
    ensures listing.Denied? ==> r == Failure(PermissionDenied)
    ensures listing.Items? ==> r.Success? && ListShape(listing.items, sortBy, order, limit, r.value)
  {
    match listing {
      case Missing => return Failure(PathNotFound);
      case NotADir => return Failure(NotADirectory);
      case Denied => return Failure(PermissionDenied);
      case Items(items) =>
        var entries: seq<FileEntry> := [];
        for i := 0 to |items|
          invariant entries == Entries(items[..i])
        {
          assert items[..i + 1][..i] == items[..i];
          entries := entries + [EntryOf(items[i])];
        }
        assert items[..|items|] == items;
        SortEntriesLength(entries, sortBy, order);
        entries := SortEntries(entries, sortBy, order);
        var total := |entries|;
        var truncated := false;
        if limit > 0 && |entries| > limit {
          entries := entries[..limit];
          truncated := true;
        }
        r := Success(ListResult(entries, total, truncated));
        ListSpecShape(items, sortBy, order, limit);
    }
  }

  /**
   * The accounting `list_directory` promises: `total` counts every item,
   * `truncated` holds iff a positive limit is exceeded, and the entries are
   * the first `limit` (or all) of the sorted list.
   */
  predicate ListShape(items: seq<DirItem>, sortBy: string, order: string, limit: int, r: ListResult)
  {
    r.total == |items|
    && (r.truncated <==> limit > 0 && |items| > limit)
    && |r.entries| == (if r.truncated then limit else r.total)
    && r.entries <= SortEntries(Entries(items), sortBy, order)
  }

  lemma ListSpecShape(items: seq<DirItem>, sortBy: string, order: string, limit: int)
    ensures ListSpec(Items(items), sortBy, order, limit).Success?
    ensures ListShape(items, sortBy, order, limit, ListSpec(Items(items), sortBy, order, limit).value)
  {
    SortEntriesLength(Entries(items), sortBy, order);
  }

  lemma SortEntriesLength(entries: seq<FileEntry>, sortBy: string, order: string)
    ensures multiset(SortEntries(entries, sortBy, order)) == multiset(entries)
    ensures |SortEntries(entries, sortBy, order)| == |entries|
  {
    if KeyFor(sortBy).Some? {
      SortBySpec(entries, KeyFor(sortBy).value, order == "desc");
    }
  }

  /**
   * Entries that tie on the sort key keep their `iterdir` order, so the
   * ones kept by the limit are the first of the tie in that order.
   */
  lemma SortEntriesStable(entries: seq<FileEntry>, sortBy: string, order: string, k: Key)
    requires KeyFor(sortBy).Some?
    ensures WithKey(SortEntries(entries, sortBy, order), KeyFor(sortBy).value, k)
         == WithKey(entries, KeyFor(sortBy).value, k)
  {
    SortByStable(entries, KeyFor(sortBy).value, order == "desc", k);
  }

  /**
   * The returned entries are ordered by the chosen field: non-decreasing for
   * any order but `desc`, non-increasing for `desc`.
   */
  lemma ListSorted(items: seq<DirItem>, sortBy: string, order: string, limit: int)
    ensures var r := ListSpec(Items(items), sortBy, order, limit).value.entries;
      forall i, j :: 0 <= i < j < |r| ==>
        (sortBy == "size" && order != "desc" ==> r[i].size <= r[j].size)
        && (sortBy == "size" && order == "desc" ==> r[i].size >= r[j].size)
        && (sortBy == "time" && order != "desc" ==> r[i].mtime <= r[j].mtime)
        && (sortBy == "time" && order == "desc" ==> r[i].mtime >= r[j].mtime)
        && (sortBy == "name" && order != "desc" ==> !LexLess(r[j].name, r[i].name))
        && (sortBy == "name" && order == "desc" ==> !LexLess(r[i].name, r[j].name))
  {
    var s := SortEntries(Entries(items), sortBy, order);
    var r := ListSpec(Items(items), sortBy, order, limit).value.entries;
    assert r == s[..|r|];
    if KeyFor(sortBy).Some? {
      var key := KeyFor(sortBy).value;
      SortBySpec(Entries(items), key, order == "desc");
      forall i, j | 0 <= i < j < |r| ensures !Before(key, order == "desc", r[j], r[i]) {
        assert r[i] == s[i] && r[j] == s[j];
      }
    }
  }

  /**
   * An untruncated listing holds exactly the entries of the directory's
   * items; every returned entry is one of them, and directory entries have
   * size 0.
   */
  lemma ListContents(items: seq<DirItem>, sortBy: string, order: string, limit: int)
    ensures var r := ListSpec(Items(items), sortBy, order, limit).value;
      (!r.truncated ==> multiset(r.entries) == multiset(Entries(items)))
      && (forall e :: e in r.entries ==> exists k :: 0 <= k < |items| && e == EntryOf(items[k]))
      && (forall e :: e in r.entries && e.kind == Dir ==> e.size == 0)
  {
    ListEntriesPrefix(items, sortBy, order, limit);
    SortEntriesLength(Entries(items), sortBy, order);
    ListEntriesFrom(items, SortEntries(Entries(items), sortBy, order), ListSpec(Items(items), sortBy, order, limit).value.entries);
  }

  /** Every entry of a prefix of a permutation of the items' entries comes from an item. */
  lemma ListEntriesFrom(items: seq<DirItem>, s: seq<FileEntry>, r: seq<FileEntry>)
    requires multiset(s) == multiset(Entries(items))
    requires |r| <= |s| && r == s[..|r|]
    ensures forall e :: e in r ==> exists k :: 0 <= k < |items| && e == EntryOf(items[k])
    ensures forall e :: e in r && e.kind == Dir ==> e.size == 0
  {
    forall e | e in r
      ensures (exists k :: 0 <= k < |items| && e == EntryOf(items[k])) && (e.kind == Dir ==> e.size == 0)
    {
      PrefixMember(s, |r|, e);
      EntriesMember(items, e);
    }
  }

  /** The listing is a prefix of the sorted entries, all of them when not truncated. */
  lemma ListEntriesPrefix(items: seq<DirItem>, sortBy: string, order: string, limit: int)
    ensures var r := ListSpec(Items(items), sortBy, order, limit).value;
      |r.entries| <= |SortEntries(Entries(items), sortBy, order)|
      && r.entries == SortEntries(Entries(items), sortBy, order)[..|r.entries|]
      && (!r.truncated ==> r.entries == SortEntries(Entries(items), sortBy, order))
  {
  }

  lemma PrefixMember(s: seq<FileEntry>, n: int, e: FileEntry)
    requires 0 <= n <= |s| && e in s[..n]
    ensures e in multiset(s)
  {
    var i :| 0 <= i < n && s[..n][i] == e;
    assert s[i] == e;
  }

  lemma EntriesMember(items: seq<DirItem>, e: FileEntry)
    requires e in multiset(Entries(items))
    ensures exists k :: 0 <= k < |items| && e == EntryOf(items[k])
  {
    var all := Entries(items);
    assert e in all;
    var k :| 0 <= k < |all| && all[k] == e;
  }

  // ===========================================================================
  // show_tree and build_tree_node
  // ===========================================================================

  /**
   * A path below the tree root: anything that is not a directory, or a
   * directory with its entries; `readable` is false where `iterdir` raises
   * `PermissionError`.
   */
  datatype FsNode = FsFile(name: string) | FsDir(name: string, readable: bool, entries: seq<FsNode>)

  /** `{"name", "type", "depth"}`; an empty `children` stands for the missing key. */
  datatype TreeNode = TreeNode(name: string, isDir: bool, depth: int, children: seq<TreeNode>)

  datatype TreeResult = TreeResult(tree: TreeNode, maxDepthReached: bool)

  function Size(n: FsNode): (r: nat)
    ensures r >= 1
    decreases n
  {
    match n
    case FsFile(_) => 1
    case FsDir(_, _, entries) => 1 + SizeSeq(entries)
  }

  function SizeSeq(s: seq<FsNode>): nat
    decreases s
  {
    if s == [] then 0 else Size(s[0]) + SizeSeq(s[1..])
  }

  function ByName(n: FsNode): Key { StrKey(n.name) }

  /** `sorted(current_path.iterdir(), key=lambda p: p.name)`. */
  function ByNameOrder(s: seq<FsNode>): seq<FsNode>
  {
    SortBy(s, ByName, false)
  }

  /** The entries a directory contributes: none when it cannot be read. */
  function Listed(n: FsNode): seq<FsNode>
  {
    if n.FsDir? && n.readable then n.entries else []
  }

  lemma {:induction false} SizeSeqAppend(s: seq<FsNode>, t: seq<FsNode>)
    ensures SizeSeq(s + t) == SizeSeq(s) + SizeSeq(t)
  {
    if s == [] {
      assert s + t == t;
    } else {
      assert (s + t)[1..] == s[1..] + t;
      SizeSeqAppend(s[1..], t);
    }
  }

  lemma {:induction false} SizeSeqInsert(x: FsNode, t: seq<FsNode>)
    ensures SizeSeq(Insert(x, t, ByName, false)) == Size(x) + SizeSeq(t)
  {
    if t != [] && Before(ByName, false, t[0], x) {
      SizeSeqInsert(x, t[1..]);
      assert Insert(x, t, ByName, false)[1..] == Insert(x, t[1..], ByName, false);
    } else {
      assert ([x] + t)[1..] == t;
    }
  }

  /** Sorting a listing does not change its size. */
  lemma {:induction false} SizeSeqSorted(s: seq<FsNode>)
    ensures SizeSeq(ByNameOrder(s)) == SizeSeq(s)
  {
    if s != [] {
      SizeSeqSorted(s[1..]);
      SizeSeqInsert(s[0], ByNameOrder(s[1..]));
    }
  }

  lemma ListedSize(n: FsNode)
    ensures SizeSeq(ByNameOrder(Listed(n))) < Size(n)
  {
    SizeSeqSorted(Listed(n));
  }

  /** The last element of a sequence is no bigger than the whole, and the rest is smaller. */
  lemma SizeSeqLast(s: seq<FsNode>)
    requires s != []
    ensures SizeSeq(s) == SizeSeq(s[..|s| - 1]) + Size(s[|s| - 1])
  {
    SizeSeqAppend(s[..|s| - 1], [s[|s| - 1]]);
    assert s[..|s| - 1] + [s[|s| - 1]] == s;
  }

  /**
   * Reference definition of `build_tree_node(path, depth)` for a node shown
   * under `name`: directories below `maxDepth` get their children in name
   * order, and the key only when there is at least one.
   */
  function TreeOf(n: FsNode, name: string, depth: int, maxDepth: int): TreeNode
    decreases Size(n), 1
  {
    if n.FsDir? && depth < maxDepth then
      ListedSize(n);
      TreeNode(name, true, depth, TreesOf(ByNameOrder(Listed(n)), depth + 1, maxDepth))
    else TreeNode(name, n.FsDir?, depth, [])
  }

  function TreesOf(s: seq<FsNode>, depth: int, maxDepth: int): (r: seq<TreeNode>)
    ensures |r| == |s|
    decreases SizeSeq(s), 2
  {
    if s == [] then []
    else
      SizeSeqLast(s);
      TreesOf(s[..|s| - 1], depth, maxDepth) + [TreeOf(s[|s| - 1], s[|s| - 1].name, depth, maxDepth)]
  }

  /**
   * Reference definition of the `max_depth_reached` update: some directory is
   * visited at a depth of at least `maxDepth`.
   */
  predicate Reached(n: FsNode, depth: int, maxDepth: int)
    decreases Size(n), 1
  {
    n.FsDir? &&
    (depth >= maxDepth || (ListedSize(n); ReachedAny(ByNameOrder(Listed(n)), depth + 1, maxDepth)))
  }

  predicate ReachedAny(s: seq<FsNode>, depth: int, maxDepth: int)
    decreases SizeSeq(s), 2
  {
    s != [] && (SizeSeqLast(s); ReachedAny(s[..|s| - 1], depth, maxDepth) || Reached(s[|s| - 1], depth, maxDepth))
  }

  /** The recursive builder; `reached` is the `nonlocal max_depth_reached` flag. */
  method BuildTreeNode(n: FsNode, name: string, depth: int, maxDepth: int, reached: bool)
    returns (node: TreeNode, reachedOut: bool)
    ensures node == TreeOf(n, name, depth, maxDepth)
    ensures reachedOut == (reached || Reached(n, depth, maxDepth))
    decreases Size(n), 1
  {
    reachedOut := reached;
    if n.FsDir? && depth < maxDepth {
      var items := ByNameOrder(Listed(n));
      ListedSize(n);
      var children: seq<TreeNode> := [];
      for i := 0 to |items|
        invariant children == TreesOf(items[..i], depth + 1, maxDepth)
        invariant reachedOut == (reached || ReachedAny(items[..i], depth + 1, maxDepth))
      {
        ChildSmaller(n, i);
        TreesStep(items, i, depth + 1, maxDepth);
        var child, r := BuildTreeNode(items[i], items[i].name, depth + 1, maxDepth, reachedOut);
        reachedOut := r;
        children := children + [child];
      }
      assert items[..|items|] == items;
      node := TreeNode(name, true, depth, children);
    } else {
      if n.FsDir? {
        reachedOut := true;
      }
      node := TreeNode(name, n.FsDir?, depth, []);
    }
  }

  /** Each listed child is smaller than its directory. */
  lemma ChildSmaller(n: FsNode, i: int)
    requires 0 <= i < |ByNameOrder(Listed(n))|
    ensures Size(ByNameOrder(Listed(n))[i]) < Size(n)
  {
    var items := ByNameOrder(Listed(n));
    ListedSize(n);
    SizeSeqLast(items[..i + 1]);
    SizeSeqAppend(items[..i + 1], items[i + 1..]);
    assert items[..i + 1] + items[i + 1..] == items;
    assert items[..i + 1][i] == items[i];
  }

  /** One more child extends the subtrees and the flag by that child's. */
  lemma TreesStep(items: seq<FsNode>, i: int, depth: int, maxDepth: int)
    requires 0 <= i < |items|
    ensures TreesOf(items[..i + 1], depth, maxDepth)
         == TreesOf(items[..i], depth, maxDepth) + [TreeOf(items[i], items[i].name, depth, maxDepth)]
    ensures ReachedAny(items[..i + 1], depth, maxDepth)
         == (ReachedAny(items[..i], depth, maxDepth) || Reached(items[i], depth, maxDepth))
  {
    assert items[..i + 1][..i] == items[..i];
    assert items[..i + 1][i] == items[i];
  }

  /** What the root path turns out to be. */
  datatype RootLookup = RootMissing | RootNotADir | Root(node: FsNode)

  function ShowTreeSpec(root: RootLookup, maxDepth: int): Result<TreeResult, NavError>
  {
    if maxDepth < 1 || maxDepth > 10 then Failure(InvalidMaxDepth)
    else match root
      case RootMissing => Failure(PathNotFound)
      case RootNotADir => Failure(NotADirectory)
      case Root(n) =>
        if !n.FsDir? then Failure(NotADirectory)
        else Success(TreeResult(TreeOf(n, ".", 0, maxDepth), Reached(n, 0, maxDepth)))
  }

  method ShowTree(root: RootLookup, maxDepth: int) returns (r: Result<TreeResult, NavError>)
    ensures r == ShowTreeSpec(root, maxDepth)
    ensures (maxDepth < 1 || maxDepth > 10) ==> r == Failure(InvalidMaxDepth)
    ensures r.Success? ==> r.value.tree.name == "." && r.value.tree.depth == 0 && r.value.tree.isDir
  {
    if maxDepth < 1 || maxDepth > 10 {
      return Failure(InvalidMaxDepth);
    }
    if root.RootMissing? {
      return Failure(PathNotFound);
    }
    if root.RootNotADir? || !root.node.FsDir? {
      return Failure(NotADirectory);
    }
    var tree, reached := BuildTreeNode(root.node, ".", 0, maxDepth, false);
    r := Success(TreeResult(tree, reached));
  }

  // ---------------------------------------------------------------------------
  // Properties of the tree
  // ---------------------------------------------------------------------------

  /**
   * The shape `show_tree` promises: no node deeper than `maxDepth`; children
   * only on directories above `maxDepth`, each one level deeper than its
   * parent and in name order.
   */
  predicate WellFormed(t: TreeNode, maxDepth: int)
  {
    t.depth <= maxDepth
    && (t.children != [] ==> t.isDir && t.depth < maxDepth)
    && (forall i, j :: 0 <= i < j < |t.children| ==> !LexLess(t.children[j].name, t.children[i].name))
    && forall k :: k in t.children ==> k.depth == t.depth + 1 && WellFormed(k, maxDepth)
  }

  lemma {:induction false} TreeOfWellFormed(n: FsNode, name: string, depth: int, maxDepth: int)
    requires depth <= maxDepth
    ensures TreeOf(n, name, depth, maxDepth).name == name
    ensures TreeOf(n, name, depth, maxDepth).depth == depth
    ensures TreeOf(n, name, depth, maxDepth).isDir == n.FsDir?
    ensures WellFormed(TreeOf(n, name, depth, maxDepth), maxDepth)
    decreases Size(n), 1
  {
    if n.FsDir? && depth < maxDepth {
      ListedSize(n);
      var items := ByNameOrder(Listed(n));
      TreesOfWellFormed(items, depth + 1, maxDepth);
      SortBySpec(Listed(n), ByName, false);
      var kids := TreesOf(items, depth + 1, maxDepth);
      forall i, j | 0 <= i < j < |kids| ensures !LexLess(kids[j].name, kids[i].name) {
        assert !Before(ByName, false, items[j], items[i]);
      }
    }
  }

  lemma {:induction false} TreesOfWellFormed(s: seq<FsNode>, depth: int, maxDepth: int)
    requires depth <= maxDepth
    ensures forall i :: 0 <= i < |s| ==>
      TreesOf(s, depth, maxDepth)[i].depth == depth && TreesOf(s, depth, maxDepth)[i].name == s[i].name
      && WellFormed(TreesOf(s, depth, maxDepth)[i], maxDepth)
    decreases SizeSeq(s), 2
  {
    if s != [] {
      var init := s[..|s| - 1];
      SizeSeqLast(s);
      TreesOfWellFormed(init, depth, maxDepth);
      TreeOfWellFormed(s[|s| - 1], s[|s| - 1].name, depth, maxDepth);
      forall i | 0 <= i < |init| ensures init[i] == s[i] { }
    }
  }

  /** Some directory node of the tree sits at depth `maxDepth` or below. */
  predicate HasDeepDir(t: TreeNode, maxDepth: int)
  {
    (t.isDir && t.depth >= maxDepth) || exists k :: k in t.children && HasDeepDir(k, maxDepth)
  }

  /**
   * `max_depth_reached` is true iff the returned tree shows a directory at
   * depth `maxDepth`, whether or not that directory has contents.
   */
  lemma {:induction false} ReachedIff(n: FsNode, name: string, depth: int, maxDepth: int)
    ensures Reached(n, depth, maxDepth) <==> HasDeepDir(TreeOf(n, name, depth, maxDepth), maxDepth)
    decreases Size(n), 1
  {
    if n.FsDir? && depth < maxDepth {
      ListedSize(n);
      var items := ByNameOrder(Listed(n));
      ReachedAnyIff(items, depth + 1, maxDepth);
    }
  }

  lemma {:induction false} ReachedAnyIff(s: seq<FsNode>, depth: int, maxDepth: int)
    ensures ReachedAny(s, depth, maxDepth) <==> exists k :: k in TreesOf(s, depth, maxDepth) && HasDeepDir(k, maxDepth)
    decreases SizeSeq(s), 2
  {
    if s != [] {
      var init := s[..|s| - 1];
      var last := s[|s| - 1];
      SizeSeqLast(s);
      ReachedAnyIff(init, depth, maxDepth);
      ReachedIff(last, last.name, depth, maxDepth);
      var ts := TreesOf(s, depth, maxDepth);
      assert ts == TreesOf(init, depth, maxDepth) + [TreeOf(last, last.name, depth, maxDepth)];
      if exists k :: k in ts && HasDeepDir(k, maxDepth) {
        var k :| k in ts && HasDeepDir(k, maxDepth);
        if k != TreeOf(last, last.name, depth, maxDepth) {
          assert k in TreesOf(init, depth, maxDepth);
        }
      }
    }
  }

  /** The result of a successful `show_tree`: a well-formed tree whose flag is exactly `HasDeepDir`. */
  lemma ShowTreeSpecProps(root: RootLookup, maxDepth: int)
    ensures var r := ShowTreeSpec(root, maxDepth);
      r.Success? ==> (WellFormed(r.value.tree, maxDepth)
                      && (r.value.maxDepthReached <==> HasDeepDir(r.value.tree, maxDepth)))
  {
    if root.Root? && 1 <= maxDepth {
      TreeOfWellFormed(root.node, ".", 0, maxDepth);
      ReachedIff(root.node, ".", 0, maxDepth);
    }
  }

  /** With `max_depth=1`, an empty subdirectory of the root still sets the flag. */
  lemma EmptyDirAtLimitSetsFlag()
    ensures ShowTreeSpec(Root(FsDir("p", true, [FsDir("empty", true, [])])), 1).value.maxDepthReached
  {
    var s := [FsDir("empty", true, [])];
    assert ByNameOrder(SortBy(s[1..], ByName, false)) == [];
    assert ByNameOrder(s) == s;
    assert Reached(s[0], 1, 1);
    assert s[..0] == [];
    assert ReachedAny(s, 1, 1);
  }
}
