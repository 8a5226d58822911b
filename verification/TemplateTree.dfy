/** entriesToTree and treeToEntries: the tree describes the template, whatever order it came in, and
    flattening walks it. */
module TemplateTree {
  import opened Wrappers
  import opened Paths
  import opened Sorting
  import opened Provision
  import opened TemplateForest

  type Entry = SeedEntry

  /** No two entries share a path, and no file is also a folder. */
  ghost predicate WellFormedTemplate(es: seq<Entry>) {
    NoDup(es) && forall a, b :: a in es && b in es && a != b ==>
      a.path != b.path && (!a.dir ==> !Above(a.path, b.path))
  }

  lemma TemplatePrefix(es: seq<Entry>, k: nat)
    requires WellFormedTemplate(es) && k <= |es|
    ensures WellFormedTemplate(es[..k])
  {
  }

  lemma SortedTemplate(es: seq<Entry>, le: (Entry, Entry) -> bool)
    requires WellFormedTemplate(es)
    ensures WellFormedTemplate(Sort(es, le))
  {
    SortKeepsAll(es, le);
    SortNoDup(es, le);
  }

  // ---------- what the forest says ----------

  ghost predicate Mentioned(p: string, es: seq<Entry>) {
    exists e :: e in es && Above(p, e.path)
  }

  ghost predicate IsFile(p: string, content: string, es: seq<Entry>) {
    SeedEntry(p, false, content) in es
  }

  // The Map knows each node, and the nodes are the paths on the way to an entry: its file if
  // there is one, else a folder.
  ghost predicate Describes(f: Forest, es: seq<Entry>) {
    && (forall i :: 0 <= i < |f.nodes| ==> f.nodes[i].path in f.byPath && f.byPath[f.nodes[i].path] == i)
    && (forall p :: p in f.byPath <==> Mentioned(p, es))
    && (forall i :: 0 <= i < |f.nodes| ==> NodeFits(f.nodes[i], es))
  }

  ghost predicate NodeFits(n: Node, es: seq<Entry>) {
    if n.dir then n.content == "" && forall c :: !IsFile(n.path, c, es) else IsFile(n.path, n.content, es)
  }

  lemma FitsSame(n: Node, n': Node, es: seq<Entry>, es': seq<Entry>)
    requires NodeFits(n, es) && SameNode(n, n')
    requires forall c :: SeedEntry(n.path, false, c) in es <==> SeedEntry(n.path, false, c) in es'
    ensures NodeFits(n', es')
  {
    if n.dir {
      forall c ensures !IsFile(n.path, c, es') {
        assert !IsFile(n.path, c, es);
      }
    }
  }

  lemma FolderAdded(f: Forest, f': Forest, es: seq<Entry>, e: Entry)
    requires Describes(f, es) && e.dir && Grew(f, f', e.path)
    ensures Describes(f', es + [e])
  {
    forall p ensures Mentioned(p, es + [e]) <==> Mentioned(p, es) || Above(p, e.path) { MentionedMore(es, e, p); }
    forall i | 0 <= i < |f'.nodes| ensures NodeFits(f'.nodes[i], es + [e]) {
      if i < |f.nodes| {
        FitsSame(f.nodes[i], f'.nodes[i], es, es + [e]);
      } else {
        UnknownIsNoFile(f, es, f'.nodes[i].path);
        FitsSame(f'.nodes[i], f'.nodes[i], es, es + [e]);
      }
    }
  }

  lemma MentionedMore(es: seq<Entry>, e: Entry, p: string)
    ensures Mentioned(p, es + [e]) <==> Mentioned(p, es) || Above(p, e.path)
  {
    if Mentioned(p, es) {
      var x :| x in es && Above(p, x.path);
      assert x in es + [e];
    }
    assert e in es + [e];
  }

  lemma UnknownIsNoFile(f: Forest, es: seq<Entry>, p: string)
    requires Describes(f, es) && p !in f.byPath
    ensures forall c :: !IsFile(p, c, es)
  {
    forall c | IsFile(p, c, es) ensures false {
      assert Mentioned(p, es);
    }
  }

  lemma FileIsNew(f: Forest, es: seq<Entry>, e: Entry)
    requires Describes(f, es) && !e.dir && WellFormedTemplate(es + [e])
    ensures e.path !in f.byPath
  {
    forall x | x in es ensures !Above(e.path, x.path) {
      assert x in es + [e] && e in es + [e];
      var i :| 0 <= i < |es| && es[i] == x;
      assert (es + [e])[i] == x && (es + [e])[|es|] == e;
    }
  }

  // The node of file `e`, new at index |f.nodes|, together with folders grown for it.
  lemma FileAdded(f: Forest, f3: Forest, es: seq<Entry>, e: Entry)
    requires Describes(f, es) && !e.dir && e.path !in f.byPath
    requires |f.nodes| < |f3.nodes| && SameNode(f3.nodes[|f.nodes|], Node(NameOf(e.path), e.path, false, e.content, []))
    requires forall i :: 0 <= i < |f.nodes| ==> SameNode(f3.nodes[i], f.nodes[i])
    requires forall i :: |f.nodes| < i < |f3.nodes| ==>
      f3.nodes[i].dir && f3.nodes[i].content == "" && f3.nodes[i].path !in f.byPath && f3.nodes[i].path != e.path
    requires forall i :: |f.nodes| <= i < |f3.nodes| ==>
      f3.nodes[i].path in f3.byPath && f3.byPath[f3.nodes[i].path] == i
    requires forall p :: p in f3.byPath <==> p in f.byPath || Above(p, e.path)
    requires forall p <- f.byPath :: f3.byPath[p] == f.byPath[p]
    ensures Describes(f3, es + [e])
  {
    var es', n := es + [e], |f.nodes|;
    forall p ensures Mentioned(p, es') <==> Mentioned(p, es) || Above(p, e.path) { MentionedMore(es, e, p); }
    forall i | 0 <= i < |f3.nodes| ensures NodeFits(f3.nodes[i], es') {
      if i < n {
        assert f.nodes[i].path in f.byPath;
        FitsSame(f.nodes[i], f3.nodes[i], es, es');
      } else if i == n {
        assert e == SeedEntry(e.path, false, e.content) && e in es';
      } else {
        UnknownIsNoFile(f, es, f3.nodes[i].path);
        FitsSame(f3.nodes[i], f3.nodes[i], es, es');
      }
    }
  }

  lemma FileAddedBelow(f: Forest, f2: Forest, f3: Forest, es: seq<Entry>, e: Entry)
    requires Describes(f, es) && !e.dir && e.path !in f.byPath && Depth(e.path) > 1
    requires Grew(AddNode(f, e.path, false, e.content), f2, Parent(e.path)) && SameNodes(f2, f3)
    ensures Describes(f3, es + [e])
  {
    var f1, n := AddNode(f, e.path, false, e.content), |f.nodes|;
    forall p ensures Above(p, e.path) <==> p == e.path || Above(p, Parent(e.path)) { AboveParent(p, e.path); }
    assert SameNode(f2.nodes[n], f1.nodes[n]);
    forall i | 0 <= i < n ensures SameNode(f2.nodes[i], f.nodes[i]) { assert f1.nodes[i] == f.nodes[i]; }
    FileAdded(f, f2, es, e);
    SameNodesDescribed(f2, f3, es + [e]);
  }

  lemma SameNodesDescribed(f: Forest, f': Forest, es: seq<Entry>)
    requires Describes(f, es) && SameNodes(f, f')
    ensures Describes(f', es)
  {
    forall i | 0 <= i < |f'.nodes|
      ensures f'.nodes[i].path == f.nodes[i].path && NodeFits(f'.nodes[i], es)
    {
      assert SameNode(f'.nodes[i], f.nodes[i]);
      FitsSame(f.nodes[i], f'.nodes[i], es, es);
    }
  }

  lemma FileAddedTop(f: Forest, es: seq<Entry>, e: Entry)
    requires Describes(f, es) && !e.dir && e.path !in f.byPath && Depth(e.path) == 1
    ensures Describes(AddRoot(AddNode(f, e.path, false, e.content), |f.nodes|), es + [e])
  {
    forall p ensures Above(p, e.path) <==> p == e.path { AboveTop(p, e.path); }
    FileAdded(f, AddRoot(AddNode(f, e.path, false, e.content), |f.nodes|), es, e);
  }

  lemma SameEntriesDescribed(f: Forest, es: seq<Entry>, es': seq<Entry>)
    requires Describes(f, es) && forall e :: e in es <==> e in es'
    ensures Describes(f, es')
  {
    forall p ensures Mentioned(p, es) <==> Mentioned(p, es') { }
    forall i | 0 <= i < |f.nodes| ensures NodeFits(f.nodes[i], es') {
      FitsSame(f.nodes[i], f.nodes[i], es, es');
    }
  }

  lemma ResortedDescribed(f: Forest, f': Forest, es: seq<Entry>, nle: (nat, nat) -> bool)
    requires Describes(f, es) && Resorted(f, f', nle)
    ensures Describes(f', es)
  {
    SameNodesDescribed(f, f', es);
  }

  // ---------- flattening ----------

  /** What `walk` emits for node `i`: a file itself, an empty folder itself, else its children. */
  function Emitted(f: Forest, i: nat, h: nat): seq<Entry>
    decreases h, 0
  {
    if i >= |f.nodes| then []
    else
      var n := f.nodes[i];
      if !n.dir then [SeedEntry(n.path, false, n.content)]
      else if n.children == [] then [SeedEntry(n.path, true, "")]
      else if h == 0 then []
      else EmittedAll(f, n.children, h - 1)
  }

  function EmittedAll(f: Forest, ids: seq<nat>, h: nat): seq<Entry>
    decreases h, |ids| + 1
  {
    if ids == [] then [] else EmittedAll(f, ids[..|ids| - 1], h) + Emitted(f, ids[|ids| - 1], h)
  }

  lemma EmittedNext(before: seq<Entry>, f: Forest, ids: seq<nat>, k: nat, h: nat)
    requires k < |ids|
    ensures before + EmittedAll(f, ids[..k + 1], h) == before + EmittedAll(f, ids[..k], h) + Emitted(f, ids[k], h)
  {
    assert ids[..k + 1][..k] == ids[..k];
  }

  ghost function MaxDepth(f: Forest): (d: nat)
    ensures DepthsUpTo(f, d)
  {
    DepthOfAll(f.nodes)
  }

  ghost function DepthOfAll(nodes: seq<Node>): (d: nat)
    ensures forall i :: 0 <= i < |nodes| ==> Depth(nodes[i].path) <= d
  {
    if nodes == [] then 0
    else
      var m, last := DepthOfAll(nodes[..|nodes| - 1]), Depth(nodes[|nodes| - 1].path);
      if last <= m then m else last
  }

  // ---------- the loop of sortLevel ----------

  ghost predicate SortedSoFar(f: Forest, level: seq<nat>, k: nat, h: nat, nle: (nat, nat) -> bool)
    requires k <= |level|
  {
    h > 0 ==> forall m :: 0 <= m < k ==> SortedBelow(f, level[m], h - 1, nle)
  }

  lemma SortedSoFarNext(f: Forest, f': Forest, level: seq<nat>, k: nat, h: nat, nle: (nat, nat) -> bool)
    requires Resorted(f, f', nle) && k < |level| && SortedSoFar(f, level, k, h, nle)
    requires level[k] < |f'.nodes| && Ordered(f'.nodes[level[k]].children, nle)
    requires h > 1 ==> forall c <- f'.nodes[level[k]].children :: SortedBelow(f', c, h - 2, nle)
    ensures SortedSoFar(f', level, k + 1, h, nle)
  {
    if h > 0 {
      forall m | 0 <= m < k ensures SortedBelow(f', level[m], h - 1, nle) {
        SortedBelowKept(f, f', level[m], h - 1, nle);
      }
    }
  }

  lemma SortedLevelDone(f: Forest, f': Forest, owner: Option<nat>, h: nat, nle: (nat, nat) -> bool)
    requires Resorted(f, f', nle) && (owner.Some? ==> owner.value < |f.nodes|)
    requires Ordered(LevelOf(f, owner), nle)
    requires SortedSoFar(f', LevelOf(f, owner), |LevelOf(f, owner)|, h, nle)
    ensures Ordered(LevelOf(f', owner), nle)
    ensures h > 0 ==> forall c <- LevelOf(f', owner) :: SortedBelow(f', c, h - 1, nle)
  {
    ResortedMembers(f, f', nle);
    forall c | c in LevelOf(f', owner) ensures h > 0 ==> SortedBelow(f', c, h - 1, nle) {
      assert c in LevelOf(f, owner);
    }
  }

  ghost predicate FullySorted(f: Forest, le: StringOrder) {
    && Ordered(f.roots, NodeLe(Keys(f.nodes), le))
    && forall i :: 0 <= i < |f.nodes| ==> Ordered(f.nodes[i].children, NodeLe(Keys(f.nodes), le))
  }

  lemma EveryArraySorted(f: Forest, d: nat, le: StringOrder)
    requires ForestOk(f, {}) && DepthsUpTo(f, d) && Ordered(f.roots, NodeLe(Keys(f.nodes), le))
    requires d > 0 ==> forall r <- f.roots :: SortedBelow(f, r, d - 1, NodeLe(Keys(f.nodes), le))
    ensures FullySorted(f, le)
  {
    var nle := NodeLe(Keys(f.nodes), le);
    forall i | 0 <= i < |f.nodes| ensures Ordered(f.nodes[i].children, nle) {
      AllSorted(f, d, i, nle);
    }
  }

  /** Folders come before files, and each kind by name. */
  ghost predicate FoldersFirst(nodes: seq<Node>, ids: seq<nat>, le: StringOrder) {
    forall a, b :: 0 <= a < b < |ids| && ids[a] < |nodes| && ids[b] < |nodes| ==>
      var x, y := nodes[ids[a]], nodes[ids[b]];
      (y.dir ==> x.dir) && (x.dir == y.dir ==> le(x.name, y.name))
  }

  lemma SortedFoldersFirst(f: Forest, ids: seq<nat>, le: StringOrder)
    requires Ordered(ids, NodeLe(Keys(f.nodes), le))
    ensures FoldersFirst(f.nodes, ids, le)
  {
    forall a, b | 0 <= a < b < |ids| && ids[a] < |f.nodes| && ids[b] < |f.nodes|
      ensures var x, y := f.nodes[ids[a]], f.nodes[ids[b]];
              (y.dir ==> x.dir) && (x.dir == y.dir ==> le(x.name, y.name))
    {
      assert NodeLe(Keys(f.nodes), le)(ids[a], ids[b]);
    }
  }

  lemma AllFoldersFirst(f: Forest, le: StringOrder)
    requires FullySorted(f, le)
    ensures FoldersFirst(f.nodes, f.roots, le)
    ensures forall i :: 0 <= i < |f.nodes| ==> FoldersFirst(f.nodes, f.nodes[i].children, le)
  {
    SortedFoldersFirst(f, f.roots, le);
    forall i | 0 <= i < |f.nodes| ensures FoldersFirst(f.nodes, f.nodes[i].children, le) {
      SortedFoldersFirst(f, f.nodes[i].children, le);
    }
  }

  // ---------- the editor's functions ----------

  class Editor {
    var nodes: seq<Node>
    var roots: seq<nat>
    var byPath: map<string, nat>
    var out: seq<Entry>

    ghost function Tree(): Forest reads this { Forest(nodes, roots, byPath) }

    constructor ()
      ensures Tree() == Forest([], [], map[]) && out == []
    {
      nodes, roots, byPath, out := [], [], map[], [];
    }

    method Allocate(path: string, dir: bool, content: string) returns (id: nat)
      modifies this`nodes, this`byPath
      ensures id == old(|nodes|) && Tree() == AddNode(old(Tree()), path, dir, content)
    {
      var segs := Split(path);
      id := |nodes|;
      nodes := nodes + [Node(segs[|segs| - 1], path, dir, content, [])];
      byPath := byPath[path := id];
    }

    // `id` was new in `f`; since then folders on the way to its parent `j` were made.
    method PushChild(j: nat, id: nat, ghost f: Forest, ghost loose: set<nat>)
      requires id < |f.nodes| && Depth(f.nodes[id].path) > 1 && id !in loose && j < |nodes|
      requires Grew(f, Tree(), Parent(f.nodes[id].path)) && ForestOk(Tree(), loose + {id})
      requires nodes[j].path == Parent(f.nodes[id].path) && nodes[j].path in byPath
      modifies this`nodes
      ensures ForestOk(Tree(), loose) && SameNodes(old(Tree()), Tree())
    {
      ghost var f2 := Tree();
      GrewThenChild(f, f2, loose, j, id);
      nodes := nodes[j := nodes[j].(children := nodes[j].children + [id])];
      assert Tree() == AddChild(f2, j, id);
    }

    // Attach a new node under its parent folder, or to the roots. `f2` is the tree with the folders
    // above it, before the node goes in.
    method Attach(id: nat, ghost loose: set<nat>) returns (ghost f2: Forest)
      requires ForestOk(Tree(), loose + {id}) && id < |nodes| && id !in loose
      requires LooseBelow(Tree(), loose, nodes[id].path)
      modifies this`nodes, this`roots, this`byPath
      ensures ForestOk(Tree(), loose)
      ensures Depth(old(nodes[id].path)) == 1 ==> Tree() == AddRoot(old(Tree()), id)
      ensures Depth(old(nodes[id].path)) > 1 ==>
                Grew(old(Tree()), f2, Parent(old(nodes[id].path))) && SameNodes(f2, Tree())
      decreases Depth(nodes[id].path), 1
    {
      var segs := Split(nodes[id].path);
      f2 := Tree();
      if |segs| > 1 {
        f2 := AttachBelow(id, segs, loose);
      } else {
        AddRootOk(Tree(), loose, id);
        roots := roots + [id];
      }
    }

    method AttachBelow(id: nat, segs: seq<string>, ghost loose: set<nat>) returns (ghost f2: Forest)
      requires ForestOk(Tree(), loose + {id}) && id < |nodes| && id !in loose
      requires LooseBelow(Tree(), loose, nodes[id].path) && segs == Split(nodes[id].path) && |segs| > 1
      modifies this`nodes, this`roots, this`byPath
      ensures ForestOk(Tree(), loose)
      ensures Grew(old(Tree()), f2, Parent(old(nodes[id].path))) && SameNodes(f2, Tree())
      decreases |segs|, 0
    {
      ghost var f := Tree();
      ParentFacts(nodes[id].path);
      LooseWithChild(f, loose, id);
      var j := EnsureDir(Join(segs[..|segs| - 1]), loose + {id});
      f2 := Tree();
      PushChild(j, id, f, loose);
    }

    /** The folder node of `path`, made together with the folders above it if missing. */
    method EnsureDir(path: string, ghost loose: set<nat>) returns (id: nat)
      requires ForestOk(Tree(), loose) && LooseBelow(Tree(), loose, path)
      modifies this`nodes, this`roots, this`byPath
      ensures ForestOk(Tree(), loose) && Grew(old(Tree()), Tree(), path)
      ensures path in byPath && id == byPath[path] && id < |nodes| && nodes[id].path == path
      decreases Depth(path), 2
    {
      ghost var f := Tree();
      if path in byPath {
        KnownMeansFoldersKnown(f, loose, path);
        return byPath[path];
      }
      AddNodeOk(f, loose, path, true, "");
      id := Allocate(path, true, "");
      assert forall i <- loose :: i < |f.nodes|;
      ghost var f2 := Attach(id, loose);
      if Depth(path) == 1 {
        GrewTop(f, path);
      } else {
        GrewStep(f, f2, Tree(), path);
      }
    }

    // Files first shadow whatever the Map holds at their path; folders are found or made.
    method AddEntry(e: Entry, ghost done: seq<Entry>)
      requires ForestOk(Tree(), {})
      modifies this`nodes, this`roots, this`byPath
      ensures ForestOk(Tree(), {})
      ensures old(Describes(Tree(), done)) && WellFormedTemplate(done + [e]) ==> Describes(Tree(), done + [e])
    {
      ghost var f := Tree();
      if e.dir {
        var id := EnsureDir(e.path, {});
        if Describes(f, done) { FolderAdded(f, Tree(), done, e); }
        return;
      }
      AddNodeOk(f, {}, e.path, false, e.content);
      assert {} + {|f.nodes|} == {|f.nodes|};
      var id := Allocate(e.path, false, e.content);
      ghost var f2 := Attach(id, {});
      if Describes(f, done) && WellFormedTemplate(done + [e]) {
        FileIsNew(f, done, e);
        if Depth(e.path) == 1 {
          FileAddedTop(f, done, e);
        } else {
          FileAddedBelow(f, f2, Tree(), done, e);
        }
      }
    }

    method SetArray(owner: Option<nat>, ids: seq<nat>)
      requires owner.Some? ==> owner.value < |nodes|
      modifies this`nodes, this`roots
      ensures Tree() == SetLevel(old(Tree()), owner, ids)
    {
      match owner
      case None => roots := ids;
      case Some(i) => nodes := nodes[i := nodes[i].(children := ids)];
    }

    method SortArray(owner: Option<nat>, le: StringOrder) returns (level: seq<nat>)
      requires PlacedOk(Tree(), {}) && TotalOrder(le) && (owner.Some? ==> owner.value < |nodes|)
      modifies this`nodes, this`roots
      ensures var nle := NodeLe(Keys(old(nodes)), le);
        && PlacedOk(Tree(), {}) && Resorted(old(Tree()), Tree(), nle)
        && level == LevelOf(Tree(), owner) && Ordered(level, nle)
      ensures Keys(nodes) == Keys(old(nodes)) && LevelDepth(Tree(), owner) == LevelDepth(old(Tree()), owner)
      ensures forall d :: DepthsUpTo(old(Tree()), d) ==> DepthsUpTo(Tree(), d)
    {
      ghost var f := Tree();
      var keys := Keys(nodes);
      NodeLePreorder(keys, le);
      level := Sort(if owner.None? then roots else nodes[owner.value].children, NodeLe(keys, le));
      SortedLevelResorts(f, owner, NodeLe(keys, le));
      SortOrdered(LevelOf(f, owner), NodeLe(keys, le));
      SetArray(owner, level);
      ResortedPlacedOk(f, Tree(), NodeLe(keys, le));
      assert Keys(nodes) == keys;
    }

    /** Sorts one array in place, then the arrays of the nodes in it. */
    method SortLevel(owner: Option<nat>, le: StringOrder, ghost d: nat, ghost h: nat, ghost nle: (nat, nat) -> bool)
      requires PlacedOk(Tree(), {}) && DepthsUpTo(Tree(), d) && TotalOrder(le)
      requires nle == NodeLe(Keys(nodes), le)
      requires (owner.Some? ==> owner.value < |nodes|) && h + LevelDepth(Tree(), owner) == d
      modifies this`nodes, this`roots
      ensures PlacedOk(Tree(), {}) && Resorted(old(Tree()), Tree(), nle)
      ensures Ordered(LevelOf(Tree(), owner), nle)
      ensures h > 0 ==> forall c <- LevelOf(Tree(), owner) :: SortedBelow(Tree(), c, h - 1, nle)
      ensures Keys(nodes) == Keys(old(nodes)) && DepthsUpTo(Tree(), d)
      decreases h, 1
    {
      ghost var f := Tree();
      var level := SortArray(owner, le);
      ghost var f1 := Tree();
      LevelMembers(f1, owner);
      SortEach(level, le, d, h, nle);
      ResortedTransitive(f, f1, Tree(), nle);
      SortedLevelDone(f1, Tree(), owner, h, nle);
    }

    // The loop over one array.
    method SortEach(level: seq<nat>, le: StringOrder, ghost d: nat, ghost h: nat, ghost nle: (nat, nat) -> bool)
      requires PlacedOk(Tree(), {}) && DepthsUpTo(Tree(), d) && TotalOrder(le)
      requires nle == NodeLe(Keys(nodes), le)
      requires forall c <- level :: c < |nodes| && h + Depth(nodes[c].path) == d + 1
      modifies this`nodes, this`roots
      ensures PlacedOk(Tree(), {}) && Resorted(old(Tree()), Tree(), nle) && SortedSoFar(Tree(), level, |level|, h, nle)
      ensures Keys(nodes) == Keys(old(nodes)) && DepthsUpTo(Tree(), d)
      decreases h, 0
    {
      ghost var f := Tree();
      for k := 0 to |level|
        invariant PlacedOk(Tree(), {}) && Resorted(f, Tree(), nle)
        invariant DepthsUpTo(Tree(), d) && Keys(nodes) == Keys(f.nodes)
        invariant SortedSoFar(Tree(), level, k, h, nle)
      {
        ghost var before := Tree();
        assert level[k] in level;
        assert SameNode(nodes[level[k]], f.nodes[level[k]]);
        SortLevel(Some(level[k]), le, d, h - 1, nle);
        ResortedTransitive(f, before, Tree(), nle);
        SortedSoFarNext(before, Tree(), level, k, h, nle);
      }
    }

    method AddAll(sorted: seq<Entry>)
      requires Tree() == Forest([], [], map[])
      modifies this`nodes, this`roots, this`byPath
      ensures ForestOk(Tree(), {})
      ensures WellFormedTemplate(sorted) ==> Describes(Tree(), sorted)
    {
      for k := 0 to |sorted|
        invariant ForestOk(Tree(), {})
        invariant WellFormedTemplate(sorted) ==> Describes(Tree(), sorted[..k])
      {
        assert sorted[..k + 1] == sorted[..k] + [sorted[k]];
        if WellFormedTemplate(sorted) { TemplatePrefix(sorted, k + 1); }
        AddEntry(sorted[k], sorted[..k]);
      }
      assert sorted[..|sorted|] == sorted;
    }

    /** Builds the tree. For any template every node ends up in exactly one array, under the
        node of its parent path; for a well-formed one the tree describes the template; and all
        arrays are sorted, folders first. */
    method EntriesToTree(entries: seq<Entry>, le: StringOrder)
      requires Tree() == Forest([], [], map[]) && TotalOrder(le)
      modifies this`nodes, this`roots, this`byPath
      ensures ForestOk(Tree(), {}) && FullySorted(Tree(), le)
      ensures WellFormedTemplate(entries) ==> Describes(Tree(), entries)
      ensures FoldersFirst(nodes, roots, le)
      ensures forall i :: 0 <= i < |nodes| ==> FoldersFirst(nodes, nodes[i].children, le)
    {
      var pathLe := (a: Entry, b: Entry) => le(a.path, b.path);
      AddAll(Sort(entries, pathLe));
      ghost var f, d, nle := Tree(), MaxDepth(Tree()), NodeLe(Keys(nodes), le);
      SortLevel(None, le, d, d, nle);
      ResortedOk(f, Tree(), nle);
      if WellFormedTemplate(entries) {
        SortKeepsAll(entries, pathLe);
        SortedTemplate(entries, pathLe);
        SameEntriesDescribed(f, Sort(entries, pathLe), entries);
        ResortedDescribed(f, Tree(), entries, nle);
      }
      EveryArraySorted(Tree(), d, le);
      AllFoldersFirst(Tree(), le);
    }

    method Walk(id: nat, ghost h: nat)
      requires PlacedOk(Tree(), {}) && id < |nodes| && DepthsUpTo(Tree(), h + Depth(nodes[id].path))
      modifies this`out
      ensures out == old(out) + Emitted(Tree(), id, h)
      decreases h, 1
    {
      var n := nodes[id];
      if !n.dir {
        out := out + [SeedEntry(n.path, false, n.content)];
        return;
      }
      if n.children == [] {
        out := out + [SeedEntry(n.path, true, "")];
        return;
      }
      LevelMembers(Tree(), Some(id));
      assert n.children[0] in LevelOf(Tree(), Some(id));
      WalkEach(n.children, h - 1);
    }

    method WalkEach(ids: seq<nat>, ghost h: nat)
      requires PlacedOk(Tree(), {}) && forall c <- ids :: c < |nodes| && DepthsUpTo(Tree(), h + Depth(nodes[c].path))
      modifies this`out
      ensures out == old(out) + EmittedAll(Tree(), ids, h)
      decreases h, 2
    {
      ghost var f, before := Tree(), out;
      for k := 0 to |ids|
        invariant out == before + EmittedAll(f, ids[..k], h)
      {
        assert ids[k] in ids && ids[..k + 1][..k] == ids[..k];
        Walk(ids[k], h);
        EmittedNext(before, f, ids, k, h);
      }
      assert ids[..|ids|] == ids;
    }

    /** Flattens the tree; `d` bounds its depth. */
    method TreeToEntries(ghost d: nat) returns (entries: seq<Entry>)
      requires PlacedOk(Tree(), {}) && DepthsUpTo(Tree(), d + 1)
      modifies this`out
      ensures entries == EmittedAll(Tree(), roots, d)
    {
      out := [];
      forall r | r in roots ensures r < |nodes| && DepthsUpTo(Tree(), d + Depth(nodes[r].path)) { }
      WalkEach(roots, d);
      entries := out;
    }
  }
}
