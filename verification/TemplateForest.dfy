/** The editor's tree of a template: nodes are objects held in `children` arrays and found
    through a Map from path to node. A node's identity is its index in the arena `nodes`, so
    two nodes may carry the same path when a template repeats one. */
module TemplateForest {
  import opened Wrappers
  import opened Paths
  import opened Sorting
  import opened Provision

  datatype Node = Node(name: string, path: string, dir: bool, content: string, children: seq<nat>)

  datatype Forest = Forest(nodes: seq<Node>, roots: seq<nat>, byPath: map<string, nat>)

  function Depth(path: string): nat { |Split(path)| }

  function NameOf(path: string): string { Split(path)[Depth(path) - 1] }

  function Parent(path: string): string
    requires Depth(path) > 1
  {
    Join(Split(path)[..Depth(path) - 1])
  }

  /** `p` is `q` or a folder above it. */
  predicate Above(p: string, q: string) { Split(p) <= Split(q) }

  lemma ParentFacts(path: string)
    requires Depth(path) > 1
    ensures Split(Parent(path)) == Split(path)[..Depth(path) - 1]
    ensures Depth(Parent(path)) == Depth(path) - 1 && Above(Parent(path), path)
  {
    SplitJoin(Split(path)[..Depth(path) - 1]);
  }

  lemma SamePath(p: string, q: string)
    requires Split(p) == Split(q)
    ensures p == q
  {
    JoinSplit(p);
    JoinSplit(q);
  }

  // What lies strictly above a path lies above its parent.
  lemma AboveParent(p: string, path: string)
    requires Depth(path) > 1
    ensures Above(p, path) <==> p == path || Above(p, Parent(path))
  {
    ParentFacts(path);
    if Above(p, path) {
      if Depth(p) == Depth(path) {
        SamePath(p, path);
      } else {
        assert Split(p) == Split(path)[..Depth(p)];
      }
    }
  }

  lemma AboveTop(p: string, path: string)
    requires Depth(path) == 1
    ensures Above(p, path) <==> p == path
  {
    if Above(p, path) {
      SamePath(p, path);
    }
  }

  // ---------- what always holds of the forest, whatever the template ----------

  ghost predicate ParentKnown(f: Forest, loose: set<nat>, p: string)
    requires p in f.byPath
  {
    Depth(p) > 1 ==> Parent(p) in f.byPath || f.byPath[p] in loose
  }

  // Nodes in `loose` are known to the Map but not yet in any array.
  ghost predicate MapOk(f: Forest, loose: set<nat>) {
    && (forall p <- f.byPath :: f.byPath[p] < |f.nodes| && f.nodes[f.byPath[p]].path == p)
    && (forall p {:trigger ParentKnown(f, loose, p)} :: p in f.byPath ==> ParentKnown(f, loose, p))
    && (forall i :: 0 <= i < |f.nodes| ==> f.nodes[i].name == NameOf(f.nodes[i].path))
  }

  // Placing a node that belongs where it is put.
  lemma MapStays(f: Forest, f': Forest, loose: set<nat>, loose': set<nat>)
    requires MapOk(f, loose) && f'.byPath == f.byPath && |f'.nodes| == |f.nodes|
    requires forall k :: 0 <= k < |f.nodes| ==>
      f'.nodes[k].path == f.nodes[k].path && f'.nodes[k].name == f.nodes[k].name
    requires forall k <- loose :: k !in loose' && k < |f.nodes| && Depth(f.nodes[k].path) > 1 ==>
      Parent(f.nodes[k].path) in f.byPath
    ensures MapOk(f', loose')
  {
    forall p | p in f'.byPath ensures ParentKnown(f', loose', p) {
      assert ParentKnown(f, loose, p);
    }
  }

  ghost predicate Fits(f: Forest, j: nat, c: nat)
    requires j < |f.nodes|
  {
    c < |f.nodes| && Depth(f.nodes[c].path) > 1 && Parent(f.nodes[c].path) == f.nodes[j].path
  }

  /** Every array holds only nodes that belong there: the roots have one segment, and children
      have the path of their holder as parent. */
  ghost predicate PlacedOk(f: Forest, loose: set<nat>) {
    && (forall i <- f.roots :: i < |f.nodes| && Depth(f.nodes[i].path) == 1 && i !in loose)
    && (forall j: nat, c: nat {:trigger c in f.nodes[j].children} ::
          j < |f.nodes| && c in f.nodes[j].children ==> Fits(f, j, c) && c !in loose)
  }

  ghost predicate Held(f: Forest, i: nat) {
    i in f.roots || exists j :: 0 <= j < |f.nodes| && i in f.nodes[j].children
  }

  /** Every node is in exactly one array, once. */
  ghost predicate HeldOnce(f: Forest, loose: set<nat>) {
    && (forall i :: 0 <= i < |f.nodes| && i !in loose ==> Held(f, i))
    && NoDup(f.roots) && (forall j :: 0 <= j < |f.nodes| ==> NoDup(f.nodes[j].children))
    && (forall j, k, c :: 0 <= j < k < |f.nodes| && c in f.nodes[j].children ==> c !in f.nodes[k].children)
  }

  ghost predicate ForestOk(f: Forest, loose: set<nat>) {
    MapOk(f, loose) && PlacedOk(f, loose) && HeldOnce(f, loose)
  }

  function AddNode(f: Forest, path: string, dir: bool, content: string): Forest {
    f.(nodes := f.nodes + [Node(NameOf(path), path, dir, content, [])], byPath := f.byPath[path := |f.nodes|])
  }

  function AddRoot(f: Forest, i: nat): Forest { f.(roots := f.roots + [i]) }

  function AddChild(f: Forest, j: nat, i: nat): Forest
    requires j < |f.nodes|
  {
    f.(nodes := f.nodes[j := f.nodes[j].(children := f.nodes[j].children + [i])])
  }

  // Being held survives when arrays only grow.
  lemma HeldKept(f: Forest, f': Forest, i: nat)
    requires Held(f, i) && |f.nodes| <= |f'.nodes|
    requires forall x <- f.roots :: x in f'.roots
    requires forall j, x :: 0 <= j < |f.nodes| && x in f.nodes[j].children ==> x in f'.nodes[j].children
    ensures Held(f', i)
  {
    if i !in f.roots {
      var j :| 0 <= j < |f.nodes| && i in f.nodes[j].children;
      assert i in f'.nodes[j].children;
    }
  }

  lemma AddNodeMapOk(f: Forest, loose: set<nat>, path: string, dir: bool, content: string)
    requires MapOk(f, loose)
    ensures MapOk(AddNode(f, path, dir, content), loose + {|f.nodes|})
  {
    var f' := AddNode(f, path, dir, content);
    forall p | p in f'.byPath ensures ParentKnown(f', loose + {|f.nodes|}, p) {
      assert p in f.byPath ==> ParentKnown(f, loose, p);
    }
  }

  lemma AddNodePlacedOk(f: Forest, loose: set<nat>, path: string, dir: bool, content: string)
    requires PlacedOk(f, loose)
    ensures PlacedOk(AddNode(f, path, dir, content), loose + {|f.nodes|})
  {
    var f', n := AddNode(f, path, dir, content), |f.nodes|;
    forall j: nat, c: nat | j < |f'.nodes| && c in f'.nodes[j].children
      ensures Fits(f', j, c) && c !in loose + {n}
    {
      assert j < n && c in f.nodes[j].children;
    }
  }

  lemma AddNodeHeldOnce(f: Forest, loose: set<nat>, path: string, dir: bool, content: string)
    requires HeldOnce(f, loose)
    ensures HeldOnce(AddNode(f, path, dir, content), loose + {|f.nodes|})
  {
    var f' := AddNode(f, path, dir, content);
    forall i | 0 <= i < |f'.nodes| && i !in loose + {|f.nodes|} ensures Held(f', i) {
      HeldKept(f, f', i);
    }
  }

  lemma AddNodeOk(f: Forest, loose: set<nat>, path: string, dir: bool, content: string)
    requires ForestOk(f, loose)
    ensures ForestOk(AddNode(f, path, dir, content), loose + {|f.nodes|})
  {
    AddNodeMapOk(f, loose, path, dir, content);
    AddNodePlacedOk(f, loose, path, dir, content);
    AddNodeHeldOnce(f, loose, path, dir, content);
  }

  lemma AddRootOk(f: Forest, loose: set<nat>, i: nat)
    requires ForestOk(f, loose + {i}) && i < |f.nodes| && Depth(f.nodes[i].path) == 1 && i !in loose
    ensures ForestOk(AddRoot(f, i), loose)
  {
    var f' := AddRoot(f, i);
    assert i in f'.roots;
    forall k | 0 <= k < |f.nodes| && k !in loose ensures Held(f', k) {
      if k != i {
        HeldKept(f, f', k);
      }
    }
    MapStays(f, f', loose + {i}, loose);
    assert PlacedOk(f', loose);
  }

  lemma AddChildPlacedOk(f: Forest, loose: set<nat>, j: nat, i: nat)
    requires PlacedOk(f, loose + {i}) && i < |f.nodes| && j < |f.nodes| && i !in loose
    requires Depth(f.nodes[i].path) > 1 && Parent(f.nodes[i].path) == f.nodes[j].path
    ensures PlacedOk(AddChild(f, j, i), loose)
  {
    var f' := AddChild(f, j, i);
    forall k: nat, c: nat | k < |f'.nodes| && c in f'.nodes[k].children
      ensures Fits(f', k, c) && c !in loose
    {
      if c in f.nodes[k].children {
        assert c != i;
      } else {
        assert k == j && c == i;
      }
    }
  }

  lemma NoDupAppended(s: seq<nat>, x: nat)
    requires NoDup(s) && x !in s
    ensures NoDup(s + [x])
  {
  }

  lemma AddChildHeldOnce(f: Forest, loose: set<nat>, j: nat, i: nat)
    requires HeldOnce(f, loose + {i}) && PlacedOk(f, loose + {i}) && i < |f.nodes| && j < |f.nodes| && i !in loose
    ensures HeldOnce(AddChild(f, j, i), loose)
  {
    var f' := AddChild(f, j, i);
    assert i in f'.nodes[j].children;
    assert i !in f.nodes[j].children;
    NoDupAppended(f.nodes[j].children, i);
    forall k | 0 <= k < |f.nodes| && k !in loose ensures Held(f', k) {
      if k != i {
        HeldKept(f, f', k);
      }
    }
  }

  lemma AddChildOk(f: Forest, loose: set<nat>, j: nat, i: nat)
    requires ForestOk(f, loose + {i}) && i < |f.nodes| && j < |f.nodes| && i !in loose
    requires Depth(f.nodes[i].path) > 1 && Parent(f.nodes[i].path) == f.nodes[j].path && f.nodes[j].path in f.byPath
    ensures ForestOk(AddChild(f, j, i), loose)
  {
    AddChildPlacedOk(f, loose, j, i);
    AddChildHeldOnce(f, loose, j, i);
    MapStays(f, AddChild(f, j, i), loose + {i}, loose);
  }

  // ---------- ensureDir ----------

  ghost predicate SameNode(a: Node, b: Node) { a.(children := []) == b.(children := []) }

  /** `f'` is `f` plus plain folders on the way to `path`, none of which was known before. */
  ghost predicate Grew(f: Forest, f': Forest, path: string) {
    && |f.nodes| <= |f'.nodes|
    && (forall i :: 0 <= i < |f.nodes| ==> SameNode(f'.nodes[i], f.nodes[i]))
    && (forall i :: |f.nodes| <= i < |f'.nodes| ==>
          && f'.nodes[i].dir && f'.nodes[i].content == "" && Above(f'.nodes[i].path, path)
          && f'.nodes[i].path !in f.byPath && f'.nodes[i].path in f'.byPath && f'.byPath[f'.nodes[i].path] == i)
    && (forall p :: p in f'.byPath <==> p in f.byPath || Above(p, path))
    && (forall p <- f.byPath :: f'.byPath[p] == f.byPath[p])
  }

  // The loose nodes lie strictly below `path`.
  ghost predicate LooseBelow(f: Forest, loose: set<nat>, path: string) {
    forall i <- loose :: i < |f.nodes| && Above(path, f.nodes[i].path) && path != f.nodes[i].path
  }

  lemma KnownMeansFoldersKnown(f: Forest, loose: set<nat>, path: string)
    requires MapOk(f, loose) && LooseBelow(f, loose, path) && path in f.byPath
    ensures Grew(f, f, path)
  {
    forall p | Above(p, path) ensures p in f.byPath {
      AboveKnown(f, loose, path, p);
    }
  }

  lemma AboveKnown(f: Forest, loose: set<nat>, path: string, p: string)
    requires MapOk(f, loose) && LooseBelow(f, loose, path) && path in f.byPath && Above(p, path)
    ensures p in f.byPath
    decreases Depth(path)
  {
    if Depth(path) == 1 {
      AboveTop(p, path);
    } else if p != path {
      AboveParent(p, path);
      ParentFacts(path);
      assert ParentKnown(f, loose, path);
      LooseBelowParent(f, loose, path);
      AboveKnown(f, loose, Parent(path), p);
    }
  }

  lemma LooseBelowParent(f: Forest, loose: set<nat>, path: string)
    requires LooseBelow(f, loose, path) && Depth(path) > 1
    ensures LooseBelow(f, loose, Parent(path))
  {
    ParentFacts(path);
    forall i | i in loose ensures Above(Parent(path), f.nodes[i].path) && Parent(path) != f.nodes[i].path {
      var p := f.nodes[i].path;
      assert Split(path) == Split(p)[..Depth(path)];
      assert Split(Parent(path)) == Split(p)[..Depth(path) - 1];
    }
  }

  lemma LooseWithChild(f: Forest, loose: set<nat>, id: nat)
    requires id < |f.nodes| && LooseBelow(f, loose, f.nodes[id].path) && Depth(f.nodes[id].path) > 1
    ensures LooseBelow(f, loose + {id}, Parent(f.nodes[id].path))
  {
    LooseBelowParent(f, loose, f.nodes[id].path);
    ParentFacts(f.nodes[id].path);
  }

  /** The same nodes and Map; arrays may differ. */
  ghost predicate SameNodes(f: Forest, f': Forest) {
    && f'.byPath == f.byPath && |f'.nodes| == |f.nodes|
    && forall i :: 0 <= i < |f.nodes| ==> SameNode(f'.nodes[i], f.nodes[i])
  }

  lemma ChildSameNodes(f: Forest, j: nat, i: nat)
    requires j < |f.nodes|
    ensures SameNodes(f, AddChild(f, j, i))
  {
  }

  // A folder added for `path` itself, then those above it.
  lemma GrewStep(f: Forest, f2: Forest, f3: Forest, path: string)
    requires path !in f.byPath && Depth(path) > 1
    requires Grew(AddNode(f, path, true, ""), f2, Parent(path)) && SameNodes(f2, f3)
    ensures Grew(f, f3, path) && |f.nodes| < |f3.nodes|
  {
    forall p ensures Above(p, path) <==> p == path || Above(p, Parent(path)) {
      AboveParent(p, path);
    }
    GrewByOne(f, f2, path, Parent(path));
    forall i | 0 <= i < |f3.nodes| ensures f3.nodes[i].(children := []) == f2.nodes[i].(children := []) {
      assert SameNode(f3.nodes[i], f2.nodes[i]);
    }
  }

  lemma GrewKeepsNode(f: Forest, f2: Forest, path: string, id: nat)
    requires Grew(f, f2, path) && id < |f.nodes|
    ensures id < |f2.nodes| && f2.nodes[id].path == f.nodes[id].path
  {
    assert SameNode(f2.nodes[id], f.nodes[id]);
  }

  lemma GrewThenChild(f: Forest, f2: Forest, loose: set<nat>, j: nat, id: nat)
    requires id < |f.nodes| && Depth(f.nodes[id].path) > 1 && id !in loose && j < |f2.nodes|
    requires Grew(f, f2, Parent(f.nodes[id].path)) && ForestOk(f2, loose + {id})
    requires f2.nodes[j].path == Parent(f.nodes[id].path) && f2.nodes[j].path in f2.byPath
    ensures ForestOk(AddChild(f2, j, id), loose) && SameNodes(f2, AddChild(f2, j, id))
  {
    GrewKeepsNode(f, f2, Parent(f.nodes[id].path), id);
    AddChildOk(f2, loose, j, id);
    ChildSameNodes(f2, j, id);
  }

  lemma GrewByOne(f: Forest, f2: Forest, path: string, parent: string)
    requires path !in f.byPath && Grew(AddNode(f, path, true, ""), f2, parent)
    requires forall p :: Above(p, path) <==> p == path || Above(p, parent)
    ensures Grew(f, f2, path) && |f.nodes| < |f2.nodes|
  {
    var f1, n := AddNode(f, path, true, ""), |f.nodes|;
    assert f1.nodes[n].path == path && SameNode(f2.nodes[n], f1.nodes[n]);
    assert f1.byPath[path] == n;
    forall i | 0 <= i < n ensures SameNode(f2.nodes[i], f.nodes[i]) {
      assert f1.nodes[i] == f.nodes[i];
    }
  }

  lemma GrewTop(f: Forest, path: string)
    requires path !in f.byPath && Depth(path) == 1
    ensures Grew(f, AddRoot(AddNode(f, path, true, ""), |f.nodes|), path)
  {
    forall p ensures Above(p, path) <==> p == path { AboveTop(p, path); }
  }

  // ---------- sorting levels ----------

  type StringOrder = (string, string) -> bool

  // Folders first, then by name.
  predicate KeyLe(le: StringOrder, a: (bool, string), b: (bool, string)) {
    if a.0 == b.0 then le(a.1, b.1) else a.0
  }

  function Keys(nodes: seq<Node>): seq<(bool, string)> {
    seq(|nodes|, i requires 0 <= i < |nodes| => (nodes[i].dir, nodes[i].name))
  }

  function KeyAt(keys: seq<(bool, string)>, i: nat): (bool, string) {
    if i < |keys| then keys[i] else (true, "")
  }

  function NodeLe(keys: seq<(bool, string)>, le: StringOrder): (nat, nat) -> bool {
    (a: nat, b: nat) => KeyLe(le, KeyAt(keys, a), KeyAt(keys, b))
  }

  lemma NodeLePreorder(keys: seq<(bool, string)>, le: StringOrder)
    requires TotalOrder(le)
    ensures TotalPreorder(NodeLe(keys, le))
  {
  }

  /** The same array up to order; if it changed, it is now sorted. */
  ghost predicate ResortedLevel(ids: seq<nat>, ids': seq<nat>, nle: (nat, nat) -> bool) {
    && multiset(ids') == multiset(ids)
    && (ids' == ids || Ordered(ids', nle))
  }

  ghost predicate Resorted(f: Forest, f': Forest, nle: (nat, nat) -> bool) {
    && f'.byPath == f.byPath && |f'.nodes| == |f.nodes|
    && (forall i :: 0 <= i < |f.nodes| ==>
          SameNode(f'.nodes[i], f.nodes[i]) && ResortedLevel(f.nodes[i].children, f'.nodes[i].children, nle))
    && ResortedLevel(f.roots, f'.roots, nle)
  }

  lemma ResortedTransitive(f: Forest, f1: Forest, f2: Forest, nle: (nat, nat) -> bool)
    requires Resorted(f, f1, nle) && Resorted(f1, f2, nle)
    ensures Resorted(f, f2, nle)
  {
  }

  lemma ResortedMembers(f: Forest, f': Forest, nle: (nat, nat) -> bool)
    requires Resorted(f, f', nle)
    ensures forall x :: x in f'.roots <==> x in f.roots
    ensures forall i, x :: 0 <= i < |f.nodes| ==> (x in f'.nodes[i].children <==> x in f.nodes[i].children)
    ensures NoDup(f.roots) ==> NoDup(f'.roots)
    ensures forall i :: 0 <= i < |f.nodes| && NoDup(f.nodes[i].children) ==> NoDup(f'.nodes[i].children)
  {
    SameSize(f'.roots, f.roots);
    NoDupOfMultiset(f.roots);
    NoDupOfMultiset(f'.roots);
    forall i | 0 <= i < |f.nodes|
      ensures forall x :: x in f'.nodes[i].children <==> x in f.nodes[i].children
      ensures NoDup(f.nodes[i].children) ==> NoDup(f'.nodes[i].children)
    {
      SameSize(f'.nodes[i].children, f.nodes[i].children);
      NoDupOfMultiset(f.nodes[i].children);
      NoDupOfMultiset(f'.nodes[i].children);
    }
  }

  lemma ResortedPlacedOk(f: Forest, f': Forest, nle: (nat, nat) -> bool)
    requires PlacedOk(f, {}) && Resorted(f, f', nle)
    ensures PlacedOk(f', {})
  {
    ResortedMembers(f, f', nle);
    forall j: nat, c: nat | j < |f'.nodes| && c in f'.nodes[j].children
      ensures Fits(f', j, c)
    {
      assert c in f.nodes[j].children;
    }
  }

  lemma ResortedOk(f: Forest, f': Forest, nle: (nat, nat) -> bool)
    requires ForestOk(f, {}) && Resorted(f, f', nle)
    ensures ForestOk(f', {})
  {
    ResortedMembers(f, f', nle);
    ResortedPlacedOk(f, f', nle);
    forall i | 0 <= i < |f'.nodes| ensures Held(f', i) {
      HeldKept(f, f', i);
    }
    assert HeldOnce(f', {});
    forall k | 0 <= k < |f.nodes| ensures f'.nodes[k].path == f.nodes[k].path && f'.nodes[k].name == f.nodes[k].name {
      assert SameNode(f'.nodes[k], f.nodes[k]);
    }
    MapStays(f, f', {}, {});
  }

  /** The arrays of node `i` and of everything below it, `h` levels deep, are sorted. */
  ghost predicate SortedBelow(f: Forest, i: nat, h: nat, nle: (nat, nat) -> bool)
    decreases h
  {
    i < |f.nodes| && Ordered(f.nodes[i].children, nle)
    && (h > 0 ==> forall c <- f.nodes[i].children :: SortedBelow(f, c, h - 1, nle))
  }

  lemma {:induction false} SortedBelowKept(f: Forest, f': Forest, i: nat, h: nat, nle: (nat, nat) -> bool)
    requires Resorted(f, f', nle) && SortedBelow(f, i, h, nle)
    ensures SortedBelow(f', i, h, nle)
    decreases h
  {
    ResortedMembers(f, f', nle);
    if h > 0 {
      forall c | c in f'.nodes[i].children ensures SortedBelow(f', c, h - 1, nle) {
        SortedBelowKept(f, f', c, h - 1, nle);
      }
    }
  }

  ghost predicate DepthsUpTo(f: Forest, d: nat) {
    forall i :: 0 <= i < |f.nodes| ==> Depth(f.nodes[i].path) <= d
  }

  function LevelOf(f: Forest, owner: Option<nat>): seq<nat> {
    match owner
    case None => f.roots
    case Some(i) => if i < |f.nodes| then f.nodes[i].children else []
  }

  function LevelDepth(f: Forest, owner: Option<nat>): nat {
    match owner
    case None => 0
    case Some(i) => if i < |f.nodes| then Depth(f.nodes[i].path) else 0
  }

  lemma LevelMembers(f: Forest, owner: Option<nat>)
    requires PlacedOk(f, {}) && (owner.Some? ==> owner.value < |f.nodes|)
    ensures forall c <- LevelOf(f, owner) :: c < |f.nodes| && Depth(f.nodes[c].path) == LevelDepth(f, owner) + 1
  {
    forall c | c in LevelOf(f, owner) ensures c < |f.nodes| && Depth(f.nodes[c].path) == LevelDepth(f, owner) + 1 {
      match owner
      case None =>
      case Some(i) =>
        assert c in f.nodes[i].children;
        ParentFacts(f.nodes[c].path);
    }
  }

  function SetLevel(f: Forest, owner: Option<nat>, ids: seq<nat>): Forest
    requires owner.Some? ==> owner.value < |f.nodes|
  {
    match owner
    case None => f.(roots := ids)
    case Some(i) => f.(nodes := f.nodes[i := f.nodes[i].(children := ids)])
  }

  lemma SortedLevelResorts(f: Forest, owner: Option<nat>, nle: (nat, nat) -> bool)
    requires TotalPreorder(nle) && (owner.Some? ==> owner.value < |f.nodes|)
    ensures Resorted(f, SetLevel(f, owner, Sort(LevelOf(f, owner), nle)), nle)
  {
    SortKeepsAll(LevelOf(f, owner), nle);
    SortOrdered(LevelOf(f, owner), nle);
  }

  /** All arrays of a forest are sorted once those of its roots and everything below are. */
  lemma {:induction false} AllSorted(f: Forest, d: nat, i: nat, nle: (nat, nat) -> bool)
    requires ForestOk(f, {}) && DepthsUpTo(f, d) && i < |f.nodes|
    requires forall r <- f.roots :: d > 0 ==> SortedBelow(f, r, d - 1, nle)
    ensures SortedBelow(f, i, d - Depth(f.nodes[i].path), nle)
    decreases Depth(f.nodes[i].path)
  {
    if i !in f.roots {
      var j := HolderOf(f, i);
      AllSorted(f, d, j, nle);
    }
  }

  // The node whose array holds a node that is no root.
  lemma HolderOf(f: Forest, i: nat) returns (j: nat)
    requires HeldOnce(f, {}) && PlacedOk(f, {}) && i < |f.nodes| && i !in f.roots
    ensures j < |f.nodes| && i in f.nodes[j].children
    ensures Depth(f.nodes[i].path) == Depth(f.nodes[j].path) + 1 && Parent(f.nodes[i].path) == f.nodes[j].path
  {
    assert Held(f, i);
    j :| 0 <= j < |f.nodes| && i in f.nodes[j].children;
    ParentFacts(f.nodes[i].path);
  }
}
