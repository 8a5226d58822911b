/** The two promises of the editor's normal form: users get the same files from it, and building
    the tree again from it gives the same tree. */
module TemplateRoundTrip {
  import opened Wrappers
  import opened Paths
  import opened Sorting
  import opened Provision
  import opened TemplateForest
  import opened TemplateTree
  import opened TemplateMeaning

  // ---------- the same disk ----------

  lemma CoveredByEntry(base: Path, es: seq<Entry>, p: Path)
    ensures Covered(p, ItemsOf(base, es)) <==> exists e :: e in es && p <= PlaceOf(base, e)
  {
    var items := ItemsOf(base, es);
    if Covered(p, items) {
      var item :| item in items && p <= item.path;
      ItemMembers(base, es, item);
    }
    if exists e :: e in es && p <= PlaceOf(base, e) {
      var e :| e in es && p <= PlaceOf(base, e);
      ItemMembers(base, es, ItemOf(base, e));
    }
  }

  lemma FileByEntry(base: Path, es: seq<Entry>, p: Path, content: string)
    ensures IsFileItem(p, content, ItemsOf(base, es)) <==>
            exists e :: e in es && !e.dir && e.content == content && p == PlaceOf(base, e)
  {
    ItemMembers(base, es, Item(p, false, content));
    assert forall e: Entry :: ItemOf(base, e) == Item(p, false, content) <==>
      !e.dir && e.content == content && p == PlaceOf(base, e);
  }

  lemma NormalFormSameFiles(base: Path, es: seq<Entry>, ns: seq<Entry>)
    requires FlattensTo(es, ns)
    ensures SameFiles(ItemsOf(base, es), ItemsOf(base, ns))
  {
    forall p, content
      ensures IsFileItem(p, content, ItemsOf(base, es)) <==> IsFileItem(p, content, ItemsOf(base, ns))
    {
      FileByEntry(base, es, p, content);
      FileByEntry(base, ns, p, content);
      assert forall e: Entry :: !e.dir ==> (e in es <==> e in ns);
    }
  }

  // Each item of the normal form is an item of the template, but for the content of a folder.
  lemma FromTemplate(base: Path, es: seq<Entry>, ns: seq<Entry>, item: Item) returns (origin: Item)
    requires FlattensTo(es, ns) && item in ItemsOf(base, ns)
    ensures origin in ItemsOf(base, es) && origin.path == item.path && origin.dir == item.dir
    ensures !item.dir ==> origin == item
  {
    ItemMembers(base, ns, item);
    var z :| z in ns && ItemOf(base, z) == item;
    assert Kept(es, z);
    var x :| x in es && x.path == z.path && x.dir == z.dir && (!x.dir ==> x == z);
    ItemMembers(base, es, ItemOf(base, x));
    origin := ItemOf(base, x);
  }

  lemma NormalFormUnblocked(fs: Disk, user: string, app: string, es: seq<Entry>, ns: seq<Entry>)
    requires FlattensTo(es, ns) && Unblocked(fs, user, app, es)
    ensures Unblocked(fs, user, app, ns)
  {
    var base := BoxOf(user, app);
    forall i | 0 <= i < |ns| ensures IsValidPath(TrimEnd(ns[i].path)) {
      assert ns[i] in ns && Kept(es, ns[i]);
      var x :| x in es && x.path == ns[i].path;
    }
    forall a, b | a in ItemsOf(base, ns) && b in ItemsOf(base, ns) ensures !Blocks(fs, a, b) {
      var x := FromTemplate(base, es, ns, a);
      var y := FromTemplate(base, es, ns, b);
      assert !Blocks(fs, x, y);
    }
    forall item, p | item in ItemsOf(base, ns) && p in fs && p < item.path ensures fs[p] == Folder {
      var x := FromTemplate(base, es, ns, item);
    }
  }

  /** A folder entry that the normal form drops: another entry lies below it. */
  ghost predicate Dropped(es: seq<Entry>, e: Entry) {
    e in es && e.dir && exists y :: y in es && Above(e.path, y.path) && y.path != e.path
  }

  /** Every folder the normal form drops is on the disk already, or is made for a kept entry. */
  ghost predicate DroppedStand(fs: Disk, base: Path, es: seq<Entry>, ns: seq<Entry>) {
    forall e :: Dropped(es, e) ==>
      PlaceOf(base, e) in fs || exists z :: z in ns && PlaceOf(base, e) <= PlaceOf(base, z)
  }

  lemma NotDroppedIsKept(es: seq<Entry>, ns: seq<Entry>, e: Entry) returns (z: Entry)
    requires FlattensTo(es, ns) && e in es && !Dropped(es, e)
    ensures z in ns && z.path == e.path
  {
    z := if e.dir then SeedEntry(e.path, true, "") else e;
    assert Kept(es, z);
  }

  lemma StillCovered(fs: Disk, base: Path, es: seq<Entry>, ns: seq<Entry>, p: Path)
    requires WellFormed(fs) && FlattensTo(es, ns) && DroppedStand(fs, base, es, ns)
    requires Covered(p, ItemsOf(base, es))
    ensures p in fs || Covered(p, ItemsOf(base, ns))
  {
    CoveredByEntry(base, es, p);
    CoveredByEntry(base, ns, p);
    var e :| e in es && p <= PlaceOf(base, e);
    if Dropped(es, e) {
      if PlaceOf(base, e) in fs {
        assert p == PlaceOf(base, e) || p < PlaceOf(base, e);
      } else {
        var z :| z in ns && PlaceOf(base, e) <= PlaceOf(base, z);
        assert p <= PlaceOf(base, z);
      }
    } else {
      var z := NotDroppedIsKept(es, ns, e);
    }
  }

  lemma KeptIsCovered(base: Path, es: seq<Entry>, ns: seq<Entry>, p: Path)
    requires FlattensTo(es, ns) && Covered(p, ItemsOf(base, ns))
    ensures Covered(p, ItemsOf(base, es))
  {
    CoveredByEntry(base, es, p);
    CoveredByEntry(base, ns, p);
    var z :| z in ns && p <= PlaceOf(base, z);
    assert Kept(es, z);
    var x :| x in es && x.path == z.path;
  }

  lemma SamePlacesIff(fs: Disk, base: Path, es: seq<Entry>, ns: seq<Entry>)
    requires WellFormed(fs) && FlattensTo(es, ns)
    ensures SamePlaces(fs, ItemsOf(base, es), ItemsOf(base, ns)) <==> DroppedStand(fs, base, es, ns)
  {
    var items, items' := ItemsOf(base, es), ItemsOf(base, ns);
    if DroppedStand(fs, base, es, ns) {
      forall p | p !in fs ensures Covered(p, items) <==> Covered(p, items') {
        if Covered(p, items) { StillCovered(fs, base, es, ns, p); }
        if Covered(p, items') { KeptIsCovered(base, es, ns, p); }
      }
    }
    if SamePlaces(fs, items, items') {
      forall e | Dropped(es, e) && PlaceOf(base, e) !in fs
        ensures exists z :: z in ns && PlaceOf(base, e) <= PlaceOf(base, z)
      {
        var p := PlaceOf(base, e);
        CoveredByEntry(base, es, p);
        CoveredByEntry(base, ns, p);
      }
    }
  }

  lemma BelowBoxIsNew(fs: Disk, base: Path, es: seq<Entry>, ns: seq<Entry>)
    requires WellFormed(fs) && CanMkdir(fs, base)
    ensures DroppedStand(MkdirAll(fs, base), base, es, ns) <==> DroppedStand(fs, base, es, ns)
  {
    MkdirFacts(fs, base);
    forall e: Entry ensures PlaceOf(base, e) in MkdirAll(fs, base) <==> PlaceOf(base, e) in fs {
      assert |PlaceOf(base, e)| > |base|;
    }
  }

  /** Wherever a file is wanted at a missing place, whatever comes first there in one list puts the
      same there as whatever comes first in the other. */
  ghost predicate SameWinners(fs: Disk, a: seq<Item>, b: seq<Item>) {
    forall p, content :: p !in fs && IsFileItem(p, content, a) ==> SameFirst(a, b, p)
  }

  lemma NoFileNoMatter(a: seq<Item>, b: seq<Item>, p: Path)
    requires SameFiles(a, b) && (forall content :: !IsFileItem(p, content, a))
    ensures SameFirst(a, b, p) <==> (Covered(p, a) <==> Covered(p, b))
  {
    CoveredIsFirst(a, p);
    CoveredIsFirst(b, p);
    if FirstAt(a, p).Some? && FirstAt(b, p).Some? {
      var x, y := FirstAt(a, p).value, FirstAt(b, p).value;
      assert !IsFileItem(p, x.content, a) && !IsFileItem(p, y.content, b);
      assert x.path == p ==> x == Item(p, x.dir, x.content);
      assert y.path == p ==> y == Item(p, y.dir, y.content);
    }
  }

  lemma FirstsSplit(fs: Disk, a: seq<Item>, b: seq<Item>)
    requires SameFiles(a, b)
    ensures SameFirsts(fs, a, b) <==> SamePlaces(fs, a, b) && SameWinners(fs, a, b)
  {
    if SameFirsts(fs, a, b) {
      forall p | p !in fs ensures Covered(p, a) <==> Covered(p, b) {
        assert SameFirst(a, b, p);
        CoveredIsFirst(a, p);
        CoveredIsFirst(b, p);
      }
    }
    if SamePlaces(fs, a, b) && SameWinners(fs, a, b) {
      forall p | p !in fs ensures SameFirst(a, b, p) {
        if forall content :: !IsFileItem(p, content, a) {
          NoFileNoMatter(a, b, p);
        }
      }
    }
  }

  /** A template that is never refused, and what the editor writes back for it: neither is refused,
      and they leave the same disk exactly when they agree on the first entry at every missing place;
      that is, when every dropped folder stands already or is made for a kept entry, and wherever
      several entries want one missing place and one of them is a file, the first in the template
      and the first in the normal form put the same there. */
  lemma NormalFormFirstsIff(fs: Disk, user: string, app: string, es: seq<Entry>, ns: seq<Entry>)
    requires Ready(fs, user, app) && Unblocked(fs, user, app, es) && FlattensTo(es, ns)
    ensures Provisioned(fs, user, app, es).1.Ok? && Provisioned(fs, user, app, ns).1.Ok?
    ensures var base := BoxOf(user, app);
            var start, items, items' := MkdirAll(fs, base), ItemsOf(base, es), ItemsOf(base, ns);
      && (Provisioned(fs, user, app, es).0 == Provisioned(fs, user, app, ns).0 <==> SameFirsts(start, items, items'))
      && (SameFirsts(start, items, items') <==>
          DroppedStand(fs, base, es, ns) && SameWinners(start, items, items'))
  {
    var base := BoxOf(user, app);
    var start := MkdirAll(fs, base);
    NormalFormUnblocked(fs, user, app, es, ns);
    UnblockedLays(fs, user, app, es);
    UnblockedLays(fs, user, app, ns);
    UnblockedSameDiskIff(fs, user, app, es, ns);
    NormalFormSameFiles(base, es, ns);
    FirstsSplit(start, ItemsOf(base, es), ItemsOf(base, ns));
    MkdirFacts(fs, base);
    SamePlacesIff(start, base, es, ns);
    BelowBoxIsNew(fs, base, es, ns);
  }

  lemma ClashFreeSameWinners(fs: Disk, fs': Disk, a: seq<Item>, b: seq<Item>)
    requires ClashFree(fs, a) && ClashFree(fs, b) && SameFiles(a, b) && Keeps(fs, fs')
    ensures SameWinners(fs', a, b)
  {
    forall p, content | p !in fs' && IsFileItem(p, content, a) ensures SameFirst(a, b, p) {
      assert IsFileItem(p, content, b);
      assert Covered(p, a) && Covered(p, b);
      CoveredIsFirst(a, p);
      CoveredIsFirst(b, p);
      AnyIsFirst(fs, a, p, content);
      AnyIsFirst(fs, b, p, content);
    }
  }

  // Every item of the normal form is one of the template, so it has no new clashes.
  lemma NormalFormClashFree(fs: Disk, base: Path, es: seq<Entry>, ns: seq<Entry>)
    requires FlattensTo(es, ns) && ClashFree(fs, ItemsOf(base, es))
    ensures ClashFree(fs, ItemsOf(base, ns))
  {
    forall a, b | a in ItemsOf(base, ns) && b in ItemsOf(base, ns) ensures !Clash(fs, a, b) {
      var x := FromTemplate(base, es, ns, a);
      var y := FromTemplate(base, es, ns, b);
      assert !Clash(fs, x, y);
    }
  }

  /** For a template whose order does not matter that is: exactly when every dropped folder stands
      already or is made for another entry. */
  lemma NormalFormSameDiskIff(fs: Disk, user: string, app: string, es: seq<Entry>, ns: seq<Entry>)
    requires Ready(fs, user, app) && Sound(fs, user, app, es) && FlattensTo(es, ns)
    ensures Provisioned(fs, user, app, es).1.Ok? && Provisioned(fs, user, app, ns).1.Ok?
    ensures Provisioned(fs, user, app, es).0 == Provisioned(fs, user, app, ns).0 <==>
            DroppedStand(fs, BoxOf(user, app), es, ns)
  {
    var base := BoxOf(user, app);
    SoundUnblocked(fs, user, app, es);
    NormalFormFirstsIff(fs, user, app, es, ns);
    NormalFormSameFiles(base, es, ns);
    NormalFormClashFree(fs, base, es, ns);
    MkdirFacts(fs, base);
    ClashFreeSameWinners(fs, MkdirAll(fs, base), ItemsOf(base, es), ItemsOf(base, ns));
  }

  // ---------- clean templates ----------

  // Paths the editor accepts, and that the worker does not trim.
  predicate CleanPaths(es: seq<Entry>) {
    forall e <- es :: IsValidPath(e.path) && TrimEnd(e.path) == e.path
  }

  lemma PrefixWithin(base: Path, a: Path, b: Path)
    ensures base + a <= base + b <==> a <= b
  {
    if base + a <= base + b {
      assert a == (base + a)[|base|..];
      assert (base + b)[|base|..] == b;
      assert forall i :: 0 <= i < |a| ==> a[i] == (base + a)[|base| + i] == (base + b)[|base| + i] == b[i];
    }
  }

  lemma CleanIsClashFree(fs: Disk, base: Path, es: seq<Entry>)
    requires WellFormedTemplate(es) && CleanPaths(es)
    ensures ClashFree(fs, ItemsOf(base, es)) && Placeable(es)
  {
    forall a, b | a in ItemsOf(base, es) && b in ItemsOf(base, es) ensures !Clash(fs, a, b) {
      ItemMembers(base, es, a);
      ItemMembers(base, es, b);
      var x :| x in es && ItemOf(base, x) == a;
      var y :| y in es && ItemOf(base, y) == b;
      PrefixWithin(base, Split(x.path), Split(y.path));
    }
    forall i | 0 <= i < |es| ensures IsValidPath(TrimEnd(es[i].path)) {
      assert es[i] in es;
    }
  }

  lemma CleanDroppedStand(fs: Disk, base: Path, es: seq<Entry>, ns: seq<Entry>)
    requires CleanPaths(es) && FlattensTo(es, ns)
    ensures DroppedStand(fs, base, es, ns)
  {
    forall e | Dropped(es, e) ensures exists z :: z in ns && PlaceOf(base, e) <= PlaceOf(base, z) {
      var z := KeptBelow(es, e);
      assert Kept(es, z) && z in ns;
      var x :| x in es && x.path == z.path;
      PrefixWithin(base, Split(e.path), Split(z.path));
    }
  }

  /** So users get the same box whenever no path is repeated, no file lies above another entry,
      and no path ends in white space. */
  lemma NormalFormSameDisk(fs: Disk, user: string, app: string, es: seq<Entry>, ns: seq<Entry>)
    requires Ready(fs, user, app) && WellFormedTemplate(es) && CleanPaths(es) && FlattensTo(es, ns)
    requires NoClash(fs, ItemsOf(BoxOf(user, app), es))
    ensures Provisioned(fs, user, app, es).1.Ok? && Provisioned(fs, user, app, ns).1.Ok?
    ensures Provisioned(fs, user, app, es).0 == Provisioned(fs, user, app, ns).0
  {
    var base := BoxOf(user, app);
    CleanIsClashFree(fs, base, es);
    CleanDroppedStand(fs, base, es, ns);
    NormalFormSameDiskIff(fs, user, app, es, ns);
  }

  /** Load into the editor and write back. */
  method Normalise(entries: seq<Entry>, le: StringOrder) returns (ns: seq<Entry>, editor: Editor)
    requires TotalOrder(le)
    ensures fresh(editor) && ForestOk(editor.Tree(), {}) && FullySorted(editor.Tree(), le)
    ensures WellFormedTemplate(entries) ==>
              Describes(editor.Tree(), entries) && WellFormedTemplate(ns) && FlattensTo(entries, ns)
  {
    editor := new Editor();
    editor.EntriesToTree(entries, le);
    ghost var f, d := editor.Tree(), MaxDepth(editor.Tree());
    ns := editor.TreeToEntries(d);
    if WellFormedTemplate(entries) {
      FlattenKeeps(f, entries, d);
      FlattenWellFormed(f, entries, d);
    }
  }

  // ---------- the same tree ----------

  /** A tree as the user sees it: nodes by path, with the paths of their children in order. */
  datatype View = View(nodes: map<string, ViewNode>, roots: seq<string>)

  datatype ViewNode = ViewNode(name: string, dir: bool, content: string, children: seq<string>)

  function PathAt(f: Forest, i: nat): string {
    if i < |f.nodes| then f.nodes[i].path else ""
  }

  function PathsOf(f: Forest, ids: seq<nat>): seq<string> {
    seq(|ids|, k requires 0 <= k < |ids| => PathAt(f, ids[k]))
  }

  function NodeView(f: Forest, n: Node): ViewNode {
    ViewNode(n.name, n.dir, n.content, PathsOf(f, n.children))
  }

  ghost function ViewOf(f: Forest): View
    requires MapOk(f, {})
  {
    View(map p | p in f.byPath :: NodeView(f, f.nodes[f.byPath[p]]), PathsOf(f, f.roots))
  }

  // How siblings are ordered: by what the tree shows at a path.
  ghost function PathKey(es: seq<Entry>, p: string): (bool, string) {
    (forall c :: !IsFile(p, c, es), NameOf(p))
  }

  ghost function PathLe(es: seq<Entry>, le: StringOrder): (string, string) -> bool {
    (p: string, q: string) => KeyLe(le, PathKey(es, p), PathKey(es, q))
  }

  lemma NodeKey(f: Forest, es: seq<Entry>, i: nat)
    requires MapOk(f, {}) && Describes(f, es) && i < |f.nodes|
    ensures KeyAt(Keys(f.nodes), i) == PathKey(es, f.nodes[i].path)
  {
    assert NodeFits(f.nodes[i], es);
  }

  // The paths of an array: sorted and without repetition.
  lemma ArrayPaths(f: Forest, es: seq<Entry>, le: StringOrder, ids: seq<nat>)
    requires MapOk(f, {}) && Describes(f, es) && Siblings(f, ids) && Ordered(ids, NodeLe(Keys(f.nodes), le))
    ensures Ordered(PathsOf(f, ids), PathLe(es, le)) && NoDup(PathsOf(f, ids))
  {
    var paths := PathsOf(f, ids);
    forall a, b | 0 <= a < b < |paths| ensures PathLe(es, le)(paths[a], paths[b]) && paths[a] != paths[b] {
      assert ids[a] in ids && ids[b] in ids;
      NodeKey(f, es, ids[a]);
      NodeKey(f, es, ids[b]);
      assert NodeLe(Keys(f.nodes), le)(ids[a], ids[b]);
    }
  }

  ghost predicate ChildPath(es: seq<Entry>, p: string, q: string) {
    Mentioned(q, es) && Depth(q) > 1 && Parent(q) == p
  }

  ghost predicate RootPath(es: seq<Entry>, q: string) {
    Mentioned(q, es) && Depth(q) == 1
  }

  lemma ChildPaths(f: Forest, es: seq<Entry>, j: nat, q: string)
    requires ForestOk(f, {}) && Describes(f, es) && j < |f.nodes|
    ensures q in PathsOf(f, f.nodes[j].children) <==> ChildPath(es, f.nodes[j].path, q)
  {
    var paths := PathsOf(f, f.nodes[j].children);
    if q in paths {
      var k :| 0 <= k < |paths| && paths[k] == q;
      assert f.nodes[j].children[k] in f.nodes[j].children;
      assert Fits(f, j, f.nodes[j].children[k]);
    }
    if ChildPath(es, f.nodes[j].path, q) {
      var c := f.byPath[q];
      assert c !in f.roots;
      var h := HolderOf(f, c);
      assert f.byPath[f.nodes[h].path] == h && f.byPath[f.nodes[j].path] == j;
      var k :| 0 <= k < |f.nodes[j].children| && f.nodes[j].children[k] == c;
      assert paths[k] == q;
    }
  }

  lemma RootPaths(f: Forest, es: seq<Entry>, q: string)
    requires ForestOk(f, {}) && Describes(f, es)
    ensures q in PathsOf(f, f.roots) <==> RootPath(es, q)
  {
    var paths := PathsOf(f, f.roots);
    if q in paths {
      var k :| 0 <= k < |paths| && paths[k] == q;
      assert f.roots[k] in f.roots;
    }
    if RootPath(es, q) {
      var c := f.byPath[q];
      if c !in f.roots {
        var h := HolderOf(f, c);
      }
      var k :| 0 <= k < |f.roots| && f.roots[k] == c;
      assert paths[k] == q;
    }
  }

  lemma SameNameSamePath(p: string, q: string)
    requires Depth(p) == Depth(q) && NameOf(p) == NameOf(q) && (Depth(p) > 1 ==> Parent(p) == Parent(q))
    ensures p == q
  {
    if Depth(p) > 1 {
      ParentFacts(p);
      ParentFacts(q);
      assert Split(p) == Split(p)[..Depth(p) - 1] + [NameOf(p)];
      assert Split(q) == Split(q)[..Depth(q) - 1] + [NameOf(q)];
    } else {
      assert Split(p) == [NameOf(p)] && Split(q) == [NameOf(q)];
    }
    SamePath(p, q);
  }

  lemma KeyLeAntisymmetric(le: StringOrder, a: (bool, string), b: (bool, string))
    requires TotalOrder(le) && KeyLe(le, a, b) && KeyLe(le, b, a)
    ensures a == b
  {
  }

  lemma SameArrays(a: seq<string>, b: seq<string>, es: seq<Entry>, le: StringOrder)
    requires TotalOrder(le) && Ordered(a, PathLe(es, le)) && Ordered(b, PathLe(es, le)) && NoDup(a) && NoDup(b)
    requires forall q :: q in a <==> q in b
    requires forall p, q :: p in a && q in a ==> Depth(p) == Depth(q) && (Depth(p) > 1 ==> Parent(p) == Parent(q))
    ensures a == b
  {
    forall p, q | p in a && q in a && PathLe(es, le)(p, q) && PathLe(es, le)(q, p) ensures p == q {
      KeyLeAntisymmetric(le, PathKey(es, p), PathKey(es, q));
      SameNameSamePath(p, q);
    }
    OrderedListingUnique(a, b, PathLe(es, le));
  }

  // Templates with the same paths and files, as the tree sees them.
  ghost predicate SameContents(es: seq<Entry>, ns: seq<Entry>) {
    && (forall p :: Mentioned(p, es) <==> Mentioned(p, ns))
    && (forall p, c :: IsFile(p, c, es) <==> IsFile(p, c, ns))
  }

  lemma SamePathLe(es: seq<Entry>, ns: seq<Entry>, le: StringOrder, s: seq<string>)
    requires SameContents(es, ns) && Ordered(s, PathLe(ns, le))
    ensures Ordered(s, PathLe(es, le))
  {
    forall i, j | 0 <= i < j < |s| ensures PathLe(es, le)(s[i], s[j]) {
      assert PathLe(ns, le)(s[i], s[j]);
      assert PathKey(es, s[i]) == PathKey(ns, s[i]) && PathKey(es, s[j]) == PathKey(ns, s[j]);
    }
  }

  lemma SameChildren(f: Forest, g: Forest, es: seq<Entry>, ns: seq<Entry>, le: StringOrder, p: string)
    requires ForestOk(f, {}) && ForestOk(g, {}) && Describes(f, es) && Describes(g, ns) && TotalOrder(le)
    requires FullySorted(f, le) && FullySorted(g, le) && SameContents(es, ns) && p in f.byPath && p in g.byPath
    ensures PathsOf(f, f.nodes[f.byPath[p]].children) == PathsOf(g, g.nodes[g.byPath[p]].children)
  {
    var i, j := f.byPath[p], g.byPath[p];
    ChildrenAreSiblings(f, i);
    ChildrenAreSiblings(g, j);
    ArrayPaths(f, es, le, f.nodes[i].children);
    ArrayPaths(g, ns, le, g.nodes[j].children);
    var a, b := PathsOf(f, f.nodes[i].children), PathsOf(g, g.nodes[j].children);
    forall q ensures q in a <==> q in b {
      ChildPaths(f, es, i, q);
      ChildPaths(g, ns, j, q);
    }
    forall q | q in a ensures Depth(q) == Depth(p) + 1 && Parent(q) == p {
      ChildPaths(f, es, i, q);
      ParentFacts(q);
    }
    SamePathLe(es, ns, le, b);
    SameArrays(a, b, es, le);
  }

  lemma SameRoots(f: Forest, g: Forest, es: seq<Entry>, ns: seq<Entry>, le: StringOrder)
    requires ForestOk(f, {}) && ForestOk(g, {}) && Describes(f, es) && Describes(g, ns) && TotalOrder(le)
    requires FullySorted(f, le) && FullySorted(g, le) && SameContents(es, ns)
    ensures PathsOf(f, f.roots) == PathsOf(g, g.roots)
  {
    assert Siblings(f, f.roots) && Siblings(g, g.roots);
    ArrayPaths(f, es, le, f.roots);
    ArrayPaths(g, ns, le, g.roots);
    var a, b := PathsOf(f, f.roots), PathsOf(g, g.roots);
    forall q ensures (q in a <==> q in b) && (q in a ==> Depth(q) == 1) {
      RootPaths(f, es, q);
      RootPaths(g, ns, q);
    }
    SamePathLe(es, ns, le, b);
    SameArrays(a, b, es, le);
  }

  lemma SameNodeShown(f: Forest, g: Forest, es: seq<Entry>, ns: seq<Entry>, p: string)
    requires MapOk(f, {}) && MapOk(g, {}) && Describes(f, es) && Describes(g, ns) && WellFormedTemplate(es)
    requires SameContents(es, ns) && p in f.byPath && p in g.byPath
    ensures SameNode(f.nodes[f.byPath[p]], g.nodes[g.byPath[p]])
  {
    var m, n := f.nodes[f.byPath[p]], g.nodes[g.byPath[p]];
    assert NodeFits(m, es) && NodeFits(n, ns);
    if !m.dir && !n.dir {
      assert IsFile(p, n.content, es);
    }
  }

  lemma SameNodeViews(f: Forest, g: Forest, es: seq<Entry>, ns: seq<Entry>, le: StringOrder, p: string)
    requires ForestOk(f, {}) && ForestOk(g, {}) && Describes(f, es) && Describes(g, ns) && TotalOrder(le)
    requires FullySorted(f, le) && FullySorted(g, le) && WellFormedTemplate(es) && SameContents(es, ns)
    requires p in f.byPath && p in g.byPath
    ensures NodeView(f, f.nodes[f.byPath[p]]) == NodeView(g, g.nodes[g.byPath[p]])
  {
    SameNodeShown(f, g, es, ns, p);
    SameChildren(f, g, es, ns, le, p);
  }

  lemma SameViews(f: Forest, g: Forest)
    requires MapOk(f, {}) && MapOk(g, {}) && (forall p :: p in f.byPath <==> p in g.byPath)
    requires forall p <- f.byPath :: NodeView(f, f.nodes[f.byPath[p]]) == NodeView(g, g.nodes[g.byPath[p]])
    requires PathsOf(f, f.roots) == PathsOf(g, g.roots)
    ensures ViewOf(f) == ViewOf(g)
  {
    assert ViewOf(f).nodes == ViewOf(g).nodes;
  }

  /** A sorted tree is determined by the paths and files of the template it describes. */
  lemma TreeUnique(f: Forest, g: Forest, es: seq<Entry>, ns: seq<Entry>, le: StringOrder)
    requires ForestOk(f, {}) && ForestOk(g, {}) && Describes(f, es) && Describes(g, ns) && TotalOrder(le)
    requires FullySorted(f, le) && FullySorted(g, le) && WellFormedTemplate(es) && SameContents(es, ns)
    ensures ViewOf(f) == ViewOf(g)
  {
    assert forall p :: p in f.byPath <==> p in g.byPath;
    forall p | p in f.byPath
      ensures NodeView(f, f.nodes[f.byPath[p]]) == NodeView(g, g.nodes[g.byPath[p]])
    {
      SameNodeViews(f, g, es, ns, le, p);
    }
    SameRoots(f, g, es, ns, le);
    SameViews(f, g);
  }

  /** Building the tree again from the flattened entries gives the same sorted tree. */
  lemma RebuildGivesSameTree(f: Forest, g: Forest, es: seq<Entry>, ns: seq<Entry>, le: StringOrder)
    requires ForestOk(f, {}) && ForestOk(g, {}) && Describes(f, es) && Describes(g, ns) && TotalOrder(le)
    requires FullySorted(f, le) && FullySorted(g, le) && WellFormedTemplate(es) && FlattensTo(es, ns)
    ensures ViewOf(f) == ViewOf(g)
  {
    forall p ensures Mentioned(p, es) <==> Mentioned(p, ns) { KeptMentions(es, ns, p); }
    TreeUnique(f, g, es, ns, le);
  }

  // ---------- why the paths must be clean ----------

  function OneFile(path: string, content: string): Entry { SeedEntry(path, false, content) }

  lemma NamesWithSpace()
    ensures IsValidPath("a") && IsValidPath("a ") && TrimEnd("a") == "a" && TrimEnd("a ") == "a"
    ensures Split("a") == ["a"] && Split("a ") == ["a "]
  {
    SplitPrefixed("a", "");
    SplitPrefixed("a ", "");
    assert "a "[..1] == "a";
  }

  lemma OtherName(a: string, b: string)
    requires a != b
    ensures !([a] <= [b])
  {
    assert [a][0] == a && [b][0] == b;
  }

  lemma TwoFilesWellFormed(c: string, d: string)
    ensures WellFormedTemplate([OneFile("a ", c), OneFile("a", d)])
  {
    var x, y := OneFile("a ", c), OneFile("a", d);
    NamesWithSpace();
    assert |x.path| == 2 && |y.path| == 1;
    OtherName(x.path, y.path);
    OtherName(y.path, x.path);
    assert !Above(x.path, y.path) && !Above(y.path, x.path);
  }

  lemma Comparable(p: Path, q: Path, full: Path)
    requires p <= full && q <= full
    ensures p <= q || q <= p
    ensures |p| <= |q| ==> p <= q
  {
    if |p| <= |q| {
      assert p == full[..|p|] == q[..|p|];
    } else {
      assert q == full[..|q|] == p[..|q|];
    }
  }

  lemma NothingBelow(fs: Disk, base: Path, item: Item)
    requires WellFormed(fs) && CanMkdir(fs, base) && base < item.path && item.path[..|base| + 1] !in fs
    ensures NoClash(fs, [item])
  {
    forall p | p in fs && p < item.path ensures fs[p] == Folder {
      var top := item.path[..|base| + 1];
      Comparable(p, top, item.path);
      Comparable(p, base, item.path);
      assert top <= p ==> top == p || top < p;
      assert |p| <= |base| && p <= base;
      assert p == base[..|p|];
    }
  }

  /** Two files whose names differ only in a trailing space are one file to the worker, and the
      first entry wins: reordering such a template changes what users get. */
  lemma TrailingSpaceOrderMatters(fs: Disk, user: string, app: string, c: string, d: string)
    requires Ready(fs, user, app) && BoxOf(user, app) + ["a"] !in fs && c != d
    ensures var x, y := OneFile("a ", c), OneFile("a", d);
      && WellFormedTemplate([x, y]) && IsValidPath(x.path) && IsValidPath(y.path) && FlattensTo([x, y], [y, x])
      && Clash(fs, ItemOf(BoxOf(user, app), x), ItemOf(BoxOf(user, app), y))
      && Provisioned(fs, user, app, [x, y]).0 != Provisioned(fs, user, app, [y, x]).0
  {
    var x, y, base := OneFile("a ", c), OneFile("a", d), BoxOf(user, app);
    NamesWithSpace();
    TwoFilesWellFormed(c, d);
    assert (base + ["a"])[..|base| + 1] == base + ["a"];
    NothingBelow(fs, base, ItemOf(base, x));
    NothingBelow(fs, base, ItemOf(base, y));
    ClashingOrdersDiffer(fs, user, app, x, y, []);
    assert [x, y][0] == x && [x, y][1] == y && [y, x][0] == y && [y, x][1] == x;
    assert [x, y] + [] == [x, y] && [y, x] + [] == [y, x];
  }

  lemma FolderWithSpace()
    ensures Split("a /b") == ["a ", "b"] && TrimEnd("a /b") == "a /b" && IsValidPath("a /b")
  {
    NamesWithSpace();
    SplitPrefixed("b", "");
    SplitPrefixed("a ", "b");
    assert "a " + "/" + "b" == "a /b";
  }

  function SpacedFolder(): Entry { SeedEntry("a ", true, "") }

  // The folder entry and the file below it are at different places.
  lemma SpacedPlaces(base: Path, c: string)
    ensures PlaceOf(base, SpacedFolder()) == base + ["a"] && PlaceOf(base, OneFile("a /b", c)) == base + ["a ", "b"]
    ensures !(base + ["a"] <= base + ["a ", "b"]) && !(base + ["a ", "b"] <= base + ["a"])
    ensures WellFormedTemplate([SpacedFolder(), OneFile("a /b", c)])
    ensures IsValidPath("a ") && IsValidPath("a /b") && IsValidPath("a")
  {
    NamesWithSpace();
    FolderWithSpace();
    assert (base + ["a"])[|base|] == "a" && (base + ["a ", "b"])[|base|] == "a ";
    assert |"a"| != |"a "|;
    var x, y := SpacedFolder(), OneFile("a /b", c);
    assert [x, y][0] == x && [x, y][1] == y;
    assert !Above(y.path, x.path);
  }

  lemma SpacedFolderDropped(base: Path, fs: Disk, c: string)
    requires base + ["a"] !in fs
    ensures var es, ns := [SpacedFolder(), OneFile("a /b", c)], [OneFile("a /b", c)];
            FlattensTo(es, ns) && !DroppedStand(fs, base, es, ns)
  {
    SpacedPlaces(base, c);
    FolderWithSpace();
    NamesWithSpace();
    var x, y := SpacedFolder(), OneFile("a /b", c);
    var es, ns := [x, y], [y];
    assert es[0] == x && es[1] == y && ns[0] == y;
    assert Above(x.path, y.path) && x.path != y.path;
    assert Dropped(es, x);
  }

  lemma SpacedSound(fs: Disk, user: string, app: string, c: string)
    requires Ready(fs, user, app) && BoxOf(user, app) + ["a"] !in fs && BoxOf(user, app) + ["a "] !in fs
    ensures Sound(fs, user, app, [SpacedFolder(), OneFile("a /b", c)])
  {
    var base, x, y := BoxOf(user, app), SpacedFolder(), OneFile("a /b", c);
    var es := [x, y];
    SpacedPlaces(base, c);
    FolderWithSpace();
    NamesWithSpace();
    assert (base + ["a"])[..|base| + 1] == base + ["a"];
    assert (base + ["a ", "b"])[..|base| + 1] == base + ["a "];
    NothingBelow(fs, base, ItemOf(base, x));
    NothingBelow(fs, base, ItemOf(base, y));
    assert ItemOf(base, x) in [ItemOf(base, x)] && ItemOf(base, y) in [ItemOf(base, y)];
    assert ItemsOf(base, es) == [ItemOf(base, x), ItemOf(base, y)];
  }

  /** And a folder entry whose name ends in a space is made under another name than the folder
      its entries need; when the editor drops it, that folder is no longer made. */
  lemma DroppedFolderLost(fs: Disk, user: string, app: string, c: string)
    requires Ready(fs, user, app) && BoxOf(user, app) + ["a"] !in fs && BoxOf(user, app) + ["a "] !in fs
    ensures var es, ns := [SpacedFolder(), OneFile("a /b", c)], [OneFile("a /b", c)];
      && WellFormedTemplate(es) && IsValidPath("a ") && IsValidPath("a /b") && FlattensTo(es, ns)
      && Provisioned(fs, user, app, es).0 != Provisioned(fs, user, app, ns).0
  {
    SpacedPlaces(BoxOf(user, app), c);
    SpacedFolderDropped(BoxOf(user, app), fs, c);
    SpacedSound(fs, user, app, c);
    NormalFormSameDiskIff(fs, user, app, [SpacedFolder(), OneFile("a /b", c)], [OneFile("a /b", c)]);
  }
}
