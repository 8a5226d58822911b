/** Loading a template into the editor and writing it back: what is kept, why users get the same
    files, and why the tree is then stable. */
module TemplateMeaning {
  import opened Wrappers
  import opened Paths
  import opened Sorting
  import opened Provision
  import opened TemplateForest
  import opened TemplateTree

  /** What survives flattening: every file, and every folder entry with nothing below it. */
  ghost predicate Kept(es: seq<Entry>, e: Entry) {
    if e.dir then
      && e.content == "" && (exists x :: x in es && x.dir && x.path == e.path)
      && forall y :: y in es && Above(e.path, y.path) ==> y.path == e.path
    else e in es
  }

  ghost predicate FlattensTo(es: seq<Entry>, ns: seq<Entry>) {
    forall e :: e in ns <==> Kept(es, e)
  }

  predicate IsLeaf(n: Node) { !n.dir || n.children == [] }

  function LeafEntry(n: Node): Entry {
    if n.dir then SeedEntry(n.path, true, "") else SeedEntry(n.path, false, n.content)
  }

  // ---------- what is emitted are the leaves ----------

  lemma {:induction false} EmittedIsLeaf(f: Forest, i: nat, h: nat, e: Entry) returns (j: nat)
    requires e in Emitted(f, i, h)
    ensures j < |f.nodes| && IsLeaf(f.nodes[j]) && e == LeafEntry(f.nodes[j])
    decreases h, 0
  {
    if IsLeaf(f.nodes[i]) {
      j := i;
    } else {
      j := EmittedAllIsLeaf(f, f.nodes[i].children, h - 1, e);
    }
  }

  lemma {:induction false} EmittedAllIsLeaf(f: Forest, ids: seq<nat>, h: nat, e: Entry) returns (j: nat)
    requires e in EmittedAll(f, ids, h)
    ensures j < |f.nodes| && IsLeaf(f.nodes[j]) && e == LeafEntry(f.nodes[j])
    decreases h, |ids| + 1
  {
    var m := |ids| - 1;
    if e in EmittedAll(f, ids[..m], h) {
      j := EmittedAllIsLeaf(f, ids[..m], h, e);
    } else {
      j := EmittedIsLeaf(f, ids[m], h, e);
    }
  }

  lemma {:induction false} EmittedWithin(f: Forest, ids: seq<nat>, i: nat, h: nat, e: Entry)
    requires i in ids && e in Emitted(f, i, h)
    ensures e in EmittedAll(f, ids, h)
  {
    var m := |ids| - 1;
    if ids[m] != i {
      assert i in ids[..m];
      EmittedWithin(f, ids[..m], i, h, e);
    }
  }

  // A node above another is a folder, for the template has no file there.
  lemma HolderIsFolder(f: Forest, es: seq<Entry>, i: nat, j: nat)
    requires Describes(f, es) && WellFormedTemplate(es) && i < |f.nodes| && j < |f.nodes|
    requires Above(f.nodes[j].path, f.nodes[i].path) && f.nodes[j].path != f.nodes[i].path
    ensures f.nodes[j].dir
  {
    var p, q := f.nodes[j].path, f.nodes[i].path;
    assert NodeFits(f.nodes[j], es) && q in f.byPath;
    var y :| y in es && Above(q, y.path);
    NotBelow(p, q, y.path);
    var file := SeedEntry(p, false, f.nodes[j].content);
    assert Above(file.path, y.path);
    assert !f.nodes[j].dir ==> file in es;
  }

  // What lies strictly below `p` has another path than `p`.
  lemma NotBelow(p: string, q: string, r: string)
    requires Above(p, q) && p != q && Above(q, r)
    ensures p != r && Above(p, r)
  {
    if Depth(q) == Depth(p) {
      SamePath(p, q);
    }
    assert Depth(r) > Depth(p);
  }

  lemma EmittedByHolder(f: Forest, j: nat, i: nat, h: nat, e: Entry)
    requires j < |f.nodes| && f.nodes[j].dir && i in f.nodes[j].children && e in Emitted(f, i, h)
    ensures e in Emitted(f, j, h + 1)
  {
    EmittedWithin(f, f.nodes[j].children, i, h, e);
  }

  lemma {:induction false} ReachedFromRoots(f: Forest, es: seq<Entry>, d: nat, i: nat, h: nat, e: Entry)
    requires ForestOk(f, {}) && Describes(f, es) && WellFormedTemplate(es)
    requires i < |f.nodes| && h + Depth(f.nodes[i].path) == d + 1 && e in Emitted(f, i, h)
    ensures e in EmittedAll(f, f.roots, d)
    decreases Depth(f.nodes[i].path)
  {
    if i in f.roots {
      EmittedWithin(f, f.roots, i, h, e);
    } else {
      var j := HolderOf(f, i);
      ParentFacts(f.nodes[i].path);
      HolderIsFolder(f, es, i, j);
      EmittedByHolder(f, j, i, h, e);
      ReachedFromRoots(f, es, d, j, h + 1, e);
    }
  }

  // ---------- the leaves are what is kept ----------

  // A folder with an entry below it has children.
  lemma HasChild(f: Forest, es: seq<Entry>, j: nat, y: Entry)
    requires ForestOk(f, {}) && Describes(f, es) && j < |f.nodes| && y in es
    requires Above(f.nodes[j].path, y.path) && f.nodes[j].path != y.path
    ensures f.nodes[j].children != []
  {
    var p := f.nodes[j].path;
    var n := Depth(p) + 1;
    assert Depth(y.path) >= n by {
      if Depth(y.path) == Depth(p) { SamePath(p, y.path); }
    }
    var segs := Split(y.path)[..n];
    SplitJoin(segs);
    var q := Join(segs);
    assert Mentioned(q, es);
    var c := f.byPath[q];
    ParentFacts(q);
    assert Split(Parent(q)) == Split(p) by { assert segs[..n - 1] == Split(p); }
    SamePath(Parent(q), p);
    assert c !in f.roots;
    var k := HolderOf(f, c);
    assert f.byPath[p] == j && f.byPath[f.nodes[k].path] == k;
  }

  lemma LeafIsKept(f: Forest, es: seq<Entry>, j: nat)
    requires ForestOk(f, {}) && Describes(f, es) && j < |f.nodes| && IsLeaf(f.nodes[j])
    ensures Kept(es, LeafEntry(f.nodes[j]))
  {
    var n := f.nodes[j];
    assert NodeFits(n, es) && n.path in f.byPath;
    if n.dir {
      forall y | y in es && Above(n.path, y.path) ensures y.path == n.path {
        if y.path != n.path { HasChild(f, es, j, y); }
      }
      var x :| x in es && Above(n.path, x.path);
      assert !IsFile(n.path, x.content, es);
      assert x.dir by { assert x == SeedEntry(x.path, x.dir, x.content); }
    }
  }

  lemma KeptIsLeaf(f: Forest, es: seq<Entry>, e: Entry) returns (j: nat)
    requires ForestOk(f, {}) && Describes(f, es) && WellFormedTemplate(es) && Kept(es, e)
    ensures j < |f.nodes| && IsLeaf(f.nodes[j]) && e == LeafEntry(f.nodes[j])
  {
    var x :| x in es && x.path == e.path && x.dir == e.dir;
    assert Mentioned(e.path, es);
    j := f.byPath[e.path];
    var n := f.nodes[j];
    assert NodeFits(n, es);
    if e.dir {
      assert n.dir by {
        assert !n.dir ==> SeedEntry(n.path, false, n.content) in es;
      }
      if n.children != [] {
        var c := n.children[0];
        assert c in f.nodes[j].children && Fits(f, j, c);
        ParentFacts(f.nodes[c].path);
        assert f.nodes[c].path in f.byPath;
        var y :| y in es && Above(f.nodes[c].path, y.path);
        assert Above(e.path, y.path);
      }
    } else {
      assert e == SeedEntry(n.path, false, e.content);
      assert IsFile(n.path, e.content, es);
    }
  }

  /** Flattening a tree that describes a well-formed template emits exactly what is kept of it. */
  lemma FlattenKeeps(f: Forest, es: seq<Entry>, d: nat)
    requires ForestOk(f, {}) && Describes(f, es) && WellFormedTemplate(es) && DepthsUpTo(f, d + 1)
    ensures FlattensTo(es, EmittedAll(f, f.roots, d))
  {
    forall e ensures e in EmittedAll(f, f.roots, d) <==> Kept(es, e) {
      if e in EmittedAll(f, f.roots, d) {
        var j := EmittedAllIsLeaf(f, f.roots, d, e);
        LeafIsKept(f, es, j);
      }
      if Kept(es, e) {
        var j := KeptIsLeaf(f, es, e);
        ReachedFromRoots(f, es, d, j, d + 1 - Depth(f.nodes[j].path), e);
      }
    }
  }

  // ---------- nothing is emitted twice ----------

  lemma {:induction false} EmittedUnder(f: Forest, i: nat, h: nat, e: Entry)
    requires PlacedOk(f, {}) && i < |f.nodes| && e in Emitted(f, i, h)
    ensures Above(f.nodes[i].path, e.path)
    decreases h, 0
  {
    if !IsLeaf(f.nodes[i]) {
      var c := EmittedBy(f, f.nodes[i].children, h - 1, e);
      assert Fits(f, i, c);
      ParentFacts(f.nodes[c].path);
      EmittedUnder(f, c, h - 1, e);
    }
  }

  lemma {:induction false} EmittedBy(f: Forest, ids: seq<nat>, h: nat, e: Entry) returns (c: nat)
    requires e in EmittedAll(f, ids, h)
    ensures c in ids && e in Emitted(f, c, h)
  {
    var m := |ids| - 1;
    if e in Emitted(f, ids[m], h) {
      c := ids[m];
    } else {
      c := EmittedBy(f, ids[..m], h, e);
    }
  }

  // Nodes of one array: they stand at one depth, under different paths.
  ghost predicate Siblings(f: Forest, ids: seq<nat>) {
    && NoDup(ids)
    && (forall i :: i in ids ==> i < |f.nodes|)
    && (forall i, j :: i in ids && j in ids ==> Depth(f.nodes[i].path) == Depth(f.nodes[j].path))
    && (forall i, j :: i in ids && j in ids && i != j ==> f.nodes[i].path != f.nodes[j].path)
  }

  lemma SiblingsApart(f: Forest, i: nat, j: nat, h: nat, e: Entry)
    requires PlacedOk(f, {}) && i < |f.nodes| && j < |f.nodes| && Depth(f.nodes[i].path) == Depth(f.nodes[j].path)
    requires e in Emitted(f, i, h) && e in Emitted(f, j, h)
    ensures f.nodes[i].path == f.nodes[j].path
  {
    EmittedUnder(f, i, h, e);
    EmittedUnder(f, j, h, e);
    var segs := Split(e.path);
    assert Split(f.nodes[i].path) == segs[..Depth(f.nodes[i].path)];
    assert Split(f.nodes[j].path) == segs[..Depth(f.nodes[j].path)];
    SamePath(f.nodes[i].path, f.nodes[j].path);
  }

  lemma NoDupConcat<T>(a: seq<T>, b: seq<T>)
    requires NoDup(a) && NoDup(b) && forall x :: x in a ==> x !in b
    ensures NoDup(a + b)
  {
    forall i, j | 0 <= i < j < |a + b| ensures (a + b)[i] != (a + b)[j] {
      if i < |a| <= j {
        assert a[i] in a && b[j - |a|] in b;
      }
    }
  }

  ghost predicate Bijective(f: Forest) {
    forall i :: 0 <= i < |f.nodes| ==> f.nodes[i].path in f.byPath && f.byPath[f.nodes[i].path] == i
  }

  lemma ChildrenAreSiblings(f: Forest, i: nat)
    requires PlacedOk(f, {}) && HeldOnce(f, {}) && Bijective(f) && i < |f.nodes|
    ensures Siblings(f, f.nodes[i].children)
  {
    forall c | c in f.nodes[i].children
      ensures c < |f.nodes| && Depth(f.nodes[c].path) == Depth(f.nodes[i].path) + 1
    {
      assert Fits(f, i, c);
      ParentFacts(f.nodes[c].path);
    }
  }

  lemma {:induction false} EmittedOnce(f: Forest, i: nat, h: nat)
    requires PlacedOk(f, {}) && HeldOnce(f, {}) && Bijective(f) && i < |f.nodes|
    ensures NoDup(Emitted(f, i, h))
    decreases h, 0
  {
    if !IsLeaf(f.nodes[i]) && h > 0 {
      ChildrenAreSiblings(f, i);
      EmittedAllOnce(f, f.nodes[i].children, h - 1);
    }
  }

  lemma {:induction false} EmittedAllOnce(f: Forest, ids: seq<nat>, h: nat)
    requires PlacedOk(f, {}) && HeldOnce(f, {}) && Bijective(f) && Siblings(f, ids)
    ensures NoDup(EmittedAll(f, ids, h))
    decreases h, |ids| + 1
  {
    if ids != [] {
      var m := |ids| - 1;
      assert ids[m] in ids && forall i :: i in ids[..m] ==> i in ids;
      EmittedAllOnce(f, ids[..m], h);
      EmittedOnce(f, ids[m], h);
      forall e | e in EmittedAll(f, ids[..m], h) ensures e !in Emitted(f, ids[m], h) {
        var c := EmittedBy(f, ids[..m], h, e);
        assert c != ids[m];
        if e in Emitted(f, ids[m], h) { SiblingsApart(f, c, ids[m], h, e); }
      }
      NoDupConcat(EmittedAll(f, ids[..m], h), Emitted(f, ids[m], h));
    }
  }

  /** The flattened template is well-formed again. */
  lemma FlattenWellFormed(f: Forest, es: seq<Entry>, d: nat)
    requires ForestOk(f, {}) && Describes(f, es) && WellFormedTemplate(es) && DepthsUpTo(f, d + 1)
    ensures WellFormedTemplate(EmittedAll(f, f.roots, d))
  {
    var ns := EmittedAll(f, f.roots, d);
    FlattenKeeps(f, es, d);
    assert Siblings(f, f.roots);
    EmittedAllOnce(f, f.roots, d);
    forall a, b | a in ns && b in ns && a != b ensures a.path != b.path && (!a.dir ==> !Above(a.path, b.path)) {
      KeptApart(es, a, b);
    }
  }

  lemma KeptApart(es: seq<Entry>, a: Entry, b: Entry)
    requires WellFormedTemplate(es) && Kept(es, a) && Kept(es, b) && a != b
    ensures a.path != b.path && (!a.dir ==> !Above(a.path, b.path))
  {
    var x :| x in es && x.path == a.path && x.dir == a.dir && (!a.dir ==> x == a);
    var y :| y in es && y.path == b.path && y.dir == b.dir && (!b.dir ==> y == b);
    if x == y {
      assert a == SeedEntry(a.path, a.dir, a.content) && b == SeedEntry(b.path, b.dir, b.content);
    }
  }

  // ---------- kept entries cover everything ----------

  ghost function DeepestEntry(es: seq<Entry>): (d: nat)
    ensures forall e :: e in es ==> Depth(e.path) <= d
  {
    if es == [] then 0
    else
      var m, last := DeepestEntry(es[..|es| - 1]), Depth(es[|es| - 1].path);
      assert forall e :: e in es ==> e in es[..|es| - 1] || e == es[|es| - 1];
      if last <= m then m else last
  }

  lemma {:induction false} KeptBelow(es: seq<Entry>, y: Entry) returns (z: Entry)
    requires y in es
    ensures Kept(es, z) && Above(y.path, z.path)
    decreases DeepestEntry(es) - Depth(y.path)
  {
    if y.dir && exists w :: w in es && Above(y.path, w.path) && w.path != y.path {
      var w :| w in es && Above(y.path, w.path) && w.path != y.path;
      if Depth(w.path) == Depth(y.path) { SamePath(w.path, y.path); }
      z := KeptBelow(es, w);
    } else {
      z := if y.dir then SeedEntry(y.path, true, "") else y;
    }
  }

  lemma KeptMentions(es: seq<Entry>, ns: seq<Entry>, p: string)
    requires FlattensTo(es, ns)
    ensures Mentioned(p, es) <==> Mentioned(p, ns)
  {
    if Mentioned(p, es) {
      var y :| y in es && Above(p, y.path);
      var z := KeptBelow(es, y);
      assert z in ns && Above(p, z.path);
    }
    if Mentioned(p, ns) {
      var z :| z in ns && Above(p, z.path);
      assert Kept(es, z);
      var x :| x in es && x.path == z.path;
    }
  }
}
