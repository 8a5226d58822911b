/** Listing a user's box: a walk bounded in depth and in number of entries, with a flag that says
    whether anything was left out. */
module WalkBox {
  import opened Paths
  import opened Sorting
  import opened TemplateForest

  // What the walk sees. A folder that cannot be read lists nothing; a symbolic link is a leaf.
  datatype FsNode = Plain(size: nat) | Link(size: nat) | Dir(children: seq<Child>)

  datatype Child = Child(name: string, node: FsNode)

  datatype Listed = Listed(path: Path, dir: bool, size: nat)

  function EntryOf(path: Path, node: FsNode): Listed {
    match node
    case Dir(_) => Listed(path, true, 0)
    case Plain(size) => Listed(path, false, size)
    case Link(size) => Listed(path, false, size)
  }

  function NameLe(le: StringOrder): (Child, Child) -> bool {
    (a: Child, b: Child) => le(a.name, b.name)
  }

  /** Entries at any depth. */
  function CountAll(kids: seq<Child>): nat
    decreases kids
  {
    if kids == [] then 0 else CountAll(kids[..|kids| - 1]) + 1 + CountBelow(kids[|kids| - 1].node)
  }

  function CountBelow(node: FsNode): nat
    decreases node
  {
    match node
    case Dir(children) => CountAll(children)
    case Plain(_) => 0
    case Link(_) => 0
  }

  /** Pre-order with siblings sorted by name, `levels` folders deep but at least one. */
  function PreOrder(prefix: Path, kids: seq<Child>, levels: nat, le: StringOrder): seq<Listed>
    decreases levels, |kids|
  {
    if kids == [] then []
    else PreOrder(prefix, kids[..|kids| - 1], levels, le) + One(prefix, kids[|kids| - 1], levels, le)
  }

  function One(prefix: Path, c: Child, levels: nat, le: StringOrder): seq<Listed>
    decreases levels, 0
  {
    var path := prefix + [c.name];
    [EntryOf(path, c.node)] + if c.node.Dir? && levels > 1 then Inside(path, c.node.children, levels - 1, le) else []
  }

  function Inside(prefix: Path, children: seq<Child>, levels: nat, le: StringOrder): seq<Listed>
    decreases levels, |children| + 1
  {
    SortKeepsAll(children, NameLe(le));
    PreOrder(prefix, Sort(children, NameLe(le)), levels, le)
  }

  function Take(s: seq<Listed>, n: nat): seq<Listed> {
    if n <= |s| then s[..n] else s
  }

  // ---------- counting does not depend on the order ----------

  lemma {:induction false} CountConcat(a: seq<Child>, b: seq<Child>)
    ensures CountAll(a + b) == CountAll(a) + CountAll(b)
    decreases |b|
  {
    if b == [] {
      assert a + b == a;
    } else {
      CountConcat(a, b[..|b| - 1]);
      assert (a + b)[..|a + b| - 1] == a + b[..|b| - 1];
    }
  }

  lemma CountCons(x: Child, s: seq<Child>)
    ensures CountAll([x] + s) == 1 + CountBelow(x.node) + CountAll(s)
  {
    CountConcat([x], s);
    assert CountAll([x]) == CountAll([x][..0]) + 1 + CountBelow(x.node);
  }

  lemma {:induction false} CountInserted(x: Child, s: seq<Child>, le: (Child, Child) -> bool)
    ensures CountAll(Insert(x, s, le)) == 1 + CountBelow(x.node) + CountAll(s)
    decreases |s|
  {
    if s == [] || le(x, s[0]) {
      CountCons(x, s);
    } else {
      CountInserted(x, s[1..], le);
      CountCons(s[0], Insert(x, s[1..], le));
      CountCons(s[0], s[1..]);
      assert s == [s[0]] + s[1..];
    }
  }

  lemma {:induction false} CountSorted(s: seq<Child>, le: (Child, Child) -> bool)
    ensures CountAll(Sort(s, le)) == CountAll(s)
    decreases |s|
  {
    if s != [] {
      CountSorted(s[1..], le);
      CountInserted(s[0], Sort(s[1..], le), le);
      CountCons(s[0], s[1..]);
      assert s == [s[0]] + s[1..];
    }
  }

  lemma {:induction false} PreOrderWithin(prefix: Path, kids: seq<Child>, levels: nat, le: StringOrder)
    ensures |PreOrder(prefix, kids, levels, le)| <= CountAll(kids)
    decreases levels, |kids|
  {
    if kids != [] {
      PreOrderWithin(prefix, kids[..|kids| - 1], levels, le);
      OneWithin(prefix, kids[|kids| - 1], levels, le);
    }
  }

  lemma OneWithin(prefix: Path, c: Child, levels: nat, le: StringOrder)
    ensures |One(prefix, c, levels, le)| <= 1 + CountBelow(c.node)
    decreases levels, 0
  {
    if c.node.Dir? && levels > 1 {
      InsideWithin(prefix + [c.name], c.node.children, levels - 1, le);
    }
  }

  lemma InsideWithin(prefix: Path, children: seq<Child>, levels: nat, le: StringOrder)
    ensures |Inside(prefix, children, levels, le)| <= CountAll(children)
    decreases levels, |children| + 1
  {
    SortKeepsAll(children, NameLe(le));
    PreOrderWithin(prefix, Sort(children, NameLe(le)), levels, le);
    CountSorted(children, NameLe(le));
  }

  lemma OneMore(prefix: Path, kids: seq<Child>, i: nat, levels: nat, le: StringOrder)
    requires i < |kids|
    ensures PreOrder(prefix, kids[..i + 1], levels, le) ==
            PreOrder(prefix, kids[..i], levels, le) + One(prefix, kids[i], levels, le)
    ensures CountAll(kids[..i + 1]) == CountAll(kids[..i]) + 1 + CountBelow(kids[i].node)
  {
    assert kids[..i + 1][..i] == kids[..i];
  }

  // ---------- the walk ----------

  // Folder levels the walk lists from `depth` on: the first one always.
  function Levels(depth: nat, maxDepth: nat): nat {
    if depth + 1 < maxDepth then maxDepth - depth else 1
  }

  lemma TakeMore(a: seq<Listed>, b: seq<Listed>, n: nat)
    ensures n <= |a| ==> Take(a + b, n) == Take(a, n)
    ensures n >= |a| ==> Take(a + b, n) == a + Take(b, n - |a|)
  {
  }

  lemma ShownMore(out0: seq<Listed>, out1: seq<Listed>, out2: seq<Listed>, a: seq<Listed>, b: seq<Listed>, max: nat)
    requires |out0| <= max && out1 == out0 + Take(a, max - |out0|) && |out1| < max
    requires out2 == out1 + Take(b, max - |out1|)
    ensures out2 == out0 + Take(a + b, max - |out0|) && |out2| <= max
    ensures |out1| == |out0| + |a| && |out2| - |out1| <= |b|
  {
    TakeMore(a, b, max - |out0|);
    assert out0 + (a + Take(b, max - |out0| - |a|)) == out0 + a + Take(b, max - |out0| - |a|);
  }

  // The list and the flag after `i` children of a folder, from what they were before.
  ghost predicate Progress(before: (seq<Listed>, bool), now: (seq<Listed>, bool), prefix: Path, kids: seq<Child>,
                           i: nat, levels: nat, max: nat, le: StringOrder)
  {
    && i <= |kids| && |before.0| <= max && |now.0| <= max
    && now.0 == before.0 + Take(PreOrder(prefix, kids[..i], levels, le), max - |before.0|)
    && (now.1 <==> before.1 || |now.0| < |before.0| + CountAll(kids[..i]))
  }

  lemma NoProgress(before: (seq<Listed>, bool), prefix: Path, kids: seq<Child>, levels: nat, max: nat, le: StringOrder)
    requires |before.0| <= max
    ensures Progress(before, before, prefix, kids, 0, levels, max, le)
  {
    assert kids[..0] == [];
  }

  // One round of the loop, with room left: what is shown, and whether anything is missing.
  lemma MoreProgress(before: (seq<Listed>, bool), now: (seq<Listed>, bool), next: (seq<Listed>, bool), prefix: Path,
                     kids: seq<Child>, i: nat, levels: nat, max: nat, le: StringOrder)
    requires i < |kids| && |now.0| < max && Progress(before, now, prefix, kids, i, levels, max, le)
    requires next.0 == now.0 + Take(One(prefix, kids[i], levels, le), max - |now.0|)
    requires next.1 <==> now.1 || |next.0| < |now.0| + 1 + CountBelow(kids[i].node)
    ensures Progress(before, next, prefix, kids, i + 1, levels, max, le)
  {
    var front, one := PreOrder(prefix, kids[..i], levels, le), One(prefix, kids[i], levels, le);
    OneMore(prefix, kids, i, levels, le);
    PreOrderWithin(prefix, kids[..i], levels, le);
    OneWithin(prefix, kids[i], levels, le);
    ShownMore(before.0, now.0, next.0, front, one, max);
  }

  // Without room the rest of the folder does not show.
  lemma FullProgress(before: (seq<Listed>, bool), now: (seq<Listed>, bool), prefix: Path,
                     kids: seq<Child>, i: nat, levels: nat, max: nat, le: StringOrder)
    requires i < |kids| && |now.0| >= max && Progress(before, now, prefix, kids, i, levels, max, le)
    ensures Progress(before, (now.0, true), prefix, kids, |kids|, levels, max, le)
  {
    FullStays(prefix, kids, i, levels, le, max - |before.0|);
    assert kids[..|kids|] == kids;
  }

  lemma HeadShown(out0: seq<Listed>, head: seq<Listed>, sub: seq<Listed>, max: nat)
    requires |head| == 1 && |out0| < max
    ensures out0 + head + Take(sub, max - |out0| - 1) == out0 + Take(head + sub, max - |out0|)
  {
    TakeMore(head, sub, max - |out0|);
  }

  class Walker {
    var out: seq<Listed>
    var truncated: bool

    constructor ()
      ensures out == [] && !truncated
    {
      out, truncated := [], false;
    }

    /** Lists as much of the bounded pre-order as there is room for, and raises the flag exactly
        if some entry, at whatever depth, was not listed. */
    method Walk(prefix: Path, dir: seq<Child>, depth: nat, maxDepth: nat, maxEntries: nat, le: StringOrder)
      requires |out| <= maxEntries
      modifies this
      ensures out == old(out) + Take(Inside(prefix, dir, Levels(depth, maxDepth), le), maxEntries - |old(out)|)
      ensures truncated <==> old(truncated) || |out| < |old(out)| + CountAll(dir)
      decreases maxDepth - depth, 2
    {
      CountSorted(dir, NameLe(le));
      var kids := Sort(dir, NameLe(le));
      ListChildren(prefix, kids, depth, maxDepth, maxEntries, le);
      assert kids[..|kids|] == kids;
    }

    // The loop over one folder.
    method ListChildren(prefix: Path, kids: seq<Child>, depth: nat, maxDepth: nat, maxEntries: nat, le: StringOrder)
      requires |out| <= maxEntries
      modifies this
      ensures Progress(old((out, truncated)), (out, truncated), prefix, kids, |kids|, Levels(depth, maxDepth),
                       maxEntries, le)
      decreases maxDepth - depth, 1
    {
      ghost var before, levels := (out, truncated), Levels(depth, maxDepth);
      NoProgress(before, prefix, kids, levels, maxEntries, le);
      for i := 0 to |kids|
        invariant Progress(before, (out, truncated), prefix, kids, i, levels, maxEntries, le)
      {
        ghost var now := (out, truncated);
        if |out| >= maxEntries {
          FullProgress(before, now, prefix, kids, i, levels, maxEntries, le);
          truncated := true;
          return;
        }
        ListChild(prefix, kids[i], depth, maxDepth, maxEntries, le);
        MoreProgress(before, now, (out, truncated), prefix, kids, i, levels, maxEntries, le);
      }
    }

    // The body of the loop, with room for at least one entry.
    method ListChild(prefix: Path, c: Child, depth: nat, maxDepth: nat, maxEntries: nat, le: StringOrder)
      requires |out| < maxEntries
      modifies this
      ensures out == old(out) + Take(One(prefix, c, Levels(depth, maxDepth), le), maxEntries - |old(out)|)
      ensures truncated <==> old(truncated) || |out| < |old(out)| + 1 + CountBelow(c.node)
      decreases maxDepth - depth, 0
    {
      var path := prefix + [c.name];
      ghost var out0, head := out, [EntryOf(path, c.node)];
      out := out + [EntryOf(path, c.node)];
      if c.node.Dir? {
        if depth + 1 < maxDepth {
          ghost var sub := Inside(path, c.node.children, Levels(depth, maxDepth) - 1, le);
          Walk(path, c.node.children, depth + 1, maxDepth, maxEntries, le);
          HeadShown(out0, head, sub, maxEntries);
        } else if c.node.children != [] {
          truncated := true;
        }
      }
    }
  }

  // Once the room is used up, what would follow does not change the listing.
  lemma {:induction false} FullStays(prefix: Path, kids: seq<Child>, i: nat, levels: nat, le: StringOrder, room: nat)
    requires i <= |kids| && room <= |PreOrder(prefix, kids[..i], levels, le)|
    ensures Take(PreOrder(prefix, kids, levels, le), room) == Take(PreOrder(prefix, kids[..i], levels, le), room)
    ensures i < |kids| ==> room < CountAll(kids)
    decreases |kids| - i
  {
    if i == |kids| {
      assert kids[..i] == kids;
    } else {
      OneMore(prefix, kids, i, levels, le);
      TakeMore(PreOrder(prefix, kids[..i], levels, le), One(prefix, kids[i], levels, le), room);
      FullStays(prefix, kids, i + 1, levels, le, room);
      PreOrderWithin(prefix, kids[..i], levels, le);
      CountConcat(kids[..i + 1], kids[i + 1..]);
      assert kids == kids[..i + 1] + kids[i + 1..];
    }
  }

  // ---------- what the pre-order is, without the walk ----------

  /** The relative path `segs` leads to `node`. */
  ghost predicate Reaches(kids: seq<Child>, segs: Path, node: FsNode)
    decreases |segs|
  {
    segs != [] && exists c :: c in kids && c.name == segs[0] &&
                              (if |segs| == 1 then c.node == node
                               else c.node.Dir? && Reaches(c.node.children, segs[1..], node))
  }

  ghost predicate Reached(kids: seq<Child>, levels: nat, prefix: Path, e: Listed, segs: Path, node: FsNode) {
    Reaches(kids, segs, node) && (|segs| == 1 || |segs| <= levels) && e == EntryOf(prefix + segs, node)
  }

  lemma {:induction false} ListedIsReached(prefix: Path, kids: seq<Child>, levels: nat, le: StringOrder, e: Listed)
    returns (segs: Path, node: FsNode)
    requires e in PreOrder(prefix, kids, levels, le)
    ensures Reached(kids, levels, prefix, e, segs, node)
    decreases levels, |kids|
  {
    if e in PreOrder(prefix, kids[..|kids| - 1], levels, le) {
      segs, node := ListedIsReached(prefix, kids[..|kids| - 1], levels, le, e);
    } else {
      segs, node := OneIsReached(prefix, kids, kids[|kids| - 1], levels, le, e);
    }
  }

  lemma OneIsReached(prefix: Path, kids: seq<Child>, c: Child, levels: nat, le: StringOrder, e: Listed)
    returns (segs: Path, node: FsNode)
    requires c in kids && e in One(prefix, c, levels, le)
    ensures Reached(kids, levels, prefix, e, segs, node)
    decreases levels, 0
  {
    var path := prefix + [c.name];
    if e == EntryOf(path, c.node) {
      segs, node := [c.name], c.node;
    } else {
      assert e in Inside(path, c.node.children, levels - 1, le);
      var sorted := Sort(c.node.children, NameLe(le));
      var rest;
      rest, node := ListedIsReached(path, sorted, levels - 1, le, e);
      segs := [c.name] + rest;
      SortKeepsAll(c.node.children, NameLe(le));
      SameMembersReach(sorted, c.node.children, rest, node);
      ReachedBelow(prefix, kids, c, levels, e, sorted, rest, node);
    }
  }

  lemma ReachedBelow(prefix: Path, kids: seq<Child>, c: Child, levels: nat, e: Listed,
                     sorted: seq<Child>, rest: Path, node: FsNode)
    requires c in kids && c.node.Dir? && levels > 1 && Reached(sorted, levels - 1, prefix + [c.name], e, rest, node)
    requires Reaches(c.node.children, rest, node)
    ensures Reached(kids, levels, prefix, e, [c.name] + rest, node)
  {
    var segs := [c.name] + rest;
    assert segs[1..] == rest && prefix + segs == prefix + [c.name] + rest;
  }

  lemma SameMembersReach(a: seq<Child>, b: seq<Child>, segs: Path, node: FsNode)
    requires Reaches(a, segs, node) && forall c :: c in a <==> c in b
    ensures Reaches(b, segs, node)
  {
  }

  lemma {:induction false} ReachedIsListed(prefix: Path, kids: seq<Child>, levels: nat, le: StringOrder,
                                           e: Listed, segs: Path, node: FsNode)
    requires Reached(kids, levels, prefix, e, segs, node)
    ensures e in PreOrder(prefix, kids, levels, le)
    decreases |segs|, 1
  {
    var c :| c in kids && c.name == segs[0] &&
             (if |segs| == 1 then c.node == node else c.node.Dir? && Reaches(c.node.children, segs[1..], node));
    OneListed(prefix, c, levels, le, e, segs, node);
    MemberListed(prefix, kids, levels, le, c, e);
  }

  lemma OneListed(prefix: Path, c: Child, levels: nat, le: StringOrder, e: Listed, segs: Path, node: FsNode)
    requires segs != [] && c.name == segs[0] && (|segs| == 1 || |segs| <= levels) && e == EntryOf(prefix + segs, node)
    requires if |segs| == 1 then c.node == node else c.node.Dir? && Reaches(c.node.children, segs[1..], node)
    ensures e in One(prefix, c, levels, le)
    decreases |segs|, 0
  {
    if |segs| == 1 {
      assert segs == [c.name];
    } else {
      assert prefix + segs == prefix + [c.name] + segs[1..];
      InsideListed(prefix + [c.name], c.node.children, levels - 1, le, e, segs[1..], node);
    }
  }

  lemma InsideListed(path: Path, children: seq<Child>, levels: nat, le: StringOrder,
                     e: Listed, segs: Path, node: FsNode)
    requires Reached(children, levels, path, e, segs, node)
    ensures e in Inside(path, children, levels, le)
    decreases |segs|, 2
  {
    SortKeepsAll(children, NameLe(le));
    SameMembersReach(children, Sort(children, NameLe(le)), segs, node);
    ReachedIsListed(path, Sort(children, NameLe(le)), levels, le, e, segs, node);
  }

  lemma {:induction false} MemberListed(prefix: Path, kids: seq<Child>, levels: nat, le: StringOrder,
                                        c: Child, e: Listed)
    requires c in kids && e in One(prefix, c, levels, le)
    ensures e in PreOrder(prefix, kids, levels, le)
    decreases |kids|
  {
    if kids[|kids| - 1] != c {
      assert c in kids[..|kids| - 1];
      MemberListed(prefix, kids[..|kids| - 1], levels, le, c, e);
    }
  }

  // Component by component, a folder before what it holds.
  predicate PathLe(le: StringOrder, p: Path, q: Path)
    decreases |p|
  {
    p == [] || (q != [] && if p[0] == q[0] then PathLe(le, p[1..], q[1..]) else le(p[0], q[0]))
  }

  ghost predicate Before(le: StringOrder, p: Path, q: Path) { PathLe(le, p, q) && p != q }

  lemma {:induction false} BeforeBelow(le: StringOrder, prefix: Path, p: Path, q: Path)
    requires Before(le, p, q)
    ensures Before(le, prefix + p, prefix + q)
    decreases |prefix|
  {
    if prefix == [] {
      assert prefix + p == p && prefix + q == q;
    } else {
      BeforeBelow(le, prefix[1..], p, q);
      assert (prefix + p)[1..] == prefix[1..] + p && (prefix + q)[1..] == prefix[1..] + q;
    }
  }

  ghost predicate StrictlyOrdered(s: seq<Listed>, le: StringOrder) {
    forall i, j :: 0 <= i < j < |s| ==> Before(le, s[i].path, s[j].path)
  }

  lemma OrderedConcat(a: seq<Listed>, b: seq<Listed>, le: StringOrder)
    requires StrictlyOrdered(a, le) && StrictlyOrdered(b, le)
    requires forall x, y :: x in a && y in b ==> Before(le, x.path, y.path)
    ensures StrictlyOrdered(a + b, le)
  {
    forall i, j | 0 <= i < j < |a + b| ensures Before(le, (a + b)[i].path, (a + b)[j].path) {
      if i < |a| <= j {
        assert a[i] in a && b[j - |a|] in b;
      }
    }
  }

  /** Names in a folder are distinct, at every level. */
  ghost predicate DistinctNames(kids: seq<Child>)
    decreases kids
  {
    && (forall i, j :: 0 <= i < j < |kids| ==> kids[i].name != kids[j].name)
    && forall i :: 0 <= i < |kids| && kids[i].node.Dir? ==> DistinctNames(kids[i].node.children)
  }

  lemma NameLePreorder(le: StringOrder)
    requires TotalOrder(le)
    ensures TotalPreorder(NameLe(le))
  {
    forall a: Child, b: Child ensures NameLe(le)(a, b) || NameLe(le)(b, a) {
      assert le(a.name, b.name) || le(b.name, a.name);
    }
    forall a: Child, b: Child, c: Child | NameLe(le)(a, b) && NameLe(le)(b, c) ensures NameLe(le)(a, c) {
      assert le(a.name, b.name) && le(b.name, c.name);
    }
  }

  lemma SortedDistinct(kids: seq<Child>, le: StringOrder)
    requires DistinctNames(kids) && TotalOrder(le)
    ensures DistinctNames(Sort(kids, NameLe(le))) && Ordered(Sort(kids, NameLe(le)), NameLe(le))
  {
    var sorted := Sort(kids, NameLe(le));
    SortKeepsAll(kids, NameLe(le));
    NameLePreorder(le);
    SortOrdered(kids, NameLe(le));
    SortNoDup(kids, NameLe(le));
    forall i | 0 <= i < |sorted| ensures sorted[i].node.Dir? ==> DistinctNames(sorted[i].node.children) {
      assert sorted[i] in kids;
    }
    forall i, j | 0 <= i < j < |sorted| ensures sorted[i].name != sorted[j].name {
      assert sorted[i] in kids && sorted[j] in kids;
    }
  }

  lemma {:induction false} PreOrderOrdered(prefix: Path, kids: seq<Child>, levels: nat, le: StringOrder)
    requires TotalOrder(le) && DistinctNames(kids) && Ordered(kids, NameLe(le))
    ensures StrictlyOrdered(PreOrder(prefix, kids, levels, le), le)
    decreases levels, |kids|
  {
    if kids != [] {
      var m := |kids| - 1;
      PreOrderOrdered(prefix, kids[..m], levels, le);
      OneOrdered(prefix, kids[m], levels, le);
      forall x, y | x in PreOrder(prefix, kids[..m], levels, le) && y in One(prefix, kids[m], levels, le)
        ensures Before(le, x.path, y.path)
      {
        var segs, node := ListedIsReached(prefix, kids[..m], levels, le, x);
        var segs', node' := ListedIsReached(prefix, [kids[m]], levels, le, y);
        assert segs[0] != segs'[0] && le(segs[0], segs'[0]) by {
          var i :| 0 <= i < m && kids[i].name == segs[0];
          assert NameLe(le)(kids[i], kids[m]);
        }
        BeforeBelow(le, prefix, segs, segs');
      }
      OrderedConcat(PreOrder(prefix, kids[..m], levels, le), One(prefix, kids[m], levels, le), le);
    }
  }

  lemma OneOrdered(prefix: Path, c: Child, levels: nat, le: StringOrder)
    requires TotalOrder(le) && (c.node.Dir? ==> DistinctNames(c.node.children))
    ensures StrictlyOrdered(One(prefix, c, levels, le), le)
    decreases levels, 0
  {
    if c.node.Dir? && levels > 1 {
      var path := prefix + [c.name];
      var sorted := Sort(c.node.children, NameLe(le));
      SortedDistinct(c.node.children, le);
      PreOrderOrdered(path, sorted, levels - 1, le);
      forall y | y in PreOrder(path, sorted, levels - 1, le) ensures Before(le, path, y.path) {
        var segs, node := ListedIsReached(path, sorted, levels - 1, le, y);
        BeforeBelow(le, path, [], segs);
        assert path + [] == path;
      }
      OrderedConcat([EntryOf(path, c.node)], PreOrder(path, sorted, levels - 1, le), le);
    }
  }

  /** The pre-order of a box lists what is reached within the depth, each once, in the one
      possible order: so any other such listing is the same one. */
  lemma OnlyListing(box: seq<Child>, levels: nat, le: StringOrder, other: seq<Listed>)
    requires TotalOrder(le) && DistinctNames(box) && StrictlyOrdered(other, le)
    requires forall e :: e in other <==> exists segs, node :: Reached(box, levels, [], e, segs, node)
    ensures other == Inside([], box, levels, le)
  {
    var list, sorted := Inside([], box, levels, le), Sort(box, NameLe(le));
    SortKeepsAll(box, NameLe(le));
    SortedDistinct(box, le);
    PreOrderOrdered([], sorted, levels, le);
    forall e ensures e in list <==> e in other {
      if e in list {
        var segs, node := ListedIsReached([], sorted, levels, le, e);
        SameMembersReach(sorted, box, segs, node);
        assert Reached(box, levels, [], e, segs, node);
      }
      if e in other {
        var segs, node :| Reached(box, levels, [], e, segs, node);
        SameMembersReach(box, sorted, segs, node);
        ReachedIsListed([], sorted, levels, le, e, segs, node);
      }
    }
    StrictListingUnique(list, other, le);
  }

  lemma StrictListingUnique(a: seq<Listed>, b: seq<Listed>, le: StringOrder)
    requires TotalOrder(le) && StrictlyOrdered(a, le) && StrictlyOrdered(b, le) && forall e :: e in a <==> e in b
    ensures a == b
  {
    var ple := (x: Listed, y: Listed) => PathLe(le, x.path, y.path);
    forall x, y | x in a && y in a && ple(x, y) && ple(y, x) ensures x == y {
      PathLeAntisymmetric(le, x.path, y.path);
    }
    OrderedListingUnique(a, b, ple);
  }

  lemma {:induction false} PathLeAntisymmetric(le: StringOrder, p: Path, q: Path)
    requires TotalOrder(le) && PathLe(le, p, q) && PathLe(le, q, p)
    ensures p == q
    decreases |p|
  {
    if p != [] {
      PathLeAntisymmetric(le, p[1..], q[1..]);
      assert p == [p[0]] + p[1..] && q == [q[0]] + q[1..];
    }
  }

  // ---------- a cut-off listing still hangs together ----------

  ghost predicate ParentBefore(s: seq<Listed>, i: nat)
    requires i < |s| && s[i].path != []
  {
    exists j :: 0 <= j < i && s[j].dir && s[j].path == s[i].path[..|s[i].path| - 1]
  }

  /** Every entry more than one level below `prefix` comes after the folder it is in. */
  ghost predicate NoOrphans(s: seq<Listed>, prefix: Path) {
    forall i: nat {:trigger ParentBefore(s, i)} :: i < |s| && |s[i].path| > |prefix| + 1 ==> ParentBefore(s, i)
  }

  lemma NoOrphansConcat(a: seq<Listed>, b: seq<Listed>, prefix: Path)
    requires NoOrphans(a, prefix) && NoOrphans(b, prefix)
    ensures NoOrphans(a + b, prefix)
  {
    forall i | 0 <= i < |a + b| && |(a + b)[i].path| > |prefix| + 1 ensures ParentBefore(a + b, i) {
      if i < |a| {
        assert ParentBefore(a, i);
        var j :| 0 <= j < i && a[j].dir && a[j].path == a[i].path[..|a[i].path| - 1];
        assert (a + b)[j] == a[j];
      } else {
        assert ParentBefore(b, i - |a|);
        var j :| 0 <= j < i - |a| && b[j].dir && b[j].path == b[i - |a|].path[..|b[i - |a|].path| - 1];
        assert (a + b)[|a| + j] == b[j];
      }
    }
  }

  lemma {:induction false} PreOrderNoOrphans(prefix: Path, kids: seq<Child>, levels: nat, le: StringOrder)
    ensures NoOrphans(PreOrder(prefix, kids, levels, le), prefix)
    decreases levels, |kids|
  {
    if kids != [] {
      PreOrderNoOrphans(prefix, kids[..|kids| - 1], levels, le);
      OneNoOrphans(prefix, kids[|kids| - 1], levels, le);
      NoOrphansConcat(PreOrder(prefix, kids[..|kids| - 1], levels, le), One(prefix, kids[|kids| - 1], levels, le),
                      prefix);
    }
  }

  lemma ParentOneOn(head: Listed, below: seq<Listed>, i: nat)
    requires i < |below| && below[i].path != [] && ParentBefore(below, i)
    ensures ParentBefore([head] + below, i + 1)
  {
    var s := [head] + below;
    var j :| 0 <= j < i && below[j].dir && below[j].path == below[i].path[..|below[i].path| - 1];
    assert s[j + 1] == below[j] && s[i + 1] == below[i];
  }

  lemma ParentIsHead(head: Listed, below: seq<Listed>, i: nat)
    requires head.dir && i < |below| && head.path <= below[i].path && |below[i].path| == |head.path| + 1
    ensures ParentBefore([head] + below, i + 1)
  {
    var s := [head] + below;
    assert s[0] == head && s[i + 1] == below[i];
    assert head.path == below[i].path[..|below[i].path| - 1];
  }

  lemma HeadKeepsParents(head: Listed, below: seq<Listed>, prefix: Path)
    requires head.dir && |head.path| == |prefix| + 1 && NoOrphans(below, head.path)
    requires forall i :: 0 <= i < |below| ==> |below[i].path| > |head.path| && head.path <= below[i].path
    ensures NoOrphans([head] + below, prefix)
  {
    var s := [head] + below;
    forall k | 0 <= k < |s| && |s[k].path| > |prefix| + 1 ensures ParentBefore(s, k) {
      assert k > 0 && s[k] == below[k - 1];
      if |s[k].path| == |head.path| + 1 {
        ParentIsHead(head, below, k - 1);
      } else {
        assert ParentBefore(below, k - 1);
        ParentOneOn(head, below, k - 1);
      }
    }
  }

  lemma OneNoOrphans(prefix: Path, c: Child, levels: nat, le: StringOrder)
    ensures NoOrphans(One(prefix, c, levels, le), prefix)
    decreases levels, 0
  {
    if c.node.Dir? && levels > 1 {
      var path, sorted := prefix + [c.name], Sort(c.node.children, NameLe(le));
      var below := PreOrder(path, sorted, levels - 1, le);
      PreOrderNoOrphans(path, sorted, levels - 1, le);
      forall i | 0 <= i < |below| ensures |below[i].path| > |path| && path <= below[i].path {
        var segs, node := ListedIsReached(path, sorted, levels - 1, le, below[i]);
      }
      HeadKeepsParents(EntryOf(path, c.node), below, prefix);
    }
  }

  /** However early the walk stops, the folder of every listed entry is listed too, and before it:
      a tree built from the listing has no orphans. */
  lemma CutOffKeepsParents(box: seq<Child>, levels: nat, maxEntries: nat, le: StringOrder)
    ensures NoOrphans(Take(Inside([], box, levels, le), maxEntries), [])
  {
    var all := Inside([], box, levels, le);
    PreOrderNoOrphans([], Sort(box, NameLe(le)), levels, le);
    assert NoOrphans(all, []);
    var s := Take(all, maxEntries);
    forall i | 0 <= i < |s| && |s[i].path| > 1 ensures ParentBefore(s, i) {
      assert ParentBefore(all, i);
      var j :| 0 <= j < i && all[j].dir && all[j].path == all[i].path[..|all[i].path| - 1];
      assert s[j] == all[j];
    }
  }

  // ---------- the flag, and the listing that is returned ----------

  function Deepest(kids: seq<Child>): nat
    decreases kids
  {
    if kids == [] then 0
    else
      var rest, last := Deepest(kids[..|kids| - 1]), kids[|kids| - 1].node;
      var below := if last.Dir? then 1 + Deepest(last.children) else 1;
      if rest < below then below else rest
  }

  lemma DeepestMember(kids: seq<Child>, c: Child)
    requires c in kids
    ensures Deepest(kids) >= if c.node.Dir? then 1 + Deepest(c.node.children) else 1
    decreases |kids|
  {
    if kids[|kids| - 1] != c {
      assert c in kids[..|kids| - 1];
      DeepestMember(kids[..|kids| - 1], c);
    }
  }

  lemma {:induction false} DeepestBound(kids: seq<Child>, d: nat)
    requires forall c <- kids :: d >= if c.node.Dir? then 1 + Deepest(c.node.children) else 1
    ensures Deepest(kids) <= d
    decreases |kids|
  {
    if kids != [] {
      assert kids[|kids| - 1] in kids;
      DeepestBound(kids[..|kids| - 1], d);
    }
  }

  lemma DeepestSorted(kids: seq<Child>, le: StringOrder)
    ensures Deepest(Sort(kids, NameLe(le))) <= Deepest(kids)
  {
    SortKeepsAll(kids, NameLe(le));
    forall c | c in Sort(kids, NameLe(le))
      ensures Deepest(kids) >= if c.node.Dir? then 1 + Deepest(c.node.children) else 1
    {
      DeepestMember(kids, c);
    }
    DeepestBound(Sort(kids, NameLe(le)), Deepest(kids));
  }

  /** With enough levels the pre-order leaves nothing out, so that the flag of the walk speaks of
      the whole box. */
  lemma {:induction false} AllListed(prefix: Path, kids: seq<Child>, levels: nat, le: StringOrder)
    requires Deepest(kids) <= levels
    ensures |PreOrder(prefix, kids, levels, le)| == CountAll(kids)
    decreases levels, |kids|
  {
    if kids != [] {
      AllListed(prefix, kids[..|kids| - 1], levels, le);
      AllOfOne(prefix, kids[|kids| - 1], levels, le);
    }
  }

  lemma AllOfOne(prefix: Path, c: Child, levels: nat, le: StringOrder)
    requires c.node.Dir? ==> 1 + Deepest(c.node.children) <= levels
    ensures |One(prefix, c, levels, le)| == 1 + CountBelow(c.node)
    decreases levels, 0
  {
    if c.node.Dir? {
      if levels > 1 {
        CountSorted(c.node.children, NameLe(le));
        DeepestSorted(c.node.children, le);
        AllListed(prefix + [c.name], Sort(c.node.children, NameLe(le)), levels - 1, le);
      } else {
        NothingDeep(c.node.children);
      }
    }
  }

  lemma NothingDeep(kids: seq<Child>)
    requires Deepest(kids) == 0
    ensures kids == []
  {
  }

  /** An entry of the box within `maxDepth` folders, as the reply shows it. The first level always
      counts; a folder has size 0, and a symbolic link is no folder. */
  ghost predicate InBox(box: seq<Child>, maxDepth: nat, e: Listed) {
    exists node ::
      && Reaches(box, e.path, node) && (|e.path| == 1 || |e.path| <= maxDepth)
      && (e.dir <==> node.Dir?) && e.size == if node.Dir? then 0 else node.size
  }

  lemma ListedIffInBox(box: seq<Child>, maxDepth: nat, le: StringOrder, e: Listed)
    ensures e in Inside([], box, Levels(0, maxDepth), le) <==> InBox(box, maxDepth, e)
  {
    var levels, sorted := Levels(0, maxDepth), Sort(box, NameLe(le));
    SortKeepsAll(box, NameLe(le));
    if e in Inside([], box, levels, le) {
      var segs, node := ListedIsReached([], sorted, levels, le, e);
      SameMembersReach(sorted, box, segs, node);
      assert [] + segs == segs;
    }
    if InBox(box, maxDepth, e) {
      var node :| && Reaches(box, e.path, node) && (|e.path| == 1 || |e.path| <= maxDepth)
                  && (e.dir <==> node.Dir?) && e.size == if node.Dir? then 0 else node.size;
      assert [] + e.path == e.path;
      assert Reached(box, levels, [], e, e.path, node);
      InsideListed([], box, levels, le, e, e.path, node);
    }
  }

  lemma NoMoreThan(a: seq<Listed>, b: seq<Listed>)
    requires NoDup(a) && forall e <- a :: e in b
    ensures |a| <= |b|
  {
    var s, t := set e | e in a, set e | e in b;
    SizeOfSet(a);
    SizeAtMost(b);
    assert s <= t;
    SubsetSize(s, t);
  }

  lemma SubsetSize(s: set<Listed>, t: set<Listed>)
    requires s <= t
    ensures |s| <= |t|
  {
    assert t == s + (t - s);
  }

  lemma {:induction false} SizeOfSet(a: seq<Listed>)
    requires NoDup(a)
    ensures |set e | e in a| == |a|
  {
    if a == [] {
      assert (set e | e in a) == {};
    } else {
      var n := |a| - 1;
      SizeOfSet(a[..n]);
      assert (set e | e in a) == (set e | e in a[..n]) + {a[n]};
    }
  }

  lemma {:induction false} SizeAtMost(b: seq<Listed>)
    ensures |set e | e in b| <= |b|
  {
    if b == [] {
      assert (set e | e in b) == {};
    } else {
      var n := |b| - 1;
      SizeAtMost(b[..n]);
      assert (set e | e in b) == (set e | e in b[..n]) + {b[n]};
    }
  }

  lemma InsideNoDup(box: seq<Child>, levels: nat, le: StringOrder)
    requires TotalOrder(le) && DistinctNames(box)
    ensures NoDup(Inside([], box, levels, le))
  {
    SortedDistinct(box, le);
    PreOrderOrdered([], Sort(box, NameLe(le)), levels, le);
    var list := Inside([], box, levels, le);
    forall i, j | 0 <= i < j < |list| ensures list[i] != list[j] {
      assert Before(le, list[i].path, list[j].path);
    }
  }

  /** If all there is within the depth fits, all of it is listed. */
  lemma FitsThenAll(box: seq<Child>, maxDepth: nat, maxEntries: nat, le: StringOrder, all: seq<Listed>)
    requires TotalOrder(le) && DistinctNames(box)
    requires |all| <= maxEntries && forall e :: InBox(box, maxDepth, e) ==> e in all
    ensures Take(Inside([], box, Levels(0, maxDepth), le), maxEntries) == Inside([], box, Levels(0, maxDepth), le)
  {
    var list := Inside([], box, Levels(0, maxDepth), le);
    InsideNoDup(box, Levels(0, maxDepth), le);
    forall e | e in list ensures e in all { ListedIffInBox(box, maxDepth, le, e); }
    NoMoreThan(list, all);
  }

  lemma TakenShown(box: seq<Child>, maxDepth: nat, maxEntries: nat, le: StringOrder, entries: seq<Listed>)
    requires multiset(entries) == multiset(Take(Inside([], box, Levels(0, maxDepth), le), maxEntries))
    ensures |entries| <= maxEntries && forall e <- entries :: InBox(box, maxDepth, e)
    ensures |entries| < maxEntries ==> forall e :: InBox(box, maxDepth, e) ==> e in entries
    ensures TotalOrder(le) && DistinctNames(box) ==>
      forall all: seq<Listed> :: |all| <= maxEntries && (forall e :: InBox(box, maxDepth, e) ==> e in all) ==>
        forall e :: InBox(box, maxDepth, e) ==> e in entries
  {
    var list := Inside([], box, Levels(0, maxDepth), le);
    var shown := Take(list, maxEntries);
    SameSize(entries, shown);
    forall e ensures (e in entries ==> InBox(box, maxDepth, e)) && (InBox(box, maxDepth, e) ==> e in list) {
      assert e in entries ==> e in list;
      ListedIffInBox(box, maxDepth, le, e);
    }
    if TotalOrder(le) && DistinctNames(box) {
      forall all: seq<Listed> | |all| <= maxEntries && (forall e :: InBox(box, maxDepth, e) ==> e in all)
        ensures forall e :: InBox(box, maxDepth, e) ==> e in entries
      {
        FitsThenAll(box, maxDepth, maxEntries, le, all);
      }
    }
  }

  lemma DeeperInBox(box: seq<Child>, d: nat, d': nat, e: Listed)
    requires InBox(box, d, e) && d <= d'
    ensures InBox(box, d', e)
  {
  }

  // At sufficient depth the pre-order has every entry of the box.
  lemma WholeBox(box: seq<Child>, d: nat, le: StringOrder) returns (all: seq<Listed>)
    requires TotalOrder(le) && DistinctNames(box) && Deepest(box) <= d
    ensures NoDup(all) && |all| == CountAll(box) && forall e :: e in all <==> InBox(box, d, e)
  {
    all := Inside([], box, Levels(0, d), le);
    InsideNoDup(box, Levels(0, d), le);
    DeepestSorted(box, le);
    CountSorted(box, NameLe(le));
    AllListed([], Sort(box, NameLe(le)), Levels(0, d), le);
    forall e ensures e in all <==> InBox(box, d, e) { ListedIffInBox(box, d, le, e); }
  }

  /** Counting entries tells whether the listing misses one, at whatever depth. */
  lemma FewerIffMissing(box: seq<Child>, maxDepth: nat, le: StringOrder, entries: seq<Listed>)
    requires TotalOrder(le) && DistinctNames(box) && NoDup(entries)
    requires forall e <- entries :: InBox(box, maxDepth, e)
    ensures |entries| < CountAll(box) <==> exists d: nat, e :: InBox(box, d, e) && e !in entries
  {
    if |entries| < CountAll(box) {
      var all := WholeBox(box, Deepest(box), le);
      if forall e <- all :: e in entries {
        NoMoreThan(all, entries);
      }
      var e :| e in all && e !in entries;
      assert InBox(box, Deepest(box), e);
    }
    if d: nat, e :| InBox(box, d, e) && e !in entries {
      var deep := d + maxDepth + Deepest(box);
      var all := WholeBox(box, deep, le);
      forall x | x in entries + [e] ensures x in all {
        DeeperInBox(box, if x in entries then maxDepth else d, deep, x);
      }
      NoMoreThan(entries + [e], all);
    }
  }

  lemma TakenNoDup(box: seq<Child>, maxDepth: nat, maxEntries: nat, le: StringOrder, entries: seq<Listed>)
    requires TotalOrder(le) && DistinctNames(box)
    requires multiset(entries) == multiset(Take(Inside([], box, Levels(0, maxDepth), le), maxEntries))
    ensures NoDup(entries)
  {
    var shown := Take(Inside([], box, Levels(0, maxDepth), le), maxEntries);
    InsideNoDup(box, Levels(0, maxDepth), le);
    NoDupOfMultiset(shown);
    NoDupOfMultiset(entries);
  }

  function Text(path: Path): string { if path == [] then "" else Join(path) }

  function TextLe(le: StringOrder): (Listed, Listed) -> bool {
    (a: Listed, b: Listed) => le(Text(a.path), Text(b.path))
  }

  lemma TextLePreorder(le: StringOrder)
    requires TotalOrder(le)
    ensures TotalPreorder(TextLe(le))
  {
    forall a: Listed, b: Listed ensures TextLe(le)(a, b) || TextLe(le)(b, a) {
      assert le(Text(a.path), Text(b.path)) || le(Text(b.path), Text(a.path));
    }
    forall a: Listed, b: Listed, c: Listed | TextLe(le)(a, b) && TextLe(le)(b, c) ensures TextLe(le)(a, c) {
      assert le(Text(a.path), Text(b.path)) && le(Text(b.path), Text(c.path));
    }
  }

  /** The reply to a request for the listing: the first entries of the bounded pre-order, sorted by
      their text, and whether any entry of the box is missing. */
  method ListBoxTree(box: seq<Child>, maxDepth: nat, maxEntries: nat, le: StringOrder)
    returns (entries: seq<Listed>, truncated: bool)
    requires TotalOrder(le)
    ensures multiset(entries) == multiset(Take(Inside([], box, Levels(0, maxDepth), le), maxEntries))
    ensures Ordered(entries, TextLe(le))
    ensures truncated <==> |entries| < CountAll(box)
    ensures |entries| <= maxEntries && forall e <- entries :: InBox(box, maxDepth, e)
    ensures |entries| < maxEntries ==> forall e :: InBox(box, maxDepth, e) ==> e in entries
    ensures DistinctNames(box) ==>
      forall all: seq<Listed> :: |all| <= maxEntries && (forall e :: InBox(box, maxDepth, e) ==> e in all) ==>
        forall e :: InBox(box, maxDepth, e) ==> e in entries
    ensures DistinctNames(box) ==> (truncated <==> exists d: nat, e :: InBox(box, d, e) && e !in entries)
  {
    var walker := new Walker();
    walker.Walk([], box, 0, maxDepth, maxEntries, le);
    var out := walker.out;
    assert out == Take(Inside([], box, Levels(0, maxDepth), le), maxEntries);
    TextLePreorder(le);
    SortKeepsAll(out, TextLe(le));
    SortOrdered(out, TextLe(le));
    entries, truncated := Sort(out, TextLe(le)), walker.truncated;
    TakenShown(box, maxDepth, maxEntries, le, entries);
    if DistinctNames(box) {
      TakenNoDup(box, maxDepth, maxEntries, le, entries);
      FewerIffMissing(box, maxDepth, le, entries);
    }
  }
}
