/** The worker's materialiser: template entries written into a user's box, never clobbering. */
module Provision {
  import opened Lists
  import opened Paths
  import opened Wrappers

  datatype FNode = Folder | File(content: string)

  // What lies below the base directory. Symbolic links and disk faults are not modelled.
  type Disk = map<Path, FNode>

  datatype SeedEntry = SeedEntry(path: string, dir: bool, content: string)

  /** Everything has its parent folder. */
  ghost predicate WellFormed(fs: Disk) {
    && [] in fs && fs[[]] == Folder
    && forall p, q :: p in fs && q < p ==> q in fs && fs[q] == Folder
  }

  // ---------- create_dir_all and provision_entries ----------

  predicate CanMkdir(fs: Disk, p: Path) {
    forall i :: 0 <= i <= |p| && p[..i] in fs ==> fs[p[..i]] == Folder
  }

  function Prefixes(p: Path): set<Path> {
    set i | 0 <= i <= |p| :: p[..i]
  }

  function MkdirAll(fs: Disk, p: Path): Disk {
    fs + map q | q in Prefixes(p) && q !in fs :: Folder
  }

  function ParentOf(p: Path): Path
    requires p != []
  {
    p[..|p| - 1]
  }

  /** One entry at its confined path: the disk after, or the error that stops the loop. */
  function Put(fs: Disk, full: Path, e: SeedEntry): Result<Disk, ResolveError>
    requires full != []
  {
    if full in fs then Ok(fs)
    else if e.dir then
      if CanMkdir(fs, full) then Ok(MkdirAll(fs, full)) else Err(Io)
    else if CanMkdir(fs, ParentOf(full)) then Ok(MkdirAll(fs, ParentOf(full))[full := File(e.content)])
    else Err(Io)
  }

  function Target(user: string, app: string, e: SeedEntry): Result<Path, ResolveError> {
    Confined(user, app + "/" + e.path)
  }

  function PutAll(fs: Disk, user: string, app: string, entries: seq<SeedEntry>, created: nat)
    : (Disk, Result<nat, ResolveError>)
    decreases |entries|
  {
    if entries == [] then (fs, Ok(created))
    else
      match Target(user, app, entries[0])
      case Err(e) => (fs, Err(e))
      case Ok(full) =>
        match Put(fs, full, entries[0])
        case Err(e) => (fs, Err(e))
        case Ok(fs') => PutAll(fs', user, app, entries[1..], created + if full in fs then 0 else 1)
  }

  /** The disk afterwards, and the number of entries created or the error. An error keeps what
      earlier entries wrote. */
  function Provisioned(fs: Disk, user: string, app: string, entries: seq<SeedEntry>)
    : (Disk, Result<nat, ResolveError>)
  {
    if Trim(user) == "" then (fs, Err(BadUser))
    else
      match Confined(user, app)
      case Err(e) => (fs, Err(e))
      case Ok(box) =>
        if CanMkdir(fs, box) then PutAll(MkdirAll(fs, box), user, app, entries, 0) else (fs, Err(Io))
  }

  class Box {
    var fs: Disk

    method CreateDirAll(p: Path) returns (ok: bool)
      modifies this
      ensures ok == CanMkdir(old(fs), p)
      ensures fs == if ok then MkdirAll(old(fs), p) else old(fs)
    {
      ok := CanMkdir(fs, p);
      if ok {
        fs := MkdirAll(fs, p);
      }
    }

    method ProvisionEntries(user: string, app: string, entries: seq<SeedEntry>)
      returns (r: Result<nat, ResolveError>)
      modifies this
      ensures (fs, r) == Provisioned(old(fs), user, app, entries)
    {
      if Trim(user) == "" { return Err(BadUser); }
      var box := ConfinePath(user, app);
      if box.Err? { return Err(box.error); }
      var ok := CreateDirAll(box.value);
      if !ok { return Err(Io); }
      var created := 0;
      ghost var start := fs;
      for i := 0 to |entries|
        invariant PutAll(start, user, app, entries, 0) == PutAll(fs, user, app, entries[i..], created)
      {
        var e := entries[i];
        assert entries[i..][1..] == entries[i + 1..];
        var full := ConfinePath(user, app + "/" + e.path);
        if full.Err? { return Err(full.error); }
        if full.value !in fs {
          if e.dir {
            ok := CreateDirAll(full.value);
            if !ok { return Err(Io); }
          } else {
            ok := CreateDirAll(ParentOf(full.value));
            if !ok { return Err(Io); }
            fs := fs[full.value := File(e.content)];
          }
          created := created + 1;
        }
      }
      return Ok(created);
    }
  }

  // ---------- never clobber, and idempotence ----------

  ghost predicate Keeps(fs: Disk, fs': Disk) {
    forall p <- fs :: p in fs' && fs'[p] == fs[p]
  }

  lemma MkdirFacts(fs: Disk, p: Path)
    requires WellFormed(fs) && CanMkdir(fs, p)
    ensures Keeps(fs, MkdirAll(fs, p)) && WellFormed(MkdirAll(fs, p)) && CanMkdir(MkdirAll(fs, p), p)
    ensures forall q :: q in MkdirAll(fs, p) <==> q in fs || q <= p
    ensures forall q :: q <= p ==> MkdirAll(fs, p)[q] == Folder
  {
    var fs' := MkdirAll(fs, p);
    forall q | q <= p ensures q in fs' && fs'[q] == Folder {
      assert q == p[..|q|] && q in Prefixes(p);
    }
    forall q, r | q in fs' && r < q ensures r in fs' && fs'[r] == Folder {
      assert r == q[..|r|];
      if q !in fs {
        assert r <= p;
      }
    }
  }

  lemma PutFacts(fs: Disk, full: Path, e: SeedEntry)
    requires full != [] && WellFormed(fs) && Put(fs, full, e).Ok?
    ensures var fs' := Put(fs, full, e).value;
            Keeps(fs, fs') && WellFormed(fs') && full in fs'
  {
    if full !in fs {
      var dirs := if e.dir then full else ParentOf(full);
      MkdirFacts(fs, dirs);
      if !e.dir {
        FileFacts(MkdirAll(fs, dirs), full, e.content);
      }
    }
  }

  lemma FileFacts(fs: Disk, full: Path, content: string)
    requires WellFormed(fs) && full != [] && full !in fs && ParentOf(full) in fs && fs[ParentOf(full)] == Folder
    ensures WellFormed(fs[full := File(content)])
  {
    forall q | q < full ensures q in fs && fs[q] == Folder {
      assert q == ParentOf(full)[..|q|];
      if q != ParentOf(full) { assert q < ParentOf(full); }
    }
  }

  // The entry is confined and its path is taken.
  predicate Present(fs: Disk, user: string, app: string, e: SeedEntry) {
    Target(user, app, e).Ok? && Target(user, app, e).value in fs
  }

  ghost predicate AllPresent(fs: Disk, user: string, app: string, entries: seq<SeedEntry>) {
    forall i {:trigger Present(fs, user, app, entries[i])} ::
      0 <= i < |entries| ==> Present(fs, user, app, entries[i])
  }

  lemma PresentToo(fs: Disk, fs': Disk, user: string, app: string, entries: seq<SeedEntry>)
    requires entries != [] && Keeps(fs, fs') && AllPresent(fs', user, app, entries[1..])
    requires Present(fs, user, app, entries[0])
    ensures AllPresent(fs', user, app, entries)
  {
    forall i | 0 <= i < |entries| ensures Present(fs', user, app, entries[i]) {
      if i > 0 {
        assert Present(fs', user, app, entries[1..][i - 1]);
      }
    }
  }

  lemma KeepsTransitive(fs: Disk, fs1: Disk, fs2: Disk)
    requires Keeps(fs, fs1) && Keeps(fs1, fs2)
    ensures Keeps(fs, fs2)
  {
  }

  lemma {:induction false} PutAllFacts(fs: Disk, user: string, app: string, entries: seq<SeedEntry>, created: nat)
    requires WellFormed(fs)
    ensures var r := PutAll(fs, user, app, entries, created);
      && Keeps(fs, r.0) && WellFormed(r.0)
      && (r.1.Ok? ==> AllPresent(r.0, user, app, entries))
    decreases |entries|
  {
    if entries != [] {
      var target := Target(user, app, entries[0]);
      if target.Ok? {
        var put := Put(fs, target.value, entries[0]);
        if put.Ok? {
          var r := PutAll(put.value, user, app, entries[1..], created + if target.value in fs then 0 else 1);
          PutFacts(fs, target.value, entries[0]);
          PutAllFacts(put.value, user, app, entries[1..], created + if target.value in fs then 0 else 1);
          KeepsTransitive(fs, put.value, r.0);
          assert Present(put.value, user, app, entries[0]);
          if r.1.Ok? {
            PresentToo(put.value, r.0, user, app, entries);
          }
        }
      }
    }
  }

  lemma {:induction false} PutAllPresent(fs: Disk, user: string, app: string, entries: seq<SeedEntry>, created: nat)
    requires AllPresent(fs, user, app, entries)
    ensures PutAll(fs, user, app, entries, created) == (fs, Ok(created))
    decreases |entries|
  {
    if entries != [] {
      assert Present(fs, user, app, entries[0]);
      forall i | 0 <= i < |entries[1..]| ensures Present(fs, user, app, entries[1..][i]) {
        assert Present(fs, user, app, entries[i + 1]);
      }
      PutAllPresent(fs, user, app, entries[1..], created);
    }
  }

  /** Whatever the outcome, nothing that was on the disk changes; and provisioning again after a
      success creates nothing and changes nothing. */
  lemma NeverClobbersAndIdempotent(fs: Disk, user: string, app: string, entries: seq<SeedEntry>)
    requires WellFormed(fs)
    ensures var (fs', r) := Provisioned(fs, user, app, entries);
      && Keeps(fs, fs') && WellFormed(fs')
      && (r.Ok? ==> Provisioned(fs', user, app, entries) == (fs', Ok(0)))
  {
    var (fs', r) := Provisioned(fs, user, app, entries);
    if Trim(user) != "" && Confined(user, app).Ok? {
      var box := Confined(user, app).value;
      if CanMkdir(fs, box) {
        var start := MkdirAll(fs, box);
        MkdirFacts(fs, box);
        PutAllFacts(start, user, app, entries, 0);
        if r.Ok? {
          forall i | 0 <= i <= |box| ensures box[..i] in fs' && fs'[box[..i]] == Folder {
            assert box[..i] in Prefixes(box);
            assert box[..i] in start;
          }
          assert MkdirAll(fs', box) == fs';
          PutAllPresent(fs', user, app, entries, 0);
        }
      }
    }
  }

  // ---------- where an entry goes ----------

  datatype Item = Item(path: Path, dir: bool, content: string)

  /** Trailing white space of the path is dropped. */
  function PlaceOf(base: Path, e: SeedEntry): Path { base + Split(TrimEnd(e.path)) }

  function ItemOf(base: Path, e: SeedEntry): Item { Item(PlaceOf(base, e), e.dir, e.content) }

  function ItemsOf(base: Path, entries: seq<SeedEntry>): seq<Item> {
    seq(|entries|, i requires 0 <= i < |entries| => ItemOf(base, entries[i]))
  }

  predicate Placeable(entries: seq<SeedEntry>) {
    forall i :: 0 <= i < |entries| ==> IsValidPath(TrimEnd(entries[i].path))
  }

  predicate GoodBox(user: string, app: string) {
    ValidUserId(user) && IsValidPath(app) && !IsSpace(app[0])
  }

  function BoxOf(user: string, app: string): Path { [user] + Split(app) }

  lemma TargetIsPlace(user: string, app: string, e: SeedEntry)
    requires GoodBox(user, app)
    ensures Target(user, app, e).Ok? <==> IsValidPath(TrimEnd(e.path))
    ensures Target(user, app, e).Ok? ==> Target(user, app, e).value == PlaceOf(BoxOf(user, app), e)
  {
    WorkerTrimsWhatEditorChecks(user, app, e.path);
  }

  // ---------- the first entry at a place wins ----------

  /** The first item at `p` or below it. */
  function FirstAt(items: seq<Item>, p: Path): (r: Option<Item>)
    ensures r.Some? ==> r.value in items && p <= r.value.path
    ensures r.None? ==> forall i :: 0 <= i < |items| ==> !(p <= items[i].path)
    decreases |items|
  {
    if items == [] then None
    else if p <= items[0].path then Some(items[0])
    else FirstAt(items[1..], p)
  }

  /** What an item at `p` or below puts at `p`. */
  function NodeFor(p: Path, item: Item): FNode {
    if item.path == p && !item.dir then File(item.content) else Folder
  }

  /** `fs'` is `fs` with, at every missing place that some item asks for, what the first such item
      puts there. */
  ghost predicate Lays(fs: Disk, items: seq<Item>, fs': Disk) {
    && Keeps(fs, fs')
    && forall p :: p !in fs ==> LaidAt(items, fs', p)
  }

  ghost predicate LaidAt(items: seq<Item>, fs': Disk, p: Path) {
    && (p in fs' <==> FirstAt(items, p).Some?)
    && (p in fs' ==> fs'[p] == NodeFor(p, FirstAt(items, p).value))
  }

  /** Both lists agree on the first item of every missing place. */
  ghost predicate SameFirsts(fs: Disk, a: seq<Item>, b: seq<Item>) {
    forall p :: p !in fs ==> SameFirst(a, b, p)
  }

  ghost predicate SameFirst(a: seq<Item>, b: seq<Item>, p: Path) {
    && (FirstAt(a, p).Some? <==> FirstAt(b, p).Some?)
    && (FirstAt(a, p).Some? ==> NodeFor(p, FirstAt(a, p).value) == NodeFor(p, FirstAt(b, p).value))
  }

  lemma LaidSameIff(fs: Disk, a: seq<Item>, b: seq<Item>, fsA: Disk, fsB: Disk)
    requires Lays(fs, a, fsA) && Lays(fs, b, fsB)
    ensures fsA == fsB <==> SameFirsts(fs, a, b)
  {
    if fsA == fsB {
      forall p | p !in fs ensures SameFirst(a, b, p) {
        assert LaidAt(a, fsA, p) && LaidAt(b, fsB, p);
      }
    }
    if SameFirsts(fs, a, b) {
      OneWay(fs, a, b, fsA, fsB);
      OneWay(fs, b, a, fsB, fsA);
    }
  }

  lemma OneWay(fs: Disk, a: seq<Item>, b: seq<Item>, fsA: Disk, fsB: Disk)
    requires Lays(fs, a, fsA) && Lays(fs, b, fsB) && SameFirsts(fs, a, b)
    ensures Keeps(fsA, fsB)
  {
    forall p | p in fsA ensures p in fsB && fsB[p] == fsA[p] {
      if p !in fs {
        assert LaidAt(a, fsA, p) && LaidAt(b, fsB, p) && SameFirst(a, b, p);
      }
    }
  }

  lemma PutLays(fs: Disk, e: SeedEntry, item: Item)
    requires WellFormed(fs) && item.path != [] && e.dir == item.dir && e.content == item.content
    requires Put(fs, item.path, e).Ok?
    ensures Lays(fs, [item], Put(fs, item.path, e).value)
  {
    var fs' := Put(fs, item.path, e).value;
    PutFacts(fs, item.path, e);
    forall p | p !in fs ensures LaidAt([item], fs', p) {
      if item.path in fs {
        assert p <= item.path ==> p == item.path || p < item.path;
      } else {
        PutAt(fs, item.path, e, p);
      }
    }
  }

  // A new entry makes its path and what lies above it.
  lemma PutAt(fs: Disk, full: Path, e: SeedEntry, p: Path)
    requires WellFormed(fs) && full != [] && full !in fs && Put(fs, full, e).Ok? && p !in fs
    ensures var fs' := Put(fs, full, e).value;
      && (p in fs' <==> p <= full)
      && (p in fs' ==> fs'[p] == if p == full && !e.dir then File(e.content) else Folder)
  {
    var dirs := if e.dir then full else ParentOf(full);
    MkdirFacts(fs, dirs);
    if !e.dir {
      UpToParent(p, full);
    }
  }

  lemma UpToParent(p: Path, full: Path)
    requires full != []
    ensures p <= full <==> p == full || p <= ParentOf(full)
  {
    if p <= full && p != full {
      assert p == full[..|p|] == ParentOf(full)[..|p|];
    }
  }

  lemma LaysThenLays(fs: Disk, fs1: Disk, fs2: Disk, item: Item, rest: seq<Item>)
    requires Lays(fs, [item], fs1) && Lays(fs1, rest, fs2)
    ensures Lays(fs, [item] + rest, fs2)
  {
    var items := [item] + rest;
    assert items[0] == item && items[1..] == rest && [item][0] == item;
    forall p | p !in fs ensures LaidAt(items, fs2, p) {
      assert LaidAt([item], fs1, p);
      if p !in fs1 {
        assert LaidAt(rest, fs2, p);
      }
    }
  }

  /** How many entries are dealt with before one is refused. */
  function Reach(fs: Disk, user: string, app: string, entries: seq<SeedEntry>): (k: nat)
    ensures k <= |entries|
    decreases |entries|
  {
    if entries == [] || Target(user, app, entries[0]).Err? then 0
    else
      var put := Put(fs, Target(user, app, entries[0]).value, entries[0]);
      if put.Err? then 0 else 1 + Reach(put.value, user, app, entries[1..])
  }

  /** The items of the entries that are dealt with. */
  function Dealt(fs: Disk, user: string, app: string, entries: seq<SeedEntry>): seq<Item> {
    ItemsOf(BoxOf(user, app), entries[..Reach(fs, user, app, entries)])
  }

  lemma NothingLaid(fs: Disk)
    ensures Lays(fs, [], fs)
  {
    assert forall p :: FirstAt([], p) == None;
  }

  // The first entry, if it is dealt with.
  lemma FirstDealt(fs: Disk, user: string, app: string, e: SeedEntry)
    requires WellFormed(fs) && GoodBox(user, app) && Target(user, app, e).Ok?
    requires Put(fs, Target(user, app, e).value, e).Ok?
    ensures var fs1 := Put(fs, Target(user, app, e).value, e).value;
            WellFormed(fs1) && Lays(fs, [ItemOf(BoxOf(user, app), e)], fs1)
  {
    TargetIsPlace(user, app, e);
    var full := PlaceOf(BoxOf(user, app), e);
    PutFacts(fs, full, e);
    PutLays(fs, e, ItemOf(BoxOf(user, app), e));
  }

  lemma {:induction false} PutAllLays(fs: Disk, user: string, app: string, entries: seq<SeedEntry>, created: nat)
    requires WellFormed(fs) && GoodBox(user, app)
    ensures var k := Reach(fs, user, app, entries);
      && Lays(fs, ItemsOf(BoxOf(user, app), entries[..k]), PutAll(fs, user, app, entries, created).0)
      && (PutAll(fs, user, app, entries, created).1.Ok? <==> k == |entries|)
    decreases |entries|
  {
    var base, k, r := BoxOf(user, app), Reach(fs, user, app, entries), PutAll(fs, user, app, entries, created);
    if k == 0 {
      assert ItemsOf(base, entries[..0]) == [];
      NothingLaid(fs);
    } else {
      var full := Target(user, app, entries[0]).value;
      var fs1 := Put(fs, full, entries[0]).value;
      FirstDealt(fs, user, app, entries[0]);
      PutAllLays(fs1, user, app, entries[1..], created + if full in fs then 0 else 1);
      FirstThenRest(fs, fs1, r.0, base, entries, k);
    }
  }

  lemma FirstThenRest(fs: Disk, fs1: Disk, fs2: Disk, base: Path, entries: seq<SeedEntry>, k: nat)
    requires 0 < k <= |entries| && Lays(fs, [ItemOf(base, entries[0])], fs1)
    requires Lays(fs1, ItemsOf(base, entries[1..][..k - 1]), fs2)
    ensures Lays(fs, ItemsOf(base, entries[..k]), fs2)
  {
    var rest := ItemsOf(base, entries[1..][..k - 1]);
    LaysThenLays(fs, fs1, fs2, ItemOf(base, entries[0]), rest);
    assert [ItemOf(base, entries[0])] + rest == ItemsOf(base, entries[..k]);
  }

  ghost predicate Ready(fs: Disk, user: string, app: string) {
    && WellFormed(fs) && GoodBox(user, app) && !IsSpace(app[|app| - 1])
    && CanMkdir(fs, BoxOf(user, app))
  }

  lemma BoxPath(user: string, app: string)
    requires GoodBox(user, app) && !IsSpace(app[|app| - 1])
    ensures Confined(user, app) == Ok(BoxOf(user, app)) && Trim(user) != ""
  {
    assert user != "" && !IsSpace(user[0]) && !IsSpace(user[|user| - 1]);
    assert TrimStart(user) == user && TrimEnd(user) == user;
  }

  /** Provisioning any template: the entries before the first one that is refused are laid, first
      come first served, and the reply is an error exactly if there is such an entry. */
  lemma ProvisionedLays(fs: Disk, user: string, app: string, es: seq<SeedEntry>)
    requires Ready(fs, user, app)
    ensures var base := BoxOf(user, app);
            var start := MkdirAll(fs, base);
            var k := Reach(start, user, app, es);
      && Lays(start, ItemsOf(base, es[..k]), Provisioned(fs, user, app, es).0)
      && (Provisioned(fs, user, app, es).1.Ok? <==> k == |es|)
  {
    BoxPath(user, app);
    MkdirFacts(fs, BoxOf(user, app));
    PutAllLays(MkdirAll(fs, BoxOf(user, app)), user, app, es, 0);
  }

  lemma {:induction false} PutAllRefused(fs: Disk, user: string, app: string, es: seq<SeedEntry>, n: nat)
    requires GoodBox(user, app) && PutAll(fs, user, app, es, n).1.Err?
    ensures var k := Reach(fs, user, app, es);
      k < |es| && PutAll(fs, user, app, es, n).1.error == if IsValidPath(TrimEnd(es[k].path)) then Io else BadPath
    decreases |es|
  {
    TargetIsPlace(user, app, es[0]);
    if Target(user, app, es[0]).Err? {
      TargetError(user, app, es[0]);
    }
    if Reach(fs, user, app, es) > 0 {
      var full := Target(user, app, es[0]).value;
      PutAllRefused(Put(fs, full, es[0]).value, user, app, es[1..], n + if full in fs then 0 else 1);
    }
  }

  lemma TargetError(user: string, app: string, e: SeedEntry)
    requires GoodBox(user, app) && Target(user, app, e).Err?
    ensures Target(user, app, e).error == BadPath
  {
  }

  /** The error of a refused template tells why: the path of the first entry that was not dealt with
      is illegal, or the disk has a file where it needs a folder. */
  lemma RefusedWhy(fs: Disk, user: string, app: string, es: seq<SeedEntry>)
    requires Ready(fs, user, app) && Provisioned(fs, user, app, es).1.Err?
    ensures var k := Reach(MkdirAll(fs, BoxOf(user, app)), user, app, es);
      k < |es| && Provisioned(fs, user, app, es).1.error == if IsValidPath(TrimEnd(es[k].path)) then Io else BadPath
  {
    BoxPath(user, app);
    PutAllRefused(MkdirAll(fs, BoxOf(user, app)), user, app, es, 0);
  }

  /** Nothing is provisioned for a user id, or into an application folder, that is not legal. */
  lemma RefusedOutright(fs: Disk, user: string, app: string, es: seq<SeedEntry>)
    ensures !ValidUserId(user) ==> Provisioned(fs, user, app, es) == (fs, Err(BadUser))
    ensures ValidUserId(user) && Confined(user, app).Err? ==> Provisioned(fs, user, app, es) == (fs, Err(BadPath))
  {
    if ValidUserId(user) {
      UserIdChars(user);
      assert IsIdChar(user[0]);
      assert TrimStart(user) == user;
      assert IsIdChar(user[|user| - 1]);
    }
  }

  /** The i-th entry is created: its place is missing, and no earlier entry is there or below it. */
  predicate Creates(fs: Disk, items: seq<Item>, i: nat)
    requires i < |items|
  {
    items[i].path !in fs && forall j :: 0 <= j < i ==> !(items[i].path <= items[j].path)
  }

  function CreatedFrom(fs: Disk, items: seq<Item>, i: nat): nat
    requires i <= |items|
    decreases |items| - i
  {
    if i == |items| then 0 else (if Creates(fs, items, i) then 1 else 0) + CreatedFrom(fs, items, i + 1)
  }

  lemma StillMissing(fs: Disk, items: seq<Item>, i: nat, fs1: Disk)
    requires i < |items| && Lays(fs, items[..i], fs1)
    ensures items[i].path !in fs1 <==> Creates(fs, items, i)
  {
    var p := items[i].path;
    if p !in fs {
      assert LaidAt(items[..i], fs1, p);
      assert forall j :: 0 <= j < i ==> items[..i][j] == items[j];
      if FirstAt(items[..i], p).Some? {
        var first := FirstAt(items[..i], p).value;
        var j :| 0 <= j < i && items[..i][j] == first;
        assert items[j] == first;
      }
    }
  }

  lemma LaysOn(fs: Disk, fs1: Disk, fs2: Disk, items: seq<Item>, item: Item)
    requires Lays(fs, items, fs1) && Lays(fs1, [item], fs2)
    ensures Lays(fs, items + [item], fs2)
  {
    forall p | p !in fs ensures LaidAt(items + [item], fs2, p) {
      assert LaidAt(items, fs1, p);
      FirstOfMore(items, item, p);
      if p !in fs1 {
        assert LaidAt([item], fs2, p);
        assert [item][0] == item;
      }
    }
  }

  lemma {:induction false} FirstOfMore(items: seq<Item>, item: Item, p: Path)
    ensures FirstAt(items + [item], p) ==
            if FirstAt(items, p).Some? then FirstAt(items, p) else if p <= item.path then Some(item) else None
  {
    if items == [] {
      assert [item][1..] == [] && [] + [item] == [item];
    } else {
      assert (items + [item])[1..] == items[1..] + [item];
      FirstOfMore(items[1..], item, p);
    }
  }

  lemma OneOnTop(fs: Disk, fs1: Disk, fs2: Disk, items: seq<Item>, i: nat)
    requires i < |items| && Lays(fs, items[..i], fs1) && Lays(fs1, [items[i]], fs2)
    ensures Lays(fs, items[..i + 1], fs2)
  {
    LaysOn(fs, fs1, fs2, items[..i], items[i]);
    assert items[..i] + [items[i]] == items[..i + 1];
  }

  lemma {:induction false} PutAllCounts(fs: Disk, fs1: Disk, user: string, app: string, es: seq<SeedEntry>,
                                        items: seq<Item>, i: nat, n: nat)
    requires WellFormed(fs1) && GoodBox(user, app) && items == ItemsOf(BoxOf(user, app), es) && i <= |es|
    requires Lays(fs, items[..i], fs1) && PutAll(fs1, user, app, es[i..], n).1.Ok?
    ensures PutAll(fs1, user, app, es[i..], n).1.value == n + CreatedFrom(fs, items, i)
    decreases |es| - i
  {
    if i < |es| {
      var fs2, m := PutIth(fs1, user, app, es, i, n, fs, items);
      PutAllCounts(fs, fs2, user, app, es, items, i + 1, m);
    } else {
      assert es[i..] == [];
    }
  }

  lemma PutIth(fs: Disk, user: string, app: string, es: seq<SeedEntry>, i: nat, n: nat,
               start: Disk, items: seq<Item>) returns (fs': Disk, n': nat)
    requires WellFormed(fs) && GoodBox(user, app) && i < |es| && PutAll(fs, user, app, es[i..], n).1.Ok?
    requires items == ItemsOf(BoxOf(user, app), es) && Lays(start, items[..i], fs)
    ensures WellFormed(fs') && Lays(start, items[..i + 1], fs')
    ensures PutAll(fs, user, app, es[i..], n) == PutAll(fs', user, app, es[i + 1..], n')
    ensures n' == n + if Creates(start, items, i) then 1 else 0
  {
    assert es[i..][0] == es[i] && es[i..][1..] == es[i + 1..];
    fs' := PutNext(fs, user, app, es[i..], n);
    n' := n + if items[i].path in fs then 0 else 1;
    StillMissing(start, items, i, fs);
    OneOnTop(start, fs, fs', items, i);
  }

  // A run that succeeds puts its first entry and goes on.
  lemma PutNext(fs: Disk, user: string, app: string, es: seq<SeedEntry>, n: nat) returns (fs': Disk)
    requires WellFormed(fs) && GoodBox(user, app) && es != [] && PutAll(fs, user, app, es, n).1.Ok?
    ensures var item := ItemOf(BoxOf(user, app), es[0]);
      && WellFormed(fs') && Lays(fs, [item], fs')
      && PutAll(fs, user, app, es, n) == PutAll(fs', user, app, es[1..], n + if item.path in fs then 0 else 1)
  {
    TargetIsPlace(user, app, es[0]);
    FirstDealt(fs, user, app, es[0]);
    fs' := Put(fs, PlaceOf(BoxOf(user, app), es[0]), es[0]).value;
  }

  /** The number in a reply counts the entries whose places were missing and not made for an earlier
      entry: so not folders that an earlier entry needed, and not a second entry at one place. */
  lemma CountsCreated(fs: Disk, user: string, app: string, es: seq<SeedEntry>)
    requires Ready(fs, user, app) && Provisioned(fs, user, app, es).1.Ok?
    ensures var base := BoxOf(user, app);
      Provisioned(fs, user, app, es).1.value == CreatedFrom(MkdirAll(fs, base), ItemsOf(base, es), 0)
  {
    var base := BoxOf(user, app);
    BoxPath(user, app);
    MkdirFacts(fs, base);
    var start := MkdirAll(fs, base);
    NothingLaid(start);
    assert ItemsOf(base, es)[..0] == [] && es[0..] == es;
    PutAllCounts(start, start, user, app, es, ItemsOf(base, es), 0, 0);
  }

  /** Two templates leave the same disk exactly when, among the entries that are not cut off by an
      error, they agree on the first at every missing place. */
  lemma SameDiskIff(fs: Disk, user: string, app: string, es: seq<SeedEntry>, ns: seq<SeedEntry>)
    requires Ready(fs, user, app)
    ensures var base := BoxOf(user, app);
            var start := MkdirAll(fs, base);
      Provisioned(fs, user, app, es).0 == Provisioned(fs, user, app, ns).0 <==>
      SameFirsts(start, Dealt(start, user, app, es), Dealt(start, user, app, ns))
  {
    var base := BoxOf(user, app);
    var start := MkdirAll(fs, base);
    ProvisionedLays(fs, user, app, es);
    ProvisionedLays(fs, user, app, ns);
    LaidSameIff(start, Dealt(start, user, app, es), Dealt(start, user, app, ns),
                Provisioned(fs, user, app, es).0, Provisioned(fs, user, app, ns).0);
  }

  // ---------- templates in which the order does not matter ----------

  /** `a` is a file at a missing place where `b` puts something else. */
  predicate Clash(fs: Disk, a: Item, b: Item) {
    a.path !in fs && !a.dir && a.path <= b.path && NodeFor(a.path, b) != File(a.content)
  }

  ghost predicate ClashFree(fs: Disk, items: seq<Item>) {
    forall a, b :: a in items && b in items ==> !Clash(fs, a, b)
  }

  /** No file of the box stands where an item needs a folder. */
  ghost predicate NoClash(fs: Disk, items: seq<Item>) {
    forall item, p :: item in items && p in fs && p < item.path ==> fs[p] == Folder
  }

  lemma PutWorks(fs: Disk, e: SeedEntry, full: Path)
    requires full != [] && forall p :: p in fs && p < full ==> fs[p] == Folder
    ensures Put(fs, full, e).Ok?
  {
    if full !in fs {
      var dirs := if e.dir then full else ParentOf(full);
      forall i | 0 <= i <= |dirs| && dirs[..i] in fs ensures fs[dirs[..i]] == Folder {
        assert dirs[..i] == full[..i];
        assert dirs[..i] <= full && dirs[..i] != full;
      }
    }
  }

  /** `a` is a file at a missing place that `b` needs as a folder. */
  predicate Blocks(fs: Disk, a: Item, b: Item) {
    a.path !in fs && !a.dir && a.path < b.path
  }

  ghost predicate NoFileAbove(fs: Disk, items: seq<Item>) {
    forall a, b :: a in items && b in items ==> !Blocks(fs, a, b)
  }

  lemma ClashFreeNoFileAbove(fs: Disk, items: seq<Item>)
    requires ClashFree(fs, items)
    ensures NoFileAbove(fs, items)
  {
    forall a, b | a in items && b in items ensures !Blocks(fs, a, b) {
      assert !Clash(fs, a, b);
    }
  }

  lemma StillNoClash(fs: Disk, fs1: Disk, item: Item, rest: seq<Item>)
    requires Lays(fs, [item], fs1) && NoClash(fs, [item] + rest) && NoFileAbove(fs, [item] + rest)
    ensures NoClash(fs1, rest) && NoFileAbove(fs1, rest)
  {
    var items := [item] + rest;
    assert item in items && forall x <- rest :: x in items;
    forall x, p | x in rest && p in fs1 && p < x.path ensures fs1[p] == Folder {
      if p !in fs {
        assert LaidAt([item], fs1, p);
        assert !Blocks(fs, item, x);
      }
    }
    forall a, b | a in rest && b in rest ensures !Blocks(fs1, a, b) {
      assert !Blocks(fs, a, b);
    }
  }

  lemma {:induction false} AllReached(fs: Disk, user: string, app: string, entries: seq<SeedEntry>)
    requires WellFormed(fs) && GoodBox(user, app) && Placeable(entries)
    requires NoClash(fs, ItemsOf(BoxOf(user, app), entries)) && NoFileAbove(fs, ItemsOf(BoxOf(user, app), entries))
    ensures Reach(fs, user, app, entries) == |entries|
    decreases |entries|
  {
    if entries != [] {
      var base, e := BoxOf(user, app), entries[0];
      var full, rest := PlaceOf(base, e), ItemsOf(base, entries[1..]);
      assert ItemsOf(base, entries) == [ItemOf(base, e)] + rest;
      assert ItemOf(base, e) in ItemsOf(base, entries);
      TargetIsPlace(user, app, e);
      PutWorks(fs, e, full);
      PutLays(fs, e, ItemOf(base, e));
      PutFacts(fs, full, e);
      StillNoClash(fs, Put(fs, full, e).value, ItemOf(base, e), rest);
      AllReached(Put(fs, full, e).value, user, app, entries[1..]);
    }
  }

  /** A template that is never refused: its paths are legal, and no file stands or is wanted where
      one of its items needs a folder. Two entries may still want the same place. */
  ghost predicate Unblocked(fs: Disk, user: string, app: string, entries: seq<SeedEntry>) {
    var items := ItemsOf(BoxOf(user, app), entries);
    Placeable(entries) && NoFileAbove(fs, items) && NoClash(fs, items)
  }

  lemma UnblockedReaches(fs: Disk, user: string, app: string, es: seq<SeedEntry>)
    requires Ready(fs, user, app) && Unblocked(fs, user, app, es)
    ensures Reach(MkdirAll(fs, BoxOf(user, app)), user, app, es) == |es|
  {
    var base := BoxOf(user, app);
    var start, items := MkdirAll(fs, base), ItemsOf(base, es);
    MkdirFacts(fs, base);
    forall a, b | a in items && b in items ensures !Blocks(start, a, b) {
      assert !Blocks(fs, a, b);
    }
    AllReached(start, user, app, es);
  }

  lemma UnblockedLays(fs: Disk, user: string, app: string, es: seq<SeedEntry>)
    requires Ready(fs, user, app) && Unblocked(fs, user, app, es)
    ensures Provisioned(fs, user, app, es).1.Ok?
    ensures var base := BoxOf(user, app);
            Lays(MkdirAll(fs, base), ItemsOf(base, es), Provisioned(fs, user, app, es).0)
  {
    UnblockedReaches(fs, user, app, es);
    ProvisionedLays(fs, user, app, es);
    assert es[..|es|] == es;
  }

  /** Two templates that are never refused leave the same disk exactly when they agree on the first
      entry at every missing place. */
  lemma UnblockedSameDiskIff(fs: Disk, user: string, app: string, es: seq<SeedEntry>, ns: seq<SeedEntry>)
    requires Ready(fs, user, app) && Unblocked(fs, user, app, es) && Unblocked(fs, user, app, ns)
    ensures var base := BoxOf(user, app);
      Provisioned(fs, user, app, es).0 == Provisioned(fs, user, app, ns).0 <==>
      SameFirsts(MkdirAll(fs, base), ItemsOf(base, es), ItemsOf(base, ns))
  {
    var base := BoxOf(user, app);
    UnblockedLays(fs, user, app, es);
    UnblockedLays(fs, user, app, ns);
    LaidSameIff(MkdirAll(fs, base), ItemsOf(base, es), ItemsOf(base, ns),
                Provisioned(fs, user, app, es).0, Provisioned(fs, user, app, ns).0);
  }

  /** A template that can be provisioned in any order. */
  ghost predicate Sound(fs: Disk, user: string, app: string, entries: seq<SeedEntry>) {
    var items := ItemsOf(BoxOf(user, app), entries);
    Placeable(entries) && ClashFree(fs, items) && NoClash(fs, items)
  }

  /** Some item lies at `p` or below it. */
  ghost predicate Covered(p: Path, items: seq<Item>) {
    exists item :: item in items && p <= item.path
  }

  ghost predicate IsFileItem(p: Path, content: string, items: seq<Item>) {
    Item(p, false, content) in items
  }

  lemma CoveredIsFirst(items: seq<Item>, p: Path)
    ensures Covered(p, items) <==> FirstAt(items, p).Some?
  {
  }

  /** Without clashes every item is there afterwards as it says, and the first does not matter. */
  lemma AnyIsFirst(fs: Disk, items: seq<Item>, p: Path, content: string)
    requires ClashFree(fs, items) && p !in fs && FirstAt(items, p).Some?
    ensures NodeFor(p, FirstAt(items, p).value) == File(content) <==> IsFileItem(p, content, items)
  {
    var first := FirstAt(items, p).value;
    if IsFileItem(p, content, items) {
      assert !Clash(fs, Item(p, false, content), first);
    }
    if NodeFor(p, first) == File(content) {
      assert first == Item(p, false, content);
    }
  }

  /** `fs'` is `fs` with exactly the missing items, and the folders above them, added. */
  ghost predicate Adds(fs: Disk, items: seq<Item>, fs': Disk) {
    && Keeps(fs, fs')
    && (forall p :: p !in fs ==> (p in fs' <==> Covered(p, items)))
    && (forall p, content :: p !in fs && p in fs' ==> (fs'[p] == File(content) <==> IsFileItem(p, content, items)))
  }

  /** A sound template is provisioned without error, and what it does to the disk is exactly to
      add the missing box folder, items, and folders above them. */
  lemma ProvisionedAdds(fs: Disk, user: string, app: string, es: seq<SeedEntry>)
    requires Ready(fs, user, app) && Sound(fs, user, app, es)
    ensures var base := BoxOf(user, app);
      && Provisioned(fs, user, app, es).1.Ok?
      && Adds(MkdirAll(fs, base), ItemsOf(base, es), Provisioned(fs, user, app, es).0)
  {
    var base := BoxOf(user, app);
    var start, items, fs' := MkdirAll(fs, base), ItemsOf(base, es), Provisioned(fs, user, app, es).0;
    SoundUnblocked(fs, user, app, es);
    UnblockedLays(fs, user, app, es);
    SoundStays(fs, user, app, es);
    LaidAdds(start, items, fs');
  }

  lemma LaidAdds(fs: Disk, items: seq<Item>, fs': Disk)
    requires Lays(fs, items, fs') && ClashFree(fs, items)
    ensures Adds(fs, items, fs')
  {
    forall p | p !in fs ensures p in fs' <==> Covered(p, items) {
      assert LaidAt(items, fs', p);
      CoveredIsFirst(items, p);
    }
    forall p, content | p !in fs && p in fs' ensures fs'[p] == File(content) <==> IsFileItem(p, content, items) {
      assert LaidAt(items, fs', p);
      AnyIsFirst(fs, items, p, content);
    }
  }

  lemma SoundStays(fs: Disk, user: string, app: string, es: seq<SeedEntry>)
    requires Ready(fs, user, app) && Sound(fs, user, app, es)
    ensures Sound(MkdirAll(fs, BoxOf(user, app)), user, app, es)
  {
    var base := BoxOf(user, app);
    var start, items := MkdirAll(fs, base), ItemsOf(base, es);
    MkdirFacts(fs, base);
    forall a, b | a in items && b in items ensures !Clash(start, a, b) {
      assert !Clash(fs, a, b);
    }
  }

  lemma SoundUnblocked(fs: Disk, user: string, app: string, es: seq<SeedEntry>)
    requires Sound(fs, user, app, es)
    ensures Unblocked(fs, user, app, es)
  {
    ClashFreeNoFileAbove(fs, ItemsOf(BoxOf(user, app), es));
  }

  ghost predicate SameFiles(a: seq<Item>, b: seq<Item>) {
    forall p, content :: IsFileItem(p, content, a) <==> IsFileItem(p, content, b)
  }

  /** Apart from what stands already, both lists ask for something at the same places. */
  ghost predicate SamePlaces(fs: Disk, a: seq<Item>, b: seq<Item>) {
    forall p :: p in fs || (Covered(p, a) <==> Covered(p, b))
  }

  lemma AddsSameIff(fs: Disk, a: seq<Item>, b: seq<Item>, fsA: Disk, fsB: Disk)
    requires SameFiles(a, b) && Adds(fs, a, fsA) && Adds(fs, b, fsB)
    ensures fsA == fsB <==> SamePlaces(fs, a, b)
  {
    if SamePlaces(fs, a, b) {
      AddsOneWay(fs, a, b, fsA, fsB);
      AddsOneWay(fs, b, a, fsB, fsA);
    }
  }

  lemma AddsOneWay(fs: Disk, a: seq<Item>, b: seq<Item>, fsA: Disk, fsB: Disk)
    requires SameFiles(a, b) && SamePlaces(fs, a, b) && Adds(fs, a, fsA) && Adds(fs, b, fsB)
    ensures Keeps(fsA, fsB)
  {
    forall p | p in fsA ensures p in fsB && fsB[p] == fsA[p] {
      if p !in fs {
        assert forall content :: fsA[p] == File(content) <==> fsB[p] == File(content);
        assert fsA[p] != Folder ==> fsA[p] == File(fsA[p].content);
        assert fsB[p] != Folder ==> fsB[p] == File(fsB[p].content);
      }
    }
  }

  /** Two sound templates with the same files leave the same disk exactly when they ask for
      something at the same missing places. */
  lemma SoundSameDiskIff(fs: Disk, user: string, app: string, es: seq<SeedEntry>, ns: seq<SeedEntry>)
    requires Ready(fs, user, app) && Sound(fs, user, app, es) && Sound(fs, user, app, ns)
    requires SameFiles(ItemsOf(BoxOf(user, app), es), ItemsOf(BoxOf(user, app), ns))
    ensures Provisioned(fs, user, app, es).1.Ok? && Provisioned(fs, user, app, ns).1.Ok?
    ensures var base := BoxOf(user, app);
      Provisioned(fs, user, app, es).0 == Provisioned(fs, user, app, ns).0 <==>
      SamePlaces(MkdirAll(fs, base), ItemsOf(base, es), ItemsOf(base, ns))
  {
    var base := BoxOf(user, app);
    ProvisionedAdds(fs, user, app, es);
    ProvisionedAdds(fs, user, app, ns);
    AddsSameIff(MkdirAll(fs, base), ItemsOf(base, es), ItemsOf(base, ns),
                Provisioned(fs, user, app, es).0, Provisioned(fs, user, app, ns).0);
  }

  // ---------- when the order of entries does not matter ----------

  ghost predicate Reordered(es: seq<SeedEntry>, ns: seq<SeedEntry>) { multiset(ns) == multiset(es) }

  lemma ReorderedMembers(es: seq<SeedEntry>, ns: seq<SeedEntry>)
    requires Reordered(es, ns)
    ensures forall e :: e in ns <==> e in es
  {
    assert forall e :: e in ns <==> e in multiset(ns);
    assert forall e :: e in es <==> e in multiset(es);
  }

  lemma ItemMembers(base: Path, es: seq<SeedEntry>, item: Item)
    ensures item in ItemsOf(base, es) <==> exists e :: e in es && ItemOf(base, e) == item
  {
    var items := ItemsOf(base, es);
    if item in items {
      var i :| 0 <= i < |items| && items[i] == item;
      assert es[i] in es;
    }
    if exists e :: e in es && ItemOf(base, e) == item {
      var e :| e in es && ItemOf(base, e) == item;
      var i :| 0 <= i < |es| && es[i] == e;
      assert items[i] == item;
    }
  }

  lemma ReorderedSameDisk(fs: Disk, user: string, app: string, es: seq<SeedEntry>, ns: seq<SeedEntry>)
    requires Ready(fs, user, app) && Sound(fs, user, app, es) && Reordered(es, ns)
    ensures Provisioned(fs, user, app, ns).0 == Provisioned(fs, user, app, es).0
  {
    var base := BoxOf(user, app);
    var items, items' := ItemsOf(base, es), ItemsOf(base, ns);
    ReorderedMembers(es, ns);
    forall item ensures item in items <==> item in items' {
      ItemMembers(base, es, item);
      ItemMembers(base, ns, item);
    }
    forall i | 0 <= i < |ns| ensures IsValidPath(TrimEnd(ns[i].path)) {
      assert ns[i] in es;
    }
    forall a, b | a in items' && b in items' ensures !Clash(fs, a, b) {
      assert a in items && b in items;
    }
    assert NoClash(fs, items') && SamePlaces(MkdirAll(fs, base), items, items');
    SoundSameDiskIff(fs, user, app, es, ns);
  }

  /** The first entry of a template always gets its place. */
  lemma FirstEntryLaid(fs: Disk, user: string, app: string, e: SeedEntry, rest: seq<SeedEntry>, p: Path)
    requires Ready(fs, user, app) && IsValidPath(TrimEnd(e.path)) && NoClash(fs, [ItemOf(BoxOf(user, app), e)])
    requires p !in fs && |p| > |BoxOf(user, app)| && p <= PlaceOf(BoxOf(user, app), e)
    ensures var after := Provisioned(fs, user, app, [e] + rest).0;
            p in after && after[p] == NodeFor(p, ItemOf(BoxOf(user, app), e))
  {
    var base, es := BoxOf(user, app), [e] + rest;
    var start := MkdirAll(fs, base);
    MkdirFacts(fs, base);
    TargetIsPlace(user, app, e);
    assert ItemOf(base, e) in [ItemOf(base, e)];
    PutWorks(start, e, PlaceOf(base, e));
    ProvisionedLays(fs, user, app, es);
    var k := Reach(start, user, app, es);
    assert es[0] == e && k > 0;
    assert ItemsOf(base, es[..k])[0] == ItemOf(base, e);
    assert LaidAt(ItemsOf(base, es[..k]), Provisioned(fs, user, app, es).0, p);
  }

  // Whoever of two clashing entries comes first decides.
  lemma ClashingOrdersDiffer(fs: Disk, user: string, app: string, x: SeedEntry, y: SeedEntry, rest: seq<SeedEntry>)
    requires Ready(fs, user, app) && IsValidPath(TrimEnd(x.path)) && IsValidPath(TrimEnd(y.path))
    requires var base := BoxOf(user, app); NoClash(fs, [ItemOf(base, x)]) && NoClash(fs, [ItemOf(base, y)])
    requires Clash(fs, ItemOf(BoxOf(user, app), x), ItemOf(BoxOf(user, app), y))
    ensures Provisioned(fs, user, app, [x, y] + rest).0 != Provisioned(fs, user, app, [y, x] + rest).0
  {
    var p := PlaceOf(BoxOf(user, app), x);
    FirstEntryLaid(fs, user, app, x, [y] + rest, p);
    FirstEntryLaid(fs, user, app, y, [x] + rest, p);
    assert [x] + ([y] + rest) == [x, y] + rest && [y] + ([x] + rest) == [y, x] + rest;
  }

  lemma OneOfMany(fs: Disk, base: Path, es: seq<SeedEntry>, e: SeedEntry)
    requires e in es && NoClash(fs, ItemsOf(base, es)) && Placeable(es)
    ensures NoClash(fs, [ItemOf(base, e)]) && IsValidPath(TrimEnd(e.path))
  {
    ItemMembers(base, es, ItemOf(base, e));
    var i :| 0 <= i < |es| && es[i] == e;
  }

  lemma ClashMeansOrderMatters(fs: Disk, user: string, app: string, es: seq<SeedEntry>, i: nat, j: nat)
    returns (ns: seq<SeedEntry>)
    requires Ready(fs, user, app) && Placeable(es) && NoClash(fs, ItemsOf(BoxOf(user, app), es))
    requires i < |es| && j < |es| && Clash(fs, ItemOf(BoxOf(user, app), es[i]), ItemOf(BoxOf(user, app), es[j]))
    ensures Reordered(es, ns) && Provisioned(fs, user, app, ns).0 != Provisioned(fs, user, app, es).0
  {
    var base := BoxOf(user, app);
    var rest := TwoToFront(es, i, j);
    OneOfMany(fs, base, es, es[i]);
    OneOfMany(fs, base, es, es[j]);
    ClashingOrdersDiffer(fs, user, app, es[i], es[j], rest);
    ns := [es[i], es[j]] + rest;
    if Provisioned(fs, user, app, ns).0 == Provisioned(fs, user, app, es).0 {
      ns := [es[j], es[i]] + rest;
    }
  }

  /** Users get the same box in whatever order the entries come exactly when no file entry meets
      another entry at its trimmed place. */
  lemma OrderFreeIff(fs: Disk, user: string, app: string, es: seq<SeedEntry>)
    requires Ready(fs, user, app) && Placeable(es) && NoClash(fs, ItemsOf(BoxOf(user, app), es))
    ensures (forall ns :: Reordered(es, ns) ==>
              Provisioned(fs, user, app, ns).0 == Provisioned(fs, user, app, es).0) <==>
            ClashFree(fs, ItemsOf(BoxOf(user, app), es))
  {
    if ClashFree(fs, ItemsOf(BoxOf(user, app), es)) {
      forall ns | Reordered(es, ns) ensures Provisioned(fs, user, app, ns).0 == Provisioned(fs, user, app, es).0 {
        ReorderedSameDisk(fs, user, app, es, ns);
      }
    } else {
      var items := ItemsOf(BoxOf(user, app), es);
      var a, b :| a in items && b in items && Clash(fs, a, b);
      var i :| 0 <= i < |items| && items[i] == a;
      var j :| 0 <= j < |items| && items[j] == b;
      var ns := ClashMeansOrderMatters(fs, user, app, es, i, j);
    }
  }
}
