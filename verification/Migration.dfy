/** Template versions and box migrations. Every database call, file access and lock is one step:
    set-template loads and later saves, a provision request carries the row it was built from,
    the worker reads the stamp before it takes the guard, and migrations finish in the
    background. */
module Migration {
  import opened Decimal
  import opened Lists
  import opened Wrappers
  import opened Paths

  // ---------- the decisions ----------

  datatype Row = Row(version: int, instructions: Option<string>)

  function TrimmedNonEmpty(text: Option<string>): Option<string> {
    if text.Some? && Trim(text.value) != "" then Some(Trim(text.value)) else None
  }

  /** What set-template stores over the row it loaded. */
  function ResolveSet(current: Option<Row>, publish: bool, newInstructions: Option<string>): Result<Row, string> {
    if publish then
      match TrimmedNonEmpty(newInstructions)
      case None => Err("publishing a new version requires migration instructions")
      case Some(text) => Ok(Row((if current.Some? then current.value.version else 0) + 1, Some(text)))
    else if current.Some? then Ok(current.value)
    else Ok(Row(1, None))
  }

  predicate Blank(text: string) { forall i :: 0 <= i < |text| ==> IsSpace(text[i]) }

  lemma {:induction false} TrimStartBlank(text: string)
    ensures TrimStart(text) == "" <==> Blank(text)
    ensures TrimStart(text) != "" ==> !IsSpace(TrimStart(text)[0])
  {
    if text != "" && IsSpace(text[0]) {
      TrimStartBlank(text[1..]);
      assert Blank(text) <==> Blank(text[1..]) by {
        assert forall i :: 1 <= i < |text| ==> text[i] == text[1..][i - 1];
      }
    }
  }

  lemma {:induction false} TrimEndKeepsFirst(text: string)
    requires text != "" && !IsSpace(text[0])
    ensures TrimEnd(text) != "" && TrimEnd(text)[0] == text[0]
  {
    if IsSpace(text[|text| - 1]) {
      TrimEndKeepsFirst(text[..|text| - 1]);
    }
  }

  lemma TrimBlank(text: string)
    ensures Trim(text) == "" <==> Blank(text)
  {
    TrimStartBlank(text);
    if TrimStart(text) != "" {
      TrimEndKeepsFirst(TrimStart(text));
    }
  }

  /** A publish succeeds exactly with instructions that are not blank, on a missing row as on an
      existing one; then it stores the next version with the trimmed instructions. Without the
      flag a call always succeeds, and changes no version and no instructions. */
  lemma PublishNeedsInstructions(current: Option<Row>, publish: bool, text: Option<string>)
    ensures ResolveSet(current, publish, text).Ok? <==> !publish || (text.Some? && !Blank(text.value))
    ensures publish && text.Some? && !Blank(text.value) ==>
      ResolveSet(current, publish, text) == Ok(Row(VersionIn(current) + 1, Some(Trim(text.value))))
    ensures !publish ==> ResolveSet(current, publish, text) == Ok(if current.Some? then current.value else Row(1, None))
  {
    if text.Some? {
      TrimBlank(text.value);
    }
  }

  function VersionIn(row: Option<Row>): int { if row.Some? then row.value.version else 0 }

  datatype Decision = Provision | UpToDate | Migrate

  function DecideAction(stamp: int, target: int): Decision {
    if stamp <= 0 then Provision else if stamp >= target then UpToDate else Migrate
  }

  // ---------- the stamp file ----------

  const MAX_INT64 := 0x7FFF_FFFF_FFFF_FFFF

  // Rust's `parse::<i64>`: an optional sign and digits, within range.
  function ParseInt64(text: string): Option<int> {
    var negative := text != "" && text[0] == '-';
    var digits := if text != "" && (text[0] == '-' || text[0] == '+') then text[1..] else text;
    if !AllDigits(digits) then None
    else
      var n := (if negative then -1 else 1) * ValueOf(digits);
      if -MAX_INT64 - 1 <= n <= MAX_INT64 then Some(n) else None
  }

  // A missing or malformed file counts as version 0.
  function ParseStamp(raw: Option<string>): int {
    if raw.None? then 0
    else
      var n := ParseInt64(Trim(raw.value));
      if n.Some? then n.value else 0
  }

  function StampText(version: nat): string { Digits(version, 0) + "\n" }

  /** A stamp reads back as the version that was written. */
  lemma StampReadsBack(version: nat)
    requires version <= MAX_INT64
    ensures ParseStamp(Some(StampText(version))) == version
  {
    var text := Digits(version, 0);
    TrimEndKeepsFront(text, "\n");
    assert "\n"[..0] == "";
    assert TrimEnd("\n") == TrimEnd("");
    assert text + "" == text;
    assert IsDigit(text[0]) && TrimStart(StampText(version)) == StampText(version);
    ReadsBack(version, 0);
  }

  /** So does any decimal number of 64 bits with or without a sign; a number out of range reads as
      a missing stamp. */
  lemma SignedStamps(n: int, width: nat)
    requires n >= 0
    ensures var text := Digits(n, width);
      && ParseInt64(text) == (if n <= 9223372036854775807 then Some(n) else None)
      && ParseInt64("+" + text) == (if n <= 9223372036854775807 then Some(n) else None)
      && ParseInt64("-" + text) == (if n <= 9223372036854775808 then Some(-n) else None)
  {
    var text := Digits(n, width);
    ReadsBack(n, width);
    assert AllDigits(text);
    UnsignedParses(text);
    SignedParses('+', text);
    SignedParses('-', text);
  }

  lemma UnsignedParses(text: string)
    requires AllDigits(text)
    ensures ParseInt64(text) == if ValueOf(text) <= 9223372036854775807 then Some(ValueOf(text)) else None
  {
    assert IsDigit(text[0]);
  }

  lemma SignedParses(sign: char, text: string)
    requires AllDigits(text) && (sign == '+' || sign == '-')
    ensures var v: int := ValueOf(text);
            var n: int := if sign == '-' then -v else v;
      ParseInt64([sign] + text) == if -9223372036854775808 <= n <= 9223372036854775807 then Some(n) else None
  {
    AfterSign(sign, text);
  }

  lemma AfterSign(sign: char, text: string)
    ensures ([sign] + text)[0] == sign && ([sign] + text)[1..] == text
  {
  }

  /** And anything else too: no digit at all, or a character that is neither a digit nor a sign in
      front. */
  lemma MalformedStamps(raw: string)
    requires var text := Trim(raw);
      || text in ["", "+", "-"]
      || (exists i :: 0 <= i < |text| && !('0' <= text[i] <= '9') && (i > 0 || (text[0] != '+' && text[0] != '-')))
    ensures ParseStamp(Some(raw)) == 0 && ParseStamp(None) == 0
  {
    var text := Trim(raw);
    if text !in ["", "+", "-"] {
      var i :| 0 <= i < |text| && !('0' <= text[i] <= '9') && (i > 0 || (text[0] != '+' && text[0] != '-'));
      assert !IsDigit(text[i]);
      assert i > 0 ==> text[1..][i - 1] == text[i];
    }
  }

  // ---------- the system ----------

  datatype Key = Key(user: string, app: string)

  // A set-template call that has loaded the row.
  datatype Setter = Setter(app: string, loaded: Option<Row>, publish: bool, instructions: Option<string>)

  // A provision request, once the worker has read the stamp with it.
  datatype Request = Request(key: Key, row: Row, stamp: Option<int>)

  datatype Phase = Claimed | Running | Finished

  // A migration that holds the guard of its box; `read` is the stamp it was decided on (history).
  datatype Claim = Claim(key: Key, row: Row, read: int, phase: Phase)

  datatype Reply = Provisioned | Current | Migrating | AlreadyInFlight | Unavailable | Skipped | Failed

  datatype State = State(
    store: map<string, Row>,
    setters: seq<Setter>,
    requests: seq<Request>,
    stamps: map<Key, int>,
    inFlight: set<Key>,
    claims: seq<Claim>,
    replies: seq<Reply>,
    ever: set<(string, int)>)     // history: versions that were stored at some time

  const INIT := State(map[], [], [], map[], {}, [], [], {})

  datatype Action =
    | Seed(app: string)
    | Load(app: string, publish: bool, instructions: Option<string>)
    | Save(i: nat, ok: bool)
    | Ask(key: Key)
    | ReadStamp(i: nat, ok: bool)           // a marker that cannot be read counts as 0
    | Drop(i: nat)                          // an earlier error, or the caller went away
    | Act(i: nat, ok: bool)
    | Launch(j: nat, cwdOk: bool, claudeFound: bool)
    | Finish(j: nat, ok: bool)
    | Release(j: nat)

  function Lookup(store: map<string, Row>, app: string): Option<Row> {
    if app in store then Some(store[app]) else None
  }

  function StampOf(s: State, key: Key): int { if key in s.stamps then s.stamps[key] else 0 }

  predicate Enabled(s: State, a: Action) {
    match a
    case Seed(app) => app !in s.store
    case Load(_, _, _) => true
    case Save(i, _) => i < |s.setters|
    case Ask(key) => key.app in s.store
    case ReadStamp(i, _) => i < |s.requests| && s.requests[i].stamp.None?
    case Drop(i) => i < |s.requests|
    case Act(i, _) => i < |s.requests| && s.requests[i].stamp.Some?
    case Launch(j, _, _) => j < |s.claims| && s.claims[j].phase == Claimed
    case Finish(j, _) => j < |s.claims| && s.claims[j].phase == Running
    case Release(j) => j < |s.claims| && s.claims[j].phase == Finished
  }

  function Stored(s: State, app: string, row: Row): State {
    s.(store := s.store[app := row], ever := s.ever + {(app, row.version)})
  }

  function Answered(s: State, reply: Reply): State { s.(replies := s.replies + [reply]) }

  function Saved(s: State, i: nat, ok: bool): State
    requires i < |s.setters|
  {
    var c := s.setters[i];
    var s' := s.(setters := Without(s.setters, i));
    match ResolveSet(c.loaded, c.publish, c.instructions)
    case Err(_) => s'
    case Ok(row) => if ok then Stored(s', c.app, row) else s'
  }

  function Acted(s: State, i: nat, ok: bool): State
    requires i < |s.requests| && s.requests[i].stamp.Some?
  {
    var r := s.requests[i];
    var s' := s.(requests := Without(s.requests, i));
    match DecideAction(r.stamp.value, r.row.version)
    case Provision =>
      if ok then Answered(s'.(stamps := s.stamps[r.key := if r.row.version < 1 then 1 else r.row.version]), Provisioned)
      else Answered(s', Failed)
    case UpToDate => Answered(s', Current)
    case Migrate =>
      if r.key in s.inFlight then Answered(s', AlreadyInFlight)
      else s'.(inFlight := s.inFlight + {r.key}, claims := s.claims + [Claim(r.key, r.row, r.stamp.value, Claimed)])
  }

  function Released(s: State, j: nat): State
    requires j < |s.claims|
  {
    s.(inFlight := s.inFlight - {s.claims[j].key}, claims := Without(s.claims, j))
  }

  function Launched(s: State, j: nat, cwdOk: bool, claudeFound: bool): State
    requires j < |s.claims|
  {
    if s.claims[j].row.instructions.None? then Answered(Released(s, j), Skipped)
    else if !cwdOk then Answered(Released(s, j), Failed)
    else if !claudeFound then Answered(Released(s, j), Unavailable)
    else Answered(s.(claims := s.claims[j := s.claims[j].(phase := Running)]), Migrating)
  }

  function Ended(s: State, j: nat, ok: bool): State
    requires j < |s.claims|
  {
    var c := s.claims[j];
    s.(claims := s.claims[j := c.(phase := Finished)],
       stamps := if ok then s.stamps[c.key := c.row.version] else s.stamps)
  }

  function Step(s: State, a: Action): State
    requires Enabled(s, a)
  {
    match a
    case Seed(app) => Stored(s, app, Row(1, None))
    case Load(app, publish, text) => s.(setters := s.setters + [Setter(app, Lookup(s.store, app), publish, text)])
    case Save(i, ok) => Saved(s, i, ok)
    case Ask(key) => s.(requests := s.requests + [Request(key, s.store[key.app], None)])
    case ReadStamp(i, ok) =>
      var stamp := if ok then StampOf(s, s.requests[i].key) else 0;
      s.(requests := s.requests[i := s.requests[i].(stamp := Some(stamp))])
    case Drop(i) => s.(requests := Without(s.requests, i))
    case Act(i, ok) => Acted(s, i, ok)
    case Launch(j, cwdOk, found) => Launched(s, j, cwdOk, found)
    case Finish(j, ok) => Ended(s, j, ok)
    case Release(j) => Released(s, j)
  }

  predicate CanRun(s: State, acts: seq<Action>)
    decreases |acts|
  {
    acts == [] || (Enabled(s, acts[0]) && CanRun(Step(s, acts[0]), acts[1..]))
  }

  function Run(s: State, acts: seq<Action>): State
    requires CanRun(s, acts)
    decreases |acts|
  {
    if acts == [] then s else Run(Step(s, acts[0]), acts[1..])
  }

  // ---------- what holds in every interleaving ----------

  /** Beyond version 1 a row carries migration instructions, trimmed and not empty. */
  predicate GoodRow(r: Row) {
    && r.version >= 1
    && (r.version > 1 ==>
          && r.instructions.Some? && r.instructions.value != ""
          && Trim(r.instructions.value) == r.instructions.value)
  }

  ghost predicate RowsOk(s: State) {
    && (forall app <- s.store :: WasStored(s, app, s.store[app]))
    && (forall c <- s.setters :: c.loaded.Some? ==> GoodRow(c.loaded.value))
    && (forall r <- s.requests :: WasStored(s, r.key.app, r.row))
    && (forall c <- s.claims :: WasStored(s, c.key.app, c.row) && 1 <= c.read < c.row.version)
  }

  ghost predicate WasStored(s: State, app: string, row: Row) {
    GoodRow(row) && (app, row.version) in s.ever
  }

  /** Every stamp is a version that was stored for that application. */
  ghost predicate StampsOk(s: State) {
    forall key <- s.stamps :: (key.app, s.stamps[key]) in s.ever
  }

  ghost predicate EverOk(s: State) { forall p <- s.ever :: p.1 >= 1 }

  /** A box is in flight iff exactly one claim holds it. */
  ghost predicate GuardOk(s: State) {
    && (forall key :: key in s.inFlight <==> exists j :: 0 <= j < |s.claims| && s.claims[j].key == key)
    && (forall i, j :: 0 <= i < j < |s.claims| ==> s.claims[i].key != s.claims[j].key)
  }

  ghost predicate Inv(s: State) {
    RowsOk(s) && StampsOk(s) && EverOk(s) && GuardOk(s) && Skipped !in s.replies
  }

  lemma {:induction false} TrimTwice(text: string)
    ensures Trim(Trim(text)) == Trim(text)
  {
    var front := TrimStart(text);
    TrimStartFirst(text);
    TrimEndFacts(front);
    TrimEndFacts(TrimEnd(front));
  }

  lemma {:induction false} TrimStartFirst(s: string)
    ensures TrimStart(s) != "" ==> !IsSpace(TrimStart(s)[0])
  {
    if s != "" {
      TrimStartFirst(s[1..]);
    }
  }

  lemma {:induction false} TrimEndFacts(s: string)
    ensures TrimEnd(s) <= s && (TrimEnd(s) != "" ==> !IsSpace(TrimEnd(s)[|TrimEnd(s)| - 1]))
    ensures TrimEnd(TrimEnd(s)) == TrimEnd(s)
  {
    if s != "" && IsSpace(s[|s| - 1]) {
      TrimEndFacts(s[..|s| - 1]);
    }
  }

  lemma ResolveGood(current: Option<Row>, publish: bool, text: Option<string>)
    requires current.Some? ==> GoodRow(current.value)
    ensures ResolveSet(current, publish, text).Ok? ==> GoodRow(ResolveSet(current, publish, text).value)
  {
    if text.Some? {
      TrimTwice(text.value);
    }
  }

  lemma SaveKeepsRows(s: State, i: nat, ok: bool)
    requires Enabled(s, Save(i, ok)) && RowsOk(s)
    ensures RowsOk(Saved(s, i, ok))
  {
    WithoutMembers(s.setters, i);
    assert s.setters[i] in s.setters;
    ResolveGood(s.setters[i].loaded, s.setters[i].publish, s.setters[i].instructions);
  }

  lemma ActKeepsRows(s: State, i: nat, ok: bool)
    requires Enabled(s, Act(i, ok)) && RowsOk(s)
    ensures RowsOk(Acted(s, i, ok))
  {
    WithoutMembers(s.requests, i);
    assert s.requests[i] in s.requests;
  }

  lemma ClaimsKeepRows(s: State, a: Action)
    requires Enabled(s, a) && RowsOk(s) && (a.Launch? || a.Finish? || a.Release?)
    ensures RowsOk(Step(s, a))
  {
    assert s.claims[a.j] in s.claims;
    WithoutMembers(s.claims, a.j);
  }

  lemma RequestsKeepRows(s: State, a: Action)
    requires Enabled(s, a) && RowsOk(s) && (a.ReadStamp? || a.Drop?)
    ensures RowsOk(Step(s, a))
  {
    assert s.requests[a.i] in s.requests;
    WithoutMembers(s.requests, a.i);
  }

  lemma RowsKept(s: State, a: Action)
    requires Enabled(s, a) && RowsOk(s)
    ensures RowsOk(Step(s, a))
  {
    if a.Save? {
      SaveKeepsRows(s, a.i, a.ok);
    } else if a.Act? {
      ActKeepsRows(s, a.i, a.ok);
    } else if a.Launch? || a.Finish? || a.Release? {
      ClaimsKeepRows(s, a);
    } else if a.ReadStamp? || a.Drop? {
      RequestsKeepRows(s, a);
    }
  }

  lemma SaveKeepsStamps(s: State, i: nat, ok: bool)
    requires Enabled(s, Save(i, ok)) && RowsOk(s) && StampsOk(s) && EverOk(s)
    ensures StampsOk(Saved(s, i, ok)) && EverOk(Saved(s, i, ok))
  {
    assert s.setters[i] in s.setters;
    ResolveGood(s.setters[i].loaded, s.setters[i].publish, s.setters[i].instructions);
  }

  lemma StampsKept(s: State, a: Action)
    requires Enabled(s, a) && RowsOk(s) && StampsOk(s) && EverOk(s)
    ensures StampsOk(Step(s, a)) && EverOk(Step(s, a))
  {
    if a.Save? {
      SaveKeepsStamps(s, a.i, a.ok);
    } else if a.Act? {
      assert s.requests[a.i] in s.requests;
    } else if a.Finish? {
      assert s.claims[a.j] in s.claims;
    }
  }

  ghost predicate SameGuards(s: State, s': State) {
    s'.inFlight == s.inFlight && |s'.claims| == |s.claims|
    && forall j :: 0 <= j < |s.claims| ==> s'.claims[j].key == s.claims[j].key
  }

  lemma ReleaseGuard(s: State, j: nat)
    requires GuardOk(s) && j < |s.claims|
    ensures GuardOk(Released(s, j))
  {
    var s' := Released(s, j);
    forall key ensures key in s'.inFlight <==> exists k :: 0 <= k < |s'.claims| && s'.claims[k].key == key {
      if key in s'.inFlight {
        var k :| 0 <= k < |s.claims| && s.claims[k].key == key;
        assert s'.claims[if k < j then k else k - 1].key == key;
      }
    }
  }

  lemma ClaimGuard(s: State, s': State, c: Claim)
    requires GuardOk(s) && c.key !in s.inFlight
    requires s'.inFlight == s.inFlight + {c.key} && s'.claims == s.claims + [c]
    ensures GuardOk(s')
  {
    assert s'.claims[|s.claims|] == c;
    forall key ensures key in s'.inFlight <==> exists k :: 0 <= k < |s'.claims| && s'.claims[k].key == key {
      if key in s.inFlight {
        var k :| 0 <= k < |s.claims| && s.claims[k].key == key;
        assert s'.claims[k].key == key;
      }
    }
  }

  lemma SameGuardsOk(s: State, s': State)
    requires GuardOk(s) && SameGuards(s, s')
    ensures GuardOk(s')
  {
  }

  lemma ActKeepsGuard(s: State, i: nat, ok: bool)
    requires Enabled(s, Act(i, ok)) && GuardOk(s)
    ensures GuardOk(Acted(s, i, ok))
  {
    var r, s' := s.requests[i], Acted(s, i, ok);
    if s'.claims == s.claims {
      SameGuardsOk(s, s');
    } else {
      ClaimGuard(s, s', Claim(r.key, r.row, r.stamp.value, Claimed));
    }
  }

  lemma LaunchKeepsGuard(s: State, j: nat, cwdOk: bool, found: bool)
    requires Enabled(s, Launch(j, cwdOk, found)) && GuardOk(s)
    ensures GuardOk(Launched(s, j, cwdOk, found))
  {
    var s' := Launched(s, j, cwdOk, found);
    if |s'.claims| == |s.claims| {
      SameGuardsOk(s, s');
    } else {
      ReleaseGuard(s, j);
      SameGuardsOk(Released(s, j), s');
    }
  }

  lemma GuardKept(s: State, a: Action)
    requires Enabled(s, a) && GuardOk(s)
    ensures GuardOk(Step(s, a))
  {
    match a
    case Act(i, ok) => ActKeepsGuard(s, i, ok);
    case Launch(j, cwdOk, found) => LaunchKeepsGuard(s, j, cwdOk, found);
    case Release(j) => ReleaseGuard(s, j);
    case _ => SameGuardsOk(s, Step(s, a));
  }

  lemma NeverSkips(s: State, a: Action)
    requires Enabled(s, a) && RowsOk(s) && Skipped !in s.replies
    ensures Skipped !in Step(s, a).replies
  {
    if a.Launch? {
      assert s.claims[a.j] in s.claims;
    }
  }

  lemma StepKeepsInv(s: State, a: Action)
    requires Enabled(s, a) && Inv(s)
    ensures Inv(Step(s, a))
  {
    RowsKept(s, a);
    StampsKept(s, a);
    GuardKept(s, a);
    NeverSkips(s, a);
  }

  lemma {:induction false} RunKeepsInv(s: State, acts: seq<Action>)
    requires CanRun(s, acts) && Inv(s)
    ensures Inv(Run(s, acts))
    decreases |acts|
  {
    if acts != [] {
      StepKeepsInv(s, acts[0]);
      RunKeepsInv(Step(s, acts[0]), acts[1..]);
    }
  }

  /** In every interleaving: beyond version 1 the stored row has instructions, a box is in flight
      iff exactly one migration holds it, a stamp is a version that was published for its
      application, and no request is answered "migrate-skipped". */
  lemma EveryInterleaving(acts: seq<Action>)
    requires CanRun(INIT, acts)
    ensures var s := Run(INIT, acts);
      && (forall app <- s.store :: GoodRow(s.store[app]))
      && GuardOk(s)
      && (forall key <- s.stamps :: (key.app, s.stamps[key]) in s.ever && s.stamps[key] >= 1)
      && Skipped !in s.replies
  {
    RunKeepsInv(INIT, acts);
  }

  // ---------- every request brings its box up to date ----------

  /** What a request is answered, and what it starts, by the stamp it read and the version it
      carries: a box without a stamp is provisioned, one that is up to date is left alone, and an
      older one is migrated unless that is under way. */
  lemma ActAnswers(s: State, i: nat, ok: bool)
    requires Enabled(s, Act(i, ok)) && Inv(s)
    ensures var r, s' := s.requests[i], Step(s, Act(i, ok));
            var stamp, version := r.stamp.value, r.row.version;
      && s'.requests == Without(s.requests, i) && s'.store == s.store
      && (stamp >= version ==> s' == s.(requests := s'.requests, replies := s.replies + [Current]))
      && (stamp <= 0 ==>
            s' == s.(requests := s'.requests, stamps := if ok then s.stamps[r.key := version] else s.stamps,
                     replies := s.replies + [if ok then Provisioned else Failed]))
      && (0 < stamp < version && r.key in s.inFlight ==>
            s' == s.(requests := s'.requests, replies := s.replies + [AlreadyInFlight]))
      && (0 < stamp < version && r.key !in s.inFlight ==>
            s' == s.(requests := s'.requests, inFlight := s.inFlight + {r.key},
                     claims := s.claims + [Claim(r.key, r.row, stamp, Claimed)]))
  {
    assert s.requests[i] in s.requests;
  }

  /** Before that it reads the stamp of its box, as 0 if the marker cannot be read, and may be given
      up at any time; nothing else moves. */
  lemma RequestWaits(s: State, i: nat, ok: bool)
    requires Enabled(s, Drop(i))
    ensures Step(s, Drop(i)) == s.(requests := Without(s.requests, i))
    ensures Enabled(s, ReadStamp(i, ok)) <==> s.requests[i].stamp.None?
    ensures Enabled(s, ReadStamp(i, ok)) ==>
      var r, key := s.requests[i], s.requests[i].key;
      var stamp := if ok && key in s.stamps then s.stamps[key] else 0;
      Step(s, ReadStamp(i, ok)) == s.(requests := s.requests[i := Request(key, r.row, Some(stamp))])
  {
  }

  /** And how a migration that holds the guard goes on: without a working directory or without
      claude it gives the box free again at once; otherwise claude runs in the background. */
  lemma LaunchAnswers(s: State, j: nat, cwdOk: bool, found: bool)
    requires Enabled(s, Launch(j, cwdOk, found)) && Inv(s)
    ensures var key, s' := s.claims[j].key, Step(s, Launch(j, cwdOk, found));
      && s' == s.(inFlight := s'.inFlight, claims := s'.claims, replies := s'.replies)
      && s'.replies == s.replies + [if !cwdOk then Failed else if !found then Unavailable else Migrating]
      && (cwdOk && found ==> s'.inFlight == s.inFlight && s'.claims == s.claims[j := s.claims[j].(phase := Running)])
      && (!cwdOk || !found ==> s'.inFlight == s.inFlight - {key} && s'.claims == Without(s.claims, j))
  {
    assert s.claims[j] in s.claims;
  }

  lemma WithoutLast<T>(q: seq<T>, x: T)
    ensures Without(q + [x], |q|) == q
  {
  }

  /** A request on its own, all of whose steps succeed. */
  function Served(s: State, key: Key): (acts: seq<Action>)
    requires key.app in s.store
  {
    var n, m := |s.requests|, |s.claims|;
    var read := [Ask(key), ReadStamp(n, true), Act(n, true)];
    if 0 < StampOf(s, key) < s.store[key.app].version then read + [Launch(m, true, true), Finish(m, true), Release(m)]
    else read
  }

  lemma StampOfNew(s: State, key: Key)
    requires key.app in s.store
    ensures var n := |s.requests|; var s1 := Step(s, Ask(key));
      && Enabled(s1, ReadStamp(n, true))
      && Step(s1, ReadStamp(n, true)) ==
         s.(requests := s.requests + [Request(key, s.store[key.app], Some(StampOf(s, key)))])
  {
  }

  lemma RequestRead(s: State, key: Key) returns (s': State)
    requires Inv(s) && key.app in s.store
    ensures var n := |s.requests|; var acts := [Ask(key), ReadStamp(n, true)];
            CanRun(s, acts) && Run(s, acts) == s' && Inv(s')
    ensures s' == s.(requests := s.requests + [Request(key, s.store[key.app], Some(StampOf(s, key)))])
  {
    var n := |s.requests|;
    var s1 := Step(s, Ask(key));
    s' := Step(s1, ReadStamp(n, true));
    StampOfNew(s, key);
    TwoSteps(s, Ask(key), ReadStamp(n, true));
    StepKeepsInv(s, Ask(key));
    StepKeepsInv(s1, ReadStamp(n, true));
  }

  lemma TwoSteps(s: State, a: Action, b: Action)
    requires Enabled(s, a) && Enabled(Step(s, a), b)
    ensures CanRun(s, [a, b]) && Run(s, [a, b]) == Step(Step(s, a), b)
  {
    assert [a, b][1..] == [b] && [b][1..] == [];
    assert Run(Step(s, a), [b]) == Run(Step(Step(s, a), b), []);
  }

  lemma ClaimCarriedOut(s: State, row: Row, key: Key, read: int) returns (s': State)
    requires Inv(s) && s.claims != [] && s.claims[|s.claims| - 1] == Claim(key, row, read, Claimed)
    ensures var m := |s.claims| - 1; var acts := [Launch(m, true, true), Finish(m, true), Release(m)];
            CanRun(s, acts) && Run(s, acts) == s'
    ensures s' == s.(claims := s.claims[..|s.claims| - 1], inFlight := s.inFlight - {key},
                     stamps := s.stamps[key := row.version], replies := s.replies + [Migrating])
  {
    var m := |s.claims| - 1;
    var s1 := ClaimLaunched(s, m);
    var s2 := Step(s1, Finish(m, true));
    s' := Step(s2, Release(m));
    ThreeSteps(s, Launch(m, true, true), Finish(m, true), Release(m));
    assert s2.claims == s.claims[..m] + [s2.claims[m]];
    WithoutLast(s.claims[..m], s2.claims[m]);
  }

  lemma ClaimLaunched(s: State, m: nat) returns (s': State)
    requires Inv(s) && Enabled(s, Launch(m, true, true))
    ensures s' == Step(s, Launch(m, true, true))
    ensures s' == s.(claims := s.claims[m := s.claims[m].(phase := Running)], replies := s.replies + [Migrating])
  {
    s' := Step(s, Launch(m, true, true));
    LaunchAnswers(s, m, true, true);
  }

  lemma ThreeSteps(s: State, a: Action, b: Action, c: Action)
    requires Enabled(s, a) && Enabled(Step(s, a), b) && Enabled(Step(Step(s, a), b), c)
    ensures CanRun(s, [a, b, c]) && Run(s, [a, b, c]) == Step(Step(Step(s, a), b), c)
  {
    assert [a, b, c][1..] == [b, c];
    TwoSteps(Step(s, a), b, c);
  }

  // What the request does once it has read the stamp.
  function AfterAct(s: State, key: Key): State
    requires key.app in s.store
  {
    var row, before := s.store[key.app], StampOf(s, key);
    if before >= row.version then s.(replies := s.replies + [Current])
    else if before <= 0 then s.(stamps := s.stamps[key := row.version], replies := s.replies + [Provisioned])
    else s.(inFlight := s.inFlight + {key}, claims := s.claims + [Claim(key, row, before, Claimed)])
  }

  lemma ActOnRead(s: State, s1: State, key: Key)
    requires Inv(s1) && key.app in s.store && key !in s.inFlight && s.store[key.app].version >= 1
    requires s1 == s.(requests := s.requests + [Request(key, s.store[key.app], Some(StampOf(s, key)))])
    ensures Step(s1, Act(|s.requests|, true)) == AfterAct(s, key)
  {
    var n := |s.requests|;
    WithoutLast(s.requests, s1.requests[n]);
    ActAnswers(s1, n, true);
  }

  lemma RunOne(s: State, acts: seq<Action>, a: Action)
    requires CanRun(s, acts) && Enabled(Run(s, acts), a)
    ensures CanRun(s, acts + [a]) && Run(s, acts + [a]) == Step(Run(s, acts), a)
  {
    assert Run(Run(s, acts), [a]) == Run(Step(Run(s, acts), a), [a][1..]);
    RunConcat(s, acts, [a]);
  }

  lemma RequestActed(s: State, key: Key)
    requires Inv(s) && key.app in s.store && key !in s.inFlight && s.store[key.app].version >= 1
    ensures var n := |s.requests|; var acts := [Ask(key), ReadStamp(n, true), Act(n, true)];
            CanRun(s, acts) && Run(s, acts) == AfterAct(s, key) && Inv(AfterAct(s, key))
  {
    var n := |s.requests|;
    var read := [Ask(key), ReadStamp(n, true)];
    var s1 := RequestRead(s, key);
    ReadCanAct(s1, n);
    RunOne(s, read, Act(n, true));
    ActOnRead(s, s1, key);
    StepKeepsInv(s1, Act(n, true));
    assert [Ask(key), ReadStamp(n, true), Act(n, true)] == read + [Act(n, true)];
  }

  lemma ReadCanAct(s: State, i: nat)
    requires i < |s.requests| && s.requests[i].stamp.Some?
    ensures Enabled(s, Act(i, true))
  {
  }

  lemma StampRange(s: State, key: Key)
    requires Reachable(s)
    ensures Inv(s) && (key in s.stamps <==> StampOf(s, key) > 0) && (key !in s.stamps ==> StampOf(s, key) == 0)
    ensures key.app in s.store ==> s.store[key.app].version >= 1
  {
    var acts :| CanRun(INIT, acts) && Run(INIT, acts) == s;
    RunKeepsInv(INIT, acts);
    if key in s.stamps { assert (key.app, s.stamps[key]) in s.ever; }
    if key.app in s.store { assert GoodRow(s.store[key.app]); }
  }

  lemma ServedRun(s: State, key: Key) returns (s': State)
    requires Inv(s) && key.app in s.store && key !in s.inFlight && s.store[key.app].version >= 1
    requires key in s.stamps <==> StampOf(s, key) > 0
    ensures CanRun(s, Served(s, key)) && Run(s, Served(s, key)) == s'
    ensures var before, version := StampOf(s, key), s.store[key.app].version;
      s' == s.(stamps := if before < version then s.stamps[key := version] else s.stamps,
               replies := s.replies + [if before >= version then Current
                                       else if key in s.stamps then Migrating else Provisioned])
  {
    var n, m, row, before := |s.requests|, |s.claims|, s.store[key.app], StampOf(s, key);
    RequestActed(s, key);
    s' := AfterAct(s, key);
    if 0 < before < row.version {
      s' := ClaimCarriedOut(AfterAct(s, key), row, key, before);
      RunConcat(s, [Ask(key), ReadStamp(n, true), Act(n, true)], [Launch(m, true, true), Finish(m, true), Release(m)]);
      ClaimGone(s, key, Claim(key, row, before, Claimed));
    }
  }

  lemma ClaimGone(s: State, key: Key, c: Claim)
    requires key !in s.inFlight
    ensures (s.claims + [c])[..|s.claims + [c]| - 1] == s.claims
    ensures s.inFlight + {key} - {key} == s.inFlight
  {
  }

  /** From every reachable state, a request for a box that no migration holds, undisturbed and with
      working steps, leaves the box at the stored version, or at its own if that is newer. It is
      answered "current" exactly if there was nothing to do, and changes nothing else. */
  lemma RequestBringsUpToDate(s: State, key: Key)
    requires Reachable(s) && key.app in s.store && key !in s.inFlight
    ensures CanRun(s, Served(s, key))
    ensures var s', before, version := Run(s, Served(s, key)), StampOf(s, key), s.store[key.app].version;
      && StampOf(s', key) == (if before < version then version else before)
      && (forall k :: k != key ==> StampOf(s', k) == StampOf(s, k))
      && s'.replies == s.replies + [if before >= version then Current
                                    else if key in s.stamps then Migrating else Provisioned]
      && s' == s.(stamps := s'.stamps, replies := s'.replies)
  {
    StampRange(s, key);
    var s' := ServedRun(s, key);
  }

  /** A migration that fails leaves the stamp, and once it lets go the next request migrates again. */
  lemma FailedMigrationRetries(s: State, j: nat)
    requires Reachable(s) && Enabled(s, Finish(j, false)) && s.claims[j].key.app in s.store
    ensures var key, s1 := s.claims[j].key, Step(s, Finish(j, false));
      && Enabled(s1, Release(j))
      && var s2 := Step(s1, Release(j));
         && StampOf(s2, key) == StampOf(s, key) && Reachable(s2) && key !in s2.inFlight
         && CanRun(s2, Served(s2, key))
         && StampOf(Run(s2, Served(s2, key)), key) >= s.store[key.app].version
  {
    var key := s.claims[j].key;
    var s1 := Then(s, Finish(j, false));
    var s2 := Then(s1, Release(j));
    RequestBringsUpToDate(s2, key);
  }

  // ---------- when the stamp only grows ----------

  /** A request that found no stamp, or a migration that succeeded, writes the stamp of its box. */
  predicate Writes(s: State, a: Action, key: Key)
    requires Enabled(s, a)
  {
    match a
    case Act(i, ok) => ok && s.requests[i].key == key && s.requests[i].stamp.value <= 0
    case Finish(j, ok) => ok && s.claims[j].key == key
    case _ => false
  }

  function VersionCarried(s: State, a: Action): int
    requires Enabled(s, a)
  {
    match a
    case Act(i, _) => s.requests[i].row.version
    case Finish(j, _) => s.claims[j].row.version
    case _ => 0
  }

  // The stamp that the writing request was decided on.
  function StampRead(s: State, a: Action): int
    requires Enabled(s, a)
  {
    match a
    case Act(i, _) => s.requests[i].stamp.value
    case Finish(j, _) => s.claims[j].read
    case _ => 0
  }

  /** Nothing else changes a stamp, a failed migration included; what is written is the version
      the request was built with. */
  lemma StampAfter(s: State, a: Action, key: Key)
    requires Enabled(s, a) && Inv(s)
    ensures StampOf(Step(s, a), key) == if Writes(s, a, key) then VersionCarried(s, a) else StampOf(s, key)
  {
    if a.Act? {
      assert s.requests[a.i] in s.requests;
    }
  }

  /** Every write goes beyond the stamp that was read for it. So a step lowers a stamp exactly
      when it writes after the stamp it read has been overtaken by a version above its own. */
  lemma StampLowersIff(s: State, a: Action, key: Key)
    requires Enabled(s, a) && Inv(s)
    ensures Writes(s, a, key) ==> StampRead(s, a) < VersionCarried(s, a)
    ensures StampOf(Step(s, a), key) < StampOf(s, key) <==>
            Writes(s, a, key) && StampRead(s, a) != StampOf(s, key) && VersionCarried(s, a) < StampOf(s, key)
  {
    StampAfter(s, a, key);
    match a
    case Act(i, _) => assert s.requests[i] in s.requests && GoodRow(s.requests[i].row);
    case Finish(j, _) => assert s.claims[j] in s.claims;
    case _ =>
  }

  /** The request acts on the stamp that is in the box at that moment. */
  ghost predicate FreshRead(s: State, a: Action)
    requires Enabled(s, a)
  {
    a.Act? ==> s.requests[a.i].stamp == Some(StampOf(s, s.requests[a.i].key))
  }

  ghost predicate FreshReads(s: State, acts: seq<Action>)
    requires CanRun(s, acts)
    decreases |acts|
  {
    acts == [] || (FreshRead(s, acts[0]) && FreshReads(Step(s, acts[0]), acts[1..]))
  }

  // A migration under way goes beyond the stamp of its box.
  ghost predicate Ahead(s: State) {
    forall c <- s.claims :: StampOf(s, c.key) >= 1 && (c.phase != Finished ==> StampOf(s, c.key) < c.row.version)
  }

  // One of these claims, perhaps in a later phase, but a finished one as it was.
  ghost predicate Advanced(claims: seq<Claim>, d: Claim) {
    exists c :: c in claims && d == c.(phase := d.phase) && (c.phase == Finished ==> d == c)
  }

  // What becomes of the claims in a step that writes no stamp.
  lemma SameStampsAhead(s: State, s': State)
    requires Ahead(s) && s'.stamps == s.stamps
    requires forall d <- s'.claims :: Advanced(s.claims, d)
    ensures Ahead(s')
  {
    forall d | d in s'.claims
      ensures StampOf(s', d.key) >= 1 && (d.phase != Finished ==> StampOf(s', d.key) < d.row.version)
    {
      var c :| c in s.claims && d == c.(phase := d.phase) && (c.phase == Finished ==> d == c);
    }
  }

  lemma LaunchKeepsAhead(s: State, j: nat, cwdOk: bool, found: bool)
    requires Enabled(s, Launch(j, cwdOk, found)) && Ahead(s)
    ensures Ahead(Launched(s, j, cwdOk, found)) && Launched(s, j, cwdOk, found).stamps == s.stamps
  {
    var s' := Launched(s, j, cwdOk, found);
    WithoutMembers(s.claims, j);
    forall d | d in s'.claims
      ensures Advanced(s.claims, d)
    {
      if d in s.claims {
        assert d == d.(phase := d.phase);
      } else {
        assert s.claims[j] in s.claims && d == s.claims[j].(phase := d.phase);
      }
    }
    SameStampsAhead(s, s');
  }

  lemma AheadKept(s: State, a: Action)
    requires Enabled(s, a) && Inv(s) && Ahead(s) && FreshRead(s, a)
    ensures Ahead(Step(s, a))
    ensures forall key :: StampOf(Step(s, a), key) >= StampOf(s, key)
  {
    match a
    case Act(i, ok) =>
      assert s.requests[i] in s.requests;
      ActKeepsAhead(s, i, ok);
    case Launch(j, cwdOk, found) => LaunchKeepsAhead(s, j, cwdOk, found);
    case Finish(j, ok) => FinishKeepsAhead(s, j, ok);
    case Release(j) => WithoutMembers(s.claims, j);
    case _ =>
  }

  lemma ActKeepsAhead(s: State, i: nat, ok: bool)
    requires Enabled(s, Act(i, ok)) && Inv(s) && Ahead(s) && FreshRead(s, Act(i, ok)) && s.requests[i] in s.requests
    ensures Ahead(Acted(s, i, ok))
    ensures forall key :: StampOf(Acted(s, i, ok), key) >= StampOf(s, key)
  {
    var r, s' := s.requests[i], Acted(s, i, ok);
    assert GoodRow(r.row);
    forall c | c in s'.claims
      ensures StampOf(s', c.key) >= 1 && (c.phase != Finished ==> StampOf(s', c.key) < c.row.version)
    {
      if c in s.claims {
        assert c.key == r.key ==> r.stamp.value >= 1;
      }
    }
  }

  lemma FinishKeepsAhead(s: State, j: nat, ok: bool)
    requires Enabled(s, Finish(j, ok)) && Inv(s) && Ahead(s)
    ensures Ahead(Ended(s, j, ok))
    ensures forall key :: StampOf(Ended(s, j, ok), key) >= StampOf(s, key)
  {
    var c, s' := s.claims[j], Ended(s, j, ok);
    assert c in s.claims && GoodRow(c.row);
    forall k | 0 <= k < |s'.claims|
      ensures var d := s'.claims[k];
        StampOf(s', d.key) >= 1 && (d.phase != Finished ==> StampOf(s', d.key) < d.row.version)
    {
      assert s.claims[k] in s.claims;
      if k != j {
        assert s.claims[k].key != c.key;
      }
    }
  }

  /** As long as every request acts on the current stamp, no stamp ever decreases; migrations may
      still overlap with anything. */
  lemma {:induction false} FreshReadsNeverLower(s: State, acts: seq<Action>)
    requires CanRun(s, acts) && Inv(s) && Ahead(s) && FreshReads(s, acts)
    ensures forall key :: StampOf(Run(s, acts), key) >= StampOf(s, key)
    ensures Ahead(Run(s, acts))
    decreases |acts|
  {
    if acts != [] {
      StepKeepsInv(s, acts[0]);
      AheadKept(s, acts[0]);
      FreshReadsNeverLower(Step(s, acts[0]), acts[1..]);
    }
  }

  lemma {:induction false} RunConcat(s: State, a: seq<Action>, b: seq<Action>)
    requires CanRun(s, a) && CanRun(Run(s, a), b)
    ensures CanRun(s, a + b) && Run(s, a + b) == Run(Run(s, a), b)
    decreases |a|
  {
    if a == [] {
      assert a + b == b;
    } else {
      assert (a + b)[0] == a[0] && (a + b)[1..] == a[1..] + b;
      RunConcat(Step(s, a[0]), a[1..], b);
    }
  }

  /** Between any two moments of a run with fresh reads, stamps only grow. */
  lemma StampsOnlyGrow(early: seq<Action>, late: seq<Action>, key: Key)
    requires CanRun(INIT, early) && CanRun(Run(INIT, early), late)
    requires FreshReads(INIT, early) && FreshReads(Run(INIT, early), late)
    ensures StampOf(Run(Run(INIT, early), late), key) >= StampOf(Run(INIT, early), key)
  {
    RunKeepsInv(INIT, early);
    FreshReadsNeverLower(INIT, early);
    FreshReadsNeverLower(Run(INIT, early), late);
  }

  // ---------- when versions only grow ----------

  /** The row being replaced is still the one that was loaded. */
  ghost predicate FreshSave(s: State, a: Action)
    requires Enabled(s, a)
  {
    a.Save? ==> s.setters[a.i].loaded == Lookup(s.store, s.setters[a.i].app)
  }

  ghost predicate FreshSaves(s: State, acts: seq<Action>)
    requires CanRun(s, acts)
    decreases |acts|
  {
    acts == [] || (FreshSave(s, acts[0]) && FreshSaves(Step(s, acts[0]), acts[1..]))
  }

  // No version ever stored is above the current one.
  ghost predicate Newest(s: State) {
    forall p <- s.ever :: p.0 in s.store && p.1 <= s.store[p.0].version
  }

  function VersionOf(s: State, app: string): int { if app in s.store then s.store[app].version else 0 }

  /** The version a call with this loaded row stores. */
  function NextVersion(c: Setter): int {
    if c.loaded.None? then 1 else c.loaded.value.version + if c.publish then 1 else 0
  }

  /** A save lowers the stored version exactly when it is not refused for lack of instructions and
      the loaded version, with one more for a publish, is below the one now stored. On a row that
      is still the loaded one a publish adds exactly one, and nothing is lowered. */
  lemma SaveLowersIff(s: State, i: nat, ok: bool)
    requires Enabled(s, Save(i, ok)) && Inv(s)
    ensures var c := s.setters[i];
      && (VersionOf(Saved(s, i, ok), c.app) < VersionOf(s, c.app) <==>
            && ok && (c.publish ==> c.instructions.Some? && !Blank(c.instructions.value))
            && NextVersion(c) < VersionOf(s, c.app))
      && (forall app :: app != c.app ==> VersionOf(Saved(s, i, ok), app) == VersionOf(s, app))
    ensures var c := s.setters[i];
      FreshSave(s, Save(i, ok)) && ok && (c.publish ==> c.instructions.Some? && !Blank(c.instructions.value)) ==>
        VersionOf(Saved(s, i, ok), c.app) == VersionOf(s, c.app) + if c.publish || c.app !in s.store then 1 else 0
  {
    var c := s.setters[i];
    PublishNeedsInstructions(c.loaded, c.publish, c.instructions);
  }

  lemma SaveKeepsNewest(s: State, i: nat, ok: bool)
    requires Enabled(s, Save(i, ok)) && Inv(s) && Newest(s) && FreshSave(s, Save(i, ok))
    ensures Newest(Saved(s, i, ok)) && forall app :: VersionOf(Saved(s, i, ok), app) >= VersionOf(s, app)
  {
    assert s.setters[i] in s.setters;
    SaveLowersIff(s, i, ok);
  }

  lemma NewestKept(s: State, a: Action)
    requires Enabled(s, a) && Inv(s) && Newest(s) && FreshSave(s, a)
    ensures Newest(Step(s, a))
    ensures forall app :: VersionOf(Step(s, a), app) >= VersionOf(s, app)
  {
    match a
    case Save(i, ok) => SaveKeepsNewest(s, i, ok);
    case Seed(app) => assert app !in s.store;
    case _ => assert Step(s, a).store == s.store && Step(s, a).ever == s.ever;
  }

  lemma {:induction false} FreshSavesNeverLower(s: State, acts: seq<Action>)
    requires CanRun(s, acts) && Inv(s) && Newest(s) && FreshSaves(s, acts)
    ensures forall app :: VersionOf(Run(s, acts), app) >= VersionOf(s, app)
    ensures Newest(Run(s, acts))
    decreases |acts|
  {
    if acts != [] {
      StepKeepsInv(s, acts[0]);
      NewestKept(s, acts[0]);
      FreshSavesNeverLower(Step(s, acts[0]), acts[1..]);
    }
  }

  /** As long as no set-template overlaps another for the same row, versions only grow, and no
      stamp is ahead of the version of its application. */
  lemma StampsBelowVersions(early: seq<Action>, late: seq<Action>)
    requires CanRun(INIT, early) && CanRun(Run(INIT, early), late)
    requires FreshSaves(INIT, early) && FreshSaves(Run(INIT, early), late)
    ensures forall app :: VersionOf(Run(Run(INIT, early), late), app) >= VersionOf(Run(INIT, early), app)
    ensures var s := Run(INIT, early); forall key :: StampOf(s, key) <= VersionOf(s, key.app)
  {
    RunKeepsInv(INIT, early);
    FreshSavesNeverLower(INIT, early);
    FreshSavesNeverLower(Run(INIT, early), late);
    var s := Run(INIT, early);
    forall key ensures StampOf(s, key) <= VersionOf(s, key.app) {
      if key in s.stamps {
        assert (key.app, s.stamps[key]) in s.ever;
      } else if key.app in s.store {
        assert GoodRow(s.store[key.app]);
      }
    }
  }

  // ---------- what overlapping requests can do ----------

  ghost predicate Reachable(s: State) {
    exists acts :: CanRun(INIT, acts) && Run(INIT, acts) == s
  }

  lemma Then(s: State, a: Action) returns (s': State)
    requires Reachable(s) && Enabled(s, a)
    ensures s' == Step(s, a) && Reachable(s')
  {
    s' := Step(s, a);
    var acts :| CanRun(INIT, acts) && Run(INIT, acts) == s;
    assert Run(s, [a]) == Run(s', [a][1..]);
    RunConcat(INIT, acts, [a]);
  }

  lemma TrimLiteral()
    ensures Trim("move") == "move"
  {
  }

  // Both requests below are for this box.
  const BOX := Key("u", "app")

  lemma FirstVersionAsked() returns (s: State)
    ensures Reachable(s) && s.store == map["app" := Row(1, None)] && s.setters == [] && s.claims == []
    ensures s.requests == [Request(BOX, Row(1, None), Some(0))] && s.stamps == map[] && s.inFlight == {}
  {
    assert Run(INIT, []) == INIT;
    s := Then(INIT, Seed("app"));
    s := Then(s, Ask(BOX));
    s := Then(s, ReadStamp(0, true));
  }

  lemma SecondVersionPublished() returns (s: State)
    ensures Reachable(s) && s.store == map["app" := Row(2, Some("move"))] && s.claims == [] && s.inFlight == {}
    ensures s.requests == [Request(BOX, Row(1, None), Some(0))] && s.stamps == map[]
  {
    TrimLiteral();
    s := FirstVersionAsked();
    s := Then(s, Load("app", true, Some("move")));
    s := Then(s, Save(0, true));
  }

  lemma SecondVersionProvisioned() returns (s: State)
    ensures Reachable(s) && s.requests == [Request(BOX, Row(1, None), Some(0))] && s.stamps == map[BOX := 2]
  {
    s := SecondVersionPublished();
    s := Then(s, Ask(BOX));
    s := Then(s, ReadStamp(1, true));
    assert s.requests[1] == Request(BOX, Row(2, Some("move")), Some(0));
    s := Then(s, Act(1, true));
  }

  /** Two requests that both read a missing stamp: the one built from the older row writes last. */
  lemma StaleProvisionLowersStamp() returns (s: State, a: Action)
    ensures Reachable(s) && Enabled(s, a) && a.Act? && !FreshRead(s, a)
    ensures StampOf(s, BOX) == 2 && StampOf(Step(s, a), BOX) == 1
  {
    s := SecondVersionProvisioned();
    a := Act(0, true);
  }

  lemma FirstVersionProvisioned() returns (s: State)
    ensures Reachable(s) && s.store == map["app" := Row(1, None)] && s.setters == [] && s.claims == []
    ensures s.requests == [] && s.stamps == map[BOX := 1] && s.inFlight == {}
  {
    s := FirstVersionAsked();
    s := Then(s, Act(0, true));
  }

  lemma SecondVersionStored() returns (s: State)
    ensures Reachable(s) && s.store == map["app" := Row(2, Some("move"))] && s.setters == [] && s.claims == []
    ensures s.requests == [] && s.stamps == map[BOX := 1] && s.inFlight == {}
  {
    TrimLiteral();
    s := FirstVersionProvisioned();
    s := Then(s, Load("app", true, Some("move")));
    s := Then(s, Save(0, true));
  }

  // The box has stamp 1; one request was built from version 2 and has read it.
  lemma SecondVersionRead() returns (s: State)
    ensures Reachable(s) && s.store == map["app" := Row(2, Some("move"))] && s.setters == []
    ensures s.requests == [Request(BOX, Row(2, Some("move")), Some(1))]
    ensures s.stamps == map[BOX := 1] && s.inFlight == {} && s.claims == []
  {
    s := SecondVersionStored();
    s := Then(s, Ask(BOX));
    s := Then(s, ReadStamp(0, true));
  }

  // Version 3 is published, and a second request reads the same stamp.
  lemma ThirdVersionRead() returns (s: State)
    ensures Reachable(s) && s.stamps == map[BOX := 1] && s.inFlight == {} && s.claims == []
    ensures s.requests == [Request(BOX, Row(2, Some("move")), Some(1)), Request(BOX, Row(3, Some("move")), Some(1))]
  {
    s := ThirdVersionPublished();
    s := Then(s, Ask(BOX));
    s := Then(s, ReadStamp(1, true));
  }

  lemma ThirdVersionPublished() returns (s: State)
    ensures Reachable(s) && s.store == map["app" := Row(3, Some("move"))] && s.stamps == map[BOX := 1]
    ensures s.requests == [Request(BOX, Row(2, Some("move")), Some(1))] && s.inFlight == {} && s.claims == []
  {
    TrimLiteral();
    s := SecondVersionRead();
    s := Then(s, Load("app", true, Some("move")));
    s := Then(s, Save(0, true));
  }

  // The second request takes the guard and claude migrates the box.
  lemma ThirdVersionRunning() returns (s: State)
    ensures Reachable(s) && s.stamps == map[BOX := 1] && s.inFlight == {BOX}
    ensures s.claims == [Claim(BOX, Row(3, Some("move")), 1, Running)]
    ensures s.requests == [Request(BOX, Row(2, Some("move")), Some(1))]
  {
    s := ThirdVersionRead();
    s := Then(s, Act(1, true));
    assert s.claims == [Claim(BOX, Row(3, Some("move")), 1, Claimed)];
    s := Then(s, Launch(0, true, true));
  }

  lemma ThirdVersionMigrated() returns (s: State)
    ensures Reachable(s) && s.stamps == map[BOX := 3] && s.inFlight == {} && s.claims == []
    ensures s.requests == [Request(BOX, Row(2, Some("move")), Some(1))]
  {
    s := ThirdVersionRunning();
    s := Then(s, Finish(0, true));
    s := Then(s, Release(0));
  }

  /** A request that read stamp 1 before another migrated the box to version 3 finds the guard
      free, migrates to its own version 2, and writes it. */
  lemma StaleMigrationLowersStamp() returns (s: State, a: Action)
    ensures Reachable(s) && Enabled(s, a) && a.Finish? && a.j < |s.claims| && s.claims[a.j].key == BOX
    ensures s.inFlight == {BOX} && StampOf(s, BOX) == 3 && StampOf(Step(s, a), BOX) == 2
  {
    s := ThirdVersionMigrated();
    s := Then(s, Act(0, true));
    assert s.claims == [Claim(BOX, Row(2, Some("move")), 1, Claimed)];
    s := Then(s, Launch(0, true, true));
    a := Finish(0, true);
  }

  /** An edit that loaded the row before another call published puts the old version back. */
  lemma StaleSaveLowersVersion() returns (s: State, a: Action)
    ensures Reachable(s) && Enabled(s, a) && !FreshSave(s, a)
    ensures VersionOf(s, "app") == 2 && VersionOf(Step(s, a), "app") == 1
  {
    TrimLiteral();
    assert Run(INIT, []) == INIT;
    s := Then(INIT, Seed("app"));
    s := Then(s, Load("app", false, None));
    s := Then(s, Load("app", true, Some("move")));
    assert s.setters[1] == Setter("app", Some(Row(1, None)), true, Some("move"));
    s := Then(s, Save(1, true));
    a := Save(0, true);
  }
}
