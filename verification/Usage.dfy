/** Self-counted usage: aggregates over answered and confirmed rows, and what they conserve. */
module Usage {
  import opened Wrappers
  import opened ChatTable
  import opened ChatMachine
  import opened ChatProperties
  import C = Calendar
  import D = Decimal

  // The columns the queries aggregate; Requests is COUNT(*).
  datatype Column = Requests | CharsIn | CharsOut | Files | FileBytes

  function Value(r: Row, col: Column): int {
    match col
    case Requests => 1
    case CharsIn => r.charsIn
    case CharsOut => r.charsOut
    case Files => r.files
    case FileBytes => r.fileBytes
  }

  // A WHERE clause looks at the columns that no UPDATE writes: user_id and time_in.
  type Filter = (Option<string>, string) -> bool

  predicate Counted(t: Table, k: nat, p: Filter) {
    k in t.rows && IsDone(t.rows[k].status) && p(t.rows[k].user, t.rows[k].timeIn)
  }

  /** What row `k` contributes. */
  function Share(t: Table, k: nat, p: Filter, col: Column): int {
    if Counted(t, k, p) then Value(t.rows[k], col) else 0
  }

  /** SUM over rows with key below `n`, status answered or confirmed, and `p`. */
  function SumBelow(t: Table, n: nat, p: Filter, col: Column): int {
    if n == 0 then 0 else SumBelow(t, n - 1, p, col) + Share(t, n - 1, p, col)
  }

  function Sum(t: Table, p: Filter, col: Column): int { SumBelow(t, t.next, p, col) }

  // ---------- grouping loses and repeats nothing ----------

  type Key<!K> = (Option<string>, string) -> K

  function Restrict<K(==)>(p: Filter, key: Key<K>, v: K): Filter {
    (u, time) => p(u, time) && key(u, time) == v
  }

  function Among<K(==)>(p: Filter, key: Key<K>, keys: seq<K>): Filter {
    (u, time) => p(u, time) && key(u, time) in keys
  }

  /** The aggregates of the groups with the given keys, added up. */
  function GroupTotal<K(==)>(t: Table, p: Filter, key: Key<K>, keys: seq<K>, col: Column): int {
    if keys == [] then 0
    else
      var m := |keys| - 1;
      GroupTotal(t, p, key, keys[..m], col) + Sum(t, Restrict(p, key, keys[m]), col)
  }

  predicate Distinct<K(==)>(s: seq<K>) {
    forall i, j :: 0 <= i < j < |s| ==> s[i] != s[j]
  }

  lemma {:induction false} SumDisjoint(t: Table, n: nat, whole: Filter, left: Filter, right: Filter, col: Column)
    requires forall k: nat :: k < n ==> Share(t, k, whole, col) == Share(t, k, left, col) + Share(t, k, right, col)
    ensures SumBelow(t, n, whole, col) == SumBelow(t, n, left, col) + SumBelow(t, n, right, col)
  {
    if n > 0 {
      SumDisjoint(t, n - 1, whole, left, right, col);
    }
  }

  lemma {:induction false} SumSame(t: Table, n: nat, p: Filter, q: Filter, col: Column)
    requires forall k: nat :: k < n ==> Share(t, k, p, col) == Share(t, k, q, col)
    ensures SumBelow(t, n, p, col) == SumBelow(t, n, q, col)
  {
    if n > 0 {
      SumSame(t, n - 1, p, q, col);
    }
  }

  lemma {:induction false} GroupsOfSome<K>(t: Table, p: Filter, key: Key<K>, keys: seq<K>, col: Column)
    requires Distinct(keys)
    ensures GroupTotal(t, p, key, keys, col) == Sum(t, Among(p, key, keys), col)
  {
    if keys == [] {
      NothingCounted(t, t.next, Among(p, key, keys), col);
    } else {
      var m := |keys| - 1;
      GroupsOfSome(t, p, key, keys[..m], col);
      assert forall v: K :: v in keys <==> v in keys[..m] || v == keys[m];
      SumDisjoint(t, t.next, Among(p, key, keys), Among(p, key, keys[..m]), Restrict(p, key, keys[m]), col);
    }
  }

  lemma {:induction false} NothingCounted(t: Table, n: nat, p: Filter, col: Column)
    requires forall k: nat :: k < n ==> !Counted(t, k, p)
    ensures SumBelow(t, n, p, col) == 0
  {
    if n > 0 {
      NothingCounted(t, n - 1, p, col);
    }
  }

  /** GROUP BY: groups with distinct keys that cover every selected row add up to the whole. */
  lemma GroupsPartition<K>(t: Table, p: Filter, key: Key<K>, keys: seq<K>, col: Column)
    requires Distinct(keys)
    requires forall k <- t.rows :: Counted(t, k, p) ==> key(t.rows[k].user, t.rows[k].timeIn) in keys
    ensures GroupTotal(t, p, key, keys, col) == Sum(t, p, col)
  {
    GroupsOfSome(t, p, key, keys, col);
    SumSame(t, t.next, Among(p, key, keys), p, col);
  }

  // ---------- the replies ----------

  const ATTRIBUTED: Filter := (u: Option<string>, time: string) => u.Some?

  function OfUser(user: string): Filter {
    (u, time) => u == Some(user)
  }

  function Day(timeIn: string): string {
    if |timeIn| <= 10 then timeIn else timeIn[..10]
  }

  /** `a >= b` as SQL compares text. */
  predicate AtLeast(a: string, b: string) {
    b == "" || (a != "" && (a[0] > b[0] || (a[0] == b[0] && AtLeast(a[1..], b[1..]))))
  }

  function Since(p: Filter, cutoff: string): Filter {
    (u, time) => p(u, time) && AtLeast(time, cutoff)
  }

  datatype UserUsage = UserUsage(userId: string, requests: int, charsIn: int, charsOut: int, files: int, fileBytes: int)

  function Field(r: UserUsage, col: Column): int {
    match col
    case Requests => r.requests
    case CharsIn => r.charsIn
    case CharsOut => r.charsOut
    case Files => r.files
    case FileBytes => r.fileBytes
  }

  function AddUp(rows: seq<UserUsage>, col: Column): int {
    if rows == [] then 0 else AddUp(rows[..|rows| - 1], col) + Field(rows[|rows| - 1], col)
  }

  /** Answered rows count for their own user, and for the totals if they have one. */
  lemma CountedFor(t: Table, k: nat, user: string)
    requires k in t.rows
    ensures Counted(t, k, OfUser(user)) <==>
            (t.rows[k].status == Answered || t.rows[k].status == Confirmed) && t.rows[k].user == Some(user)
    ensures Counted(t, k, ATTRIBUTED) <==>
            (t.rows[k].status == Answered || t.rows[k].status == Confirmed) && t.rows[k].user != None
  {
  }

  /** What `usage_by_user` may return: one row for each user with answered questions, in any order. */
  ghost predicate IsUsageByUser(t: Table, rows: seq<UserUsage>) {
    && (forall i, j :: 0 <= i < j < |rows| ==> rows[i].userId != rows[j].userId)
    && (forall i, col :: 0 <= i < |rows| ==> Field(rows[i], col) == Sum(t, OfUser(rows[i].userId), col))
    && (forall k <- t.rows :: Counted(t, k, ATTRIBUTED) ==>
          exists i :: 0 <= i < |rows| && Some(rows[i].userId) == t.rows[k].user)
  }

  /** The /control "usage" reply: the rows as given and their running totals. */
  method ComposeUsageReply(rows: seq<UserUsage>)
    returns (users: seq<UserUsage>, treq: int, tin: int, tout: int, tf: int, tb: int)
    ensures users == rows
    ensures treq == AddUp(rows, Requests) && tin == AddUp(rows, CharsIn) && tout == AddUp(rows, CharsOut)
    ensures tf == AddUp(rows, Files) && tb == AddUp(rows, FileBytes)
  {
    users := [];
    treq, tin, tout, tf, tb := 0, 0, 0, 0, 0;
    for i := 0 to |rows|
      invariant users == rows[..i]
      invariant treq == AddUp(rows[..i], Requests) && tin == AddUp(rows[..i], CharsIn)
      invariant tout == AddUp(rows[..i], CharsOut) && tf == AddUp(rows[..i], Files) && tb == AddUp(rows[..i], FileBytes)
    {
      var r := rows[i];
      treq, tin, tout, tf, tb :=
        treq + r.requests, tin + r.charsIn, tout + r.charsOut, tf + r.files, tb + r.fileBytes;
      users := users + [r];
      assert rows[..i + 1][..i] == rows[..i];
    }
    assert rows[..|rows|] == rows;
  }

  function UserIds(rows: seq<UserUsage>): seq<Option<string>> {
    seq(|rows|, i requires 0 <= i < |rows| => Some(rows[i].userId))
  }

  /** Totals over users are the totals over all attributed rows. */
  lemma TotalsAreConserved(t: Table, rows: seq<UserUsage>, col: Column)
    requires IsUsageByUser(t, rows)
    ensures AddUp(rows, col) == Sum(t, ATTRIBUTED, col)
  {
    var key: Key<Option<string>> := (u, time) => u;
    var keys := UserIds(rows);
    forall k | k in t.rows && Counted(t, k, ATTRIBUTED) ensures t.rows[k].user in keys {
      var i :| 0 <= i < |rows| && Some(rows[i].userId) == t.rows[k].user;
      assert keys[i] in keys;
    }
    GroupsPartition(t, ATTRIBUTED, key, keys, col);
    RowsAreGroups(t, rows, key, col);
  }

  lemma {:induction false} RowsAreGroups(t: Table, rows: seq<UserUsage>, key: Key<Option<string>>, col: Column)
    requires forall u, time :: key(u, time) == u
    requires forall i :: 0 <= i < |rows| ==> Field(rows[i], col) == Sum(t, OfUser(rows[i].userId), col)
    ensures AddUp(rows, col) == GroupTotal(t, ATTRIBUTED, key, UserIds(rows), col)
  {
    if rows != [] {
      var m := |rows| - 1;
      RowsAreGroups(t, rows[..m], key, col);
      assert UserIds(rows)[..m] == UserIds(rows[..m]);
      SumSame(t, t.next, Restrict(ATTRIBUTED, key, UserIds(rows)[m]), OfUser(rows[m].userId), col);
    }
  }

  /** One user's daily buckets add up to the user's own totals when the cutoff precedes the
      user's answered rows. */
  lemma DailyBucketsAddUp(t: Table, user: string, cutoff: string, days: seq<string>, key: Key<string>, col: Column)
    requires Distinct(days) && forall u, time :: key(u, time) == Day(time)
    requires forall k <- t.rows :: Counted(t, k, OfUser(user)) ==> AtLeast(t.rows[k].timeIn, cutoff)
    requires forall k <- t.rows :: Counted(t, k, Since(OfUser(user), cutoff)) ==> Day(t.rows[k].timeIn) in days
    ensures GroupTotal(t, Since(OfUser(user), cutoff), key, days, col) == Sum(t, OfUser(user), col)
  {
    GroupsPartition(t, Since(OfUser(user), cutoff), key, days, col);
    SumSame(t, t.next, Since(OfUser(user), cutoff), OfUser(user), col);
  }

  // ---------- days and cutoffs on the texts of times ----------

  lemma {:induction false} AtLeastIsNotLess(a: string, b: string)
    ensures AtLeast(a, b) <==> !D.TextLess(a, b)
  {
    if a != "" && b != "" {
      AtLeastIsNotLess(a[1..], b[1..]);
    }
  }

  /** On the stamps that rows carry, comparing with a cutoff as text is comparing moments. */
  lemma CutoffIsChronological(t: C.Moment, cutoff: C.Moment)
    requires C.ValidMoment(t) && C.ValidMoment(cutoff) && t.date.y <= 9999 && cutoff.date.y <= 9999
    ensures AtLeast(C.IsoText(t), C.IsoText(cutoff)) <==> C.Instant(t) >= C.Instant(cutoff)
  {
    AtLeastIsNotLess(C.IsoText(t), C.IsoText(cutoff));
    C.IsoOrder(t, cutoff);
  }

  lemma DayCut(text: string)
    ensures Day(text) == text[..if |text| < 10 then |text| else 10]
  {
  }

  /** The first ten characters of a stamp are its date. */
  lemma DayLayout(t: C.Moment)
    requires C.ValidMoment(t) && t.date.y <= 9999
    ensures var day := Day(C.IsoText(t));
      && |day| == 10 && day[4] == day[7] == '-'
      && day[..4] == D.Digits(t.date.y, 4) && day[5..7] == D.Digits(t.date.m, 2) && day[8..10] == D.Digits(t.date.d, 2)
  {
    var text := C.IsoText(t);
    C.IsoLayout(t);
    FirstTen(text);
  }

  lemma FirstTen(text: string)
    requires |text| == 24
    ensures var day := Day(text);
      && |day| == 10 && day[4] == text[4] && day[7] == text[7]
      && day[..4] == text[..4] && day[5..7] == text[5..7] && day[8..10] == text[8..10]
  {
  }

  lemma SameTen(a: string, b: string)
    requires |a| == 10 && |b| == 10 && a[..4] == b[..4] && a[4] == b[4] && a[5..7] == b[5..7]
    requires a[7] == b[7] && a[8..10] == b[8..10]
    ensures a == b
  {
    assert a == a[..4] + [a[4]] + a[5..7] + [a[7]] + a[8..10];
    assert b == b[..4] + [b[4]] + b[5..7] + [b[7]] + b[8..10];
  }

  /** So two rows share a daily bucket exactly if they were asked on one day. */
  lemma BucketsAreDays(t: C.Moment, u: C.Moment)
    requires C.ValidMoment(t) && C.ValidMoment(u) && t.date.y <= 9999 && u.date.y <= 9999
    ensures Day(C.IsoText(t)) == Day(C.IsoText(u)) <==> t.date == u.date
  {
    var a, b := Day(C.IsoText(t)), Day(C.IsoText(u));
    DayLayout(t);
    DayLayout(u);
    if a == b {
      D.SameDigits(t.date.y, u.date.y, 4);
      D.SameDigits(t.date.m, u.date.m, 2);
      D.SameDigits(t.date.d, u.date.d, 2);
    }
    if t.date == u.date {
      SameTen(a, b);
    }
  }

  function FirstOf(keys: seq<nat>): (k: nat)
    ensures keys != [] ==> k in keys
  {
    if keys == [] then 0 else keys[0]
  }

  /** SUM counts what it should: over rows that `keys` lists once each. */
  lemma {:induction false} SumListed(t: Table, n: nat, p: Filter, col: Column, keys: seq<nat>)
    requires Distinct(keys) && forall k: nat :: k in keys <==> k < n && Counted(t, k, p)
    ensures col.Requests? ==> SumBelow(t, n, p, col) == |keys|
    decreases n
  {
    if n > 0 && col.Requests? {
      if Counted(t, n - 1, p) {
        var i :| 0 <= i < |keys| && keys[i] == n - 1;
        var rest := keys[..i] + keys[i + 1..];
        forall k: nat ensures k in rest <==> k < n - 1 && Counted(t, k, p) {
          assert k in keys <==> k in rest || k == n - 1;
        }
        SumListed(t, n - 1, p, col, rest);
      } else {
        SumListed(t, n - 1, p, col, keys);
      }
    } else if n == 0 {
      var k := FirstOf(keys);
    }
  }

  // ---------- what each step of the queue adds ----------

  // Tables that differ, over the keys below n, in row k only.
  lemma {:induction false} SumAfterUpdate(t: Table, t': Table, n: nat, k: nat, p: Filter, col: Column)
    requires forall i: nat :: i < n && i != k ==> Share(t', i, p, col) == Share(t, i, p, col)
    ensures SumBelow(t', n, p, col) ==
            SumBelow(t, n, p, col) + if k < n then Share(t', k, p, col) - Share(t, k, p, col) else 0
  {
    if n > 0 {
      SumAfterUpdate(t, t', n - 1, k, p, col);
    }
  }

  lemma {:induction false} SumBeyondKeys(t: Table, n: nat, p: Filter, col: Column)
    requires ValidTable(t) && t.next <= n
    ensures SumBelow(t, n, p, col) == Sum(t, p, col)
    decreases n
  {
    if n > t.next {
      SumBeyondKeys(t, n - 1, p, col);
    }
  }

  lemma AcceptAdds(t: Table, k: nat, row: Row, p: Filter, col: Column)
    requires ValidTable(t) && t.next <= k && !IsDone(row.status)
    ensures Sum(Insert(t, k, row), p, col) == Sum(t, p, col)
  {
    SumAfterUpdate(t, Insert(t, k, row), k + 1, k, p, col);
    SumBeyondKeys(t, k + 1, p, col);
  }

  lemma StatusAdds(t: Table, k: nat, status: Status, p: Filter, col: Column)
    requires ValidTable(t) && k in t.rows && IsDone(t.rows[k].status) == IsDone(status)
    ensures Sum(SetStatus(t, k, status), p, col) == Sum(t, p, col)
  {
    SumAfterUpdate(t, SetStatus(t, k, status), t.next, k, p, col);
  }

  lemma AnswerAdds(t: Table, k: nat, text: string, p: Filter, col: Column)
    requires ValidTable(t) && k in t.rows && !IsDone(t.rows[k].status)
    ensures Sum(MarkAnswered(t, k, text), p, col) == Sum(t, p, col) +
            if p(t.rows[k].user, t.rows[k].timeIn) then Value(t.rows[k].(charsOut := |text|), col) else 0
  {
    SumAfterUpdate(t, MarkAnswered(t, k, text), t.next, k, p, col);
  }

  predicate Records(a: Action) { a.Record? && a.ok }

  // What a step that records an answer adds to the sum.
  function Added(s: State, a: Action, p: Filter, col: Column): int {
    if Records(a) && a.c in s.conns && s.conns[a.c].qa.Popped? && s.conns[a.c].qa.k in s.t.rows then
      var r := s.t.rows[s.conns[a.c].qa.k];
      if p(r.user, r.timeIn) then Value(r.(charsOut := |s.conns[a.c].qa.text|), col) else 0
    else 0
  }

  /** Recording an answer adds one request and that row's counters, with the answer's own
      length; every other step, sends, errors and confirmations included, adds nothing. */
  lemma StepAdds(s: State, a: Action, p: Filter, col: Column)
    requires Reachable(s) && Enabled(s, a)
    ensures ValidTable(s.t)
    ensures Sum(Apply(s, a).t, p, col) == Sum(s.t, p, col) + Added(s, a, p, col)
    ensures Records(a) ==> s.conns[a.c].qa.k in s.t.rows
  {
    ReachableInv(s);
    match a
    case Accept(_, k, row) => AcceptAdds(s.t, k, row, p, col);
    case ConfirmRow(k) => if k in s.t.rows && s.t.rows[k].status == Answered { StatusAdds(s.t, k, Confirmed, p, col); }
    case SendBody(_, _, _) => ReaderAdds(s, a, p, col);
    case SendEnter(_, _, _) => ReaderAdds(s, a, p, col);
    case MarkSent(_, _) => ReaderAdds(s, a, p, col);
    case Record(c, ok) =>
      RowsInHand(s.t, c, s.conns[c]);
      if ok { AnswerAdds(s.t, s.conns[c].qa.k, s.conns[c].qa.text, p, col); }
    case _ =>
  }

  /** Column by column: one request, the question's own size and attachments, and the length of the
      answer. */
  lemma RecordAddsEach(s: State, c: string, p: Filter)
    requires Reachable(s) && Enabled(s, Record(c, true)) && s.conns[c].qa.k in s.t.rows
    requires p(s.t.rows[s.conns[c].qa.k].user, s.t.rows[s.conns[c].qa.k].timeIn)
    ensures ValidTable(s.t)
    ensures var t, t', r := s.t, Apply(s, Record(c, true)).t, s.t.rows[s.conns[c].qa.k];
      && Sum(t', p, Requests) == Sum(t, p, Requests) + 1
      && Sum(t', p, CharsIn) == Sum(t, p, CharsIn) + r.charsIn
      && Sum(t', p, CharsOut) == Sum(t, p, CharsOut) + |s.conns[c].qa.text|
      && Sum(t', p, Files) == Sum(t, p, Files) + r.files
      && Sum(t', p, FileBytes) == Sum(t, p, FileBytes) + r.fileBytes
  {
    StepAdds(s, Record(c, true), p, Requests);
    StepAdds(s, Record(c, true), p, CharsIn);
    StepAdds(s, Record(c, true), p, CharsOut);
    StepAdds(s, Record(c, true), p, Files);
    StepAdds(s, Record(c, true), p, FileBytes);
  }

  lemma ReaderAdds(s: State, a: Action, p: Filter, col: Column)
    requires Inv(s) && Enabled(s, a) && (a.SendBody? || a.SendEnter? || a.MarkSent?)
    ensures Sum(Apply(s, a).t, p, col) == Sum(s.t, p, col)
  {
    var k := s.conns[a.c].reader.k;
    RowsInHand(s.t, a.c, s.conns[a.c]);
    StatusAdds(s.t, k, Sent, p, col);
    StatusAdds(s.t, k, Error, p, col);
  }

  function Recorded(acts: seq<Action>): nat {
    if acts == [] then 0 else (if Records(acts[0]) then 1 else 0) + Recorded(acts[1..])
  }

  const EVERYONE: Filter := (u: Option<string>, time: string) => true

  /** Over a whole run the request count grows by exactly the number of recorded answers. */
  lemma {:induction false} RequestsCountRecordings(s: State, acts: seq<Action>, s': State)
    requires Reachable(s) && Runs(s, acts, s')
    ensures Sum(s'.t, EVERYONE, Requests) == Sum(s.t, EVERYONE, Requests) + Recorded(acts)
    decreases |acts|
  {
    if acts != [] {
      var m := Then(s, acts[0]);
      StepAdds(s, acts[0], EVERYONE, Requests);
      if Records(acts[0]) {
        ReachableInv(s);
        RowsInHand(s.t, acts[0].c, s.conns[acts[0].c]);
      }
      RequestsCountRecordings(m, acts[1..], s');
    }
  }
}
