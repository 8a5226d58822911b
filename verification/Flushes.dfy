/** The legacy path of the /chat queue, where debounce timers hand their texts to flush_answer: any
    number of flushes of one connection may be under way at once. Each pops the oldest 'sent' row,
    records its text on that row and sends a frame, in steps of its own. */
module Flushes {
  import opened Wrappers
  import opened ChatTable
  import Sorting
  import M = ChatMachine

  // Typing: row k is inserted and not marked yet. Ended: a frame could not be sent.
  datatype Reader = Idle | Typing(k: nat) | Ended

  datatype Stage = Holding | Recorded(ok: bool) | Forwarded(ok: bool)

  datatype Flush = Flush(
    k: nat,                  // the row it popped
    text: string,
    stage: Stage,
    // History: the earlier flushes on whose row nothing was recorded yet when this one popped.
    open: set<nat>)

  datatype State = State(
    conn: string,
    t: Table,
    reader: Reader,
    flushes: seq<Flush>,
    frames: seq<AFrame>,
    // History.
    marked: seq<nat>,        // rows whose 'sent' UPDATE succeeded
    records: seq<nat>,       // flushes whose UPDATE succeeded, in that order
    senders: seq<nat>)       // for each frame, its flush

  datatype Action =
    | Accept(k: nat, row: Row)
    | Mark(ok: bool)                  // the question is typed in; its UPDATE to 'sent' may fail
    | GiveUp(noted: bool)             // or a frame cannot be sent; the UPDATE to 'error' may fail
    | Pop(text: string)
    | Record(i: nat, ok: bool)
    | Forward(i: nat)
    | Others(t: Table)                // anyone confirms; other connections change their own rows

  predicate HasRecorded(f: Flush) { !f.stage.Holding? && f.stage.ok }

  // Nothing is recorded on the row of flush i.
  predicate Open(flushes: seq<Flush>, i: nat)
    requires i < |flushes|
  {
    forall m :: 0 <= m < |flushes| && flushes[m].k == flushes[i].k ==> !HasRecorded(flushes[m])
  }

  function AllOpen(flushes: seq<Flush>): set<nat> {
    set i: nat | i < |flushes| && Open(flushes, i)
  }

  ghost predicate Enabled(s: State, a: Action) {
    match a
    case Accept(k, row) => s.reader.Idle? && s.t.next <= k && row.conn == s.conn && row.status == Pending
    case Mark(_) => s.reader.Typing?
    case GiveUp(_) => s.reader.Typing?
    case Pop(_) => true
    case Record(i, _) => i < |s.flushes| && s.flushes[i].stage.Holding?
    case Forward(i) => i < |s.flushes| && s.flushes[i].stage.Recorded? && s.flushes[i].k in s.t.rows
    case Others(t) => ValidTable(t) && s.t.next <= t.next && M.OnlyConfirms(s.t, t, s.conn)
  }

  // An empty queue discards the text, as does a failing SELECT, which is no step here.
  function Popped(s: State, text: string): State
    requires ValidTable(s.t)
  {
    match OldestSent(s.t, s.conn)
    case None => s
    case Some(k) => s.(flushes := s.flushes + [Flush(k, text, Holding, AllOpen(s.flushes))])
  }

  function Staged(flushes: seq<Flush>, i: nat, stage: Stage): seq<Flush>
    requires i < |flushes|
  {
    flushes[i := flushes[i].(stage := stage)]
  }

  function Recording(s: State, i: nat, ok: bool): State
    requires i < |s.flushes|
  {
    var f, s' := s.flushes[i], s.(flushes := Staged(s.flushes, i, Recorded(ok)));
    if ok then s'.(t := MarkAnswered(s.t, f.k, f.text), records := s.records + [i]) else s'
  }

  function Step(s: State, a: Action): State
    requires ValidTable(s.t) && Enabled(s, a)
  {
    match a
    case Accept(k, row) => s.(t := Insert(s.t, k, row), reader := Typing(k))
    case Mark(ok) =>
      var s' := s.(reader := Idle);
      if ok then s'.(t := SetStatus(s.t, s.reader.k, Sent), marked := s.marked + [s.reader.k]) else s'
    case GiveUp(noted) => s.(reader := Ended, t := if noted then SetStatus(s.t, s.reader.k, Error) else s.t)
    case Pop(text) => Popped(s, text)
    case Record(i, ok) => Recording(s, i, ok)
    case Forward(i) =>
      var f := s.flushes[i];
      s.(flushes := Staged(s.flushes, i, Forwarded(f.stage.ok)), senders := s.senders + [i],
         frames := s.frames + [AFrame(f.k, s.t.rows[f.k].qid, f.text)])
    case Others(t) => s.(t := t)
  }

  ghost predicate Runs(s: State, acts: seq<Action>, s': State)
    decreases |acts|
  {
    if acts == [] then s == s'
    else ValidTable(s.t) && Enabled(s, acts[0]) && Runs(Step(s, acts[0]), acts[1..], s')
  }

  /** A new connection, on any table. */
  ghost predicate Initial(s: State) {
    && ValidTable(s.t) && (forall k <- s.t.rows :: s.t.rows[k].conn != s.conn)
    && s == State(s.conn, s.t, Idle, [], [], [], [], [])
  }

  ghost predicate Reachable(s: State) {
    exists s0, acts :: Initial(s0) && Runs(s0, acts, s)
  }

  // ---------- the invariant ----------

  predicate Live(s: Status) { s == Sent || IsDone(s) }

  ghost predicate RowsOk(s: State) {
    && ValidTable(s.t) && M.Increasing(s.marked)
    && (forall k <- s.marked :: k in s.t.rows && s.t.rows[k].conn == s.conn && Live(s.t.rows[k].status))
    && (forall k <- s.t.rows :: s.t.rows[k].conn == s.conn && Live(s.t.rows[k].status) ==> k in s.marked)
  }

  ghost predicate ReaderOk(s: State) {
    s.reader.Typing? ==>
      && s.reader.k in s.t.rows && s.t.rows[s.reader.k].conn == s.conn
      && s.t.rows[s.reader.k].status == Pending
      && forall k <- s.marked :: k < s.reader.k
  }

  // All rows older than one that was popped are done.
  ghost predicate OldestFirst(s: State) {
    forall i :: 0 <= i < |s.flushes| ==> PoppedOk(s, s.flushes[i].k)
  }

  ghost predicate PoppedOk(s: State, k: nat) {
    && k in s.marked && k in s.t.rows
    && forall m <- s.marked :: m < k ==> m in s.t.rows && IsDone(s.t.rows[m].status)
  }

  // A popped row is done exactly when some flush has recorded on it.
  ghost predicate DoneOk(s: State) {
    forall i: nat :: i < |s.flushes| ==>
      s.flushes[i].k in s.t.rows && (Open(s.flushes, i) <==> !IsDone(s.t.rows[s.flushes[i].k].status))
  }

  ghost predicate SharesOk(flushes: seq<Flush>) {
    forall i: nat, j: nat :: i < j < |flushes| ==> (flushes[i].k == flushes[j].k <==> i in flushes[j].open)
  }

  ghost predicate FramesOk(s: State) {
    && |s.senders| == |s.frames| && Sorting.NoDup(s.senders)
    && forall n :: 0 <= n < |s.frames| ==> FrameOk(s, n)
  }

  ghost predicate FrameOk(s: State, n: nat)
    requires n < |s.frames| && n < |s.senders|
  {
    && s.senders[n] < |s.flushes| && s.flushes[s.senders[n]].stage.Forwarded?
    && s.frames[n].seqNo == s.flushes[s.senders[n]].k && s.frames[n].text == s.flushes[s.senders[n]].text
  }

  /** The last flush that recorded on row k. */
  function LastOn(flushes: seq<Flush>, records: seq<nat>, k: nat): Option<nat> {
    if records == [] then None
    else
      var i := records[|records| - 1];
      if i < |flushes| && flushes[i].k == k then Some(i) else LastOn(flushes, records[..|records| - 1], k)
  }

  // A row holds the text that was recorded last.
  ghost predicate AnswersOk(s: State) {
    && (forall r <- s.records :: r < |s.flushes|)
    && forall k <- s.marked :: k in s.t.rows && AnswerOk(s, k)
  }

  ghost predicate AnswerOk(s: State, k: nat)
    requires k in s.t.rows
  {
    match LastOn(s.flushes, s.records, k)
    case None => !IsDone(s.t.rows[k].status)
    case Some(i) => i < |s.flushes| && s.t.rows[k].answer == Some(s.flushes[i].text)
  }

  ghost predicate Inv(s: State) {
    && RowsOk(s) && ReaderOk(s) && OldestFirst(s) && DoneOk(s) && SharesOk(s.flushes) && FramesOk(s) && AnswersOk(s)
  }

  // ---------- every step keeps it ----------

  lemma {:induction false} LastOnFacts(flushes: seq<Flush>, records: seq<nat>, k: nat)
    ensures LastOn(flushes, records, k).Some? ==>
              LastOn(flushes, records, k).value < |flushes| && flushes[LastOn(flushes, records, k).value].k == k
  {
    if records != [] {
      LastOnFacts(flushes, records[..|records| - 1], k);
    }
  }

  // Only the rows of the flushes matter, and flushes yet to come do not.
  ghost predicate SameRows(flushes: seq<Flush>, flushes': seq<Flush>) {
    |flushes| <= |flushes'| && forall i :: 0 <= i < |flushes| ==> flushes'[i].k == flushes[i].k
  }

  lemma {:induction false} LastOnSame(flushes: seq<Flush>, flushes': seq<Flush>, records: seq<nat>, k: nat)
    requires SameRows(flushes, flushes') && forall r <- records :: r < |flushes|
    ensures LastOn(flushes', records, k) == LastOn(flushes, records, k)
  {
    if records != [] {
      var n := |records| - 1;
      assert records[n] in records && forall r <- records[..n] :: r in records;
      LastOnSame(flushes, flushes', records[..n], k);
    }
  }

  // Steps of the reader and of others: no flush moves, and marked rows stay as they are.
  ghost predicate Quiet(s: State, s': State) {
    && s'.conn == s.conn && s'.flushes == s.flushes && s'.frames == s.frames
    && s'.records == s.records && s'.senders == s.senders && s.marked <= s'.marked
    && (forall k <- s.marked :: SameMarked(s.t, s'.t, k))
    && forall k <- s'.marked :: k !in s.marked ==>
         k in s'.t.rows && !IsDone(s'.t.rows[k].status) && forall m <- s.marked :: m < k
  }

  ghost predicate SameMarked(t: Table, t': Table, k: nat) {
    && k in t.rows && k in t'.rows
    && (IsDone(t'.rows[k].status) <==> IsDone(t.rows[k].status)) && t'.rows[k].answer == t.rows[k].answer
  }

  lemma QuietKeepsFlushes(s: State, s': State)
    requires RowsOk(s) && OldestFirst(s) && DoneOk(s) && FramesOk(s) && Quiet(s, s')
    ensures OldestFirst(s') && DoneOk(s') && FramesOk(s')
  {
    forall i | 0 <= i < |s.flushes| ensures PoppedOk(s', s.flushes[i].k) {
      var k := s.flushes[i].k;
      assert PoppedOk(s, k) && k in s'.marked;
      forall m | m in s'.marked && m < k ensures m in s'.t.rows && IsDone(s'.t.rows[m].status) {
        assert m in s.marked;
      }
    }
    forall i: nat | i < |s.flushes|
      ensures s.flushes[i].k in s'.t.rows && (Open(s.flushes, i) <==> !IsDone(s'.t.rows[s.flushes[i].k].status))
    {
      assert PoppedOk(s, s.flushes[i].k) && SameMarked(s.t, s'.t, s.flushes[i].k);
    }
    forall n | 0 <= n < |s.frames| ensures FrameOk(s', n) {
      assert FrameOk(s, n);
    }
  }

  lemma QuietKeepsAnswers(s: State, s': State)
    requires OldestFirst(s) && AnswersOk(s) && Quiet(s, s')
    ensures AnswersOk(s')
  {
    forall k | k in s'.marked ensures k in s'.t.rows && AnswerOk(s', k) {
      if k in s.marked {
        assert SameMarked(s.t, s'.t, k) && AnswerOk(s, k);
      } else {
        LastOnFacts(s.flushes, s.records, k);
        assert forall i :: 0 <= i < |s.flushes| ==> PoppedOk(s, s.flushes[i].k);
      }
    }
  }

  lemma AcceptQuiet(s: State, k: nat, row: Row)
    requires RowsOk(s) && ReaderOk(s) && Enabled(s, Accept(k, row))
    ensures var s' := Step(s, Accept(k, row)); Quiet(s, s') && RowsOk(s') && ReaderOk(s')
  {
  }

  lemma MarkQuiet(s: State, ok: bool)
    requires RowsOk(s) && ReaderOk(s) && Enabled(s, Mark(ok))
    ensures var s' := Step(s, Mark(ok)); Quiet(s, s') && RowsOk(s') && ReaderOk(s')
  {
    assert forall i :: 0 <= i < |s.marked| ==> s.marked[i] in s.marked;
  }

  lemma GiveUpQuiet(s: State, noted: bool)
    requires RowsOk(s) && ReaderOk(s) && Enabled(s, GiveUp(noted))
    ensures var s' := Step(s, GiveUp(noted)); Quiet(s, s') && RowsOk(s') && ReaderOk(s')
  {
  }

  lemma OthersQuiet(s: State, t: Table)
    requires RowsOk(s) && ReaderOk(s) && Enabled(s, Others(t))
    ensures var s' := Step(s, Others(t)); Quiet(s, s') && RowsOk(s') && ReaderOk(s')
  {
    forall k | k in s.marked ensures k in t.rows && M.Untouched(s.t.rows[k], t.rows[k]) {
    }
  }

  // What is popped is the row of every open flush.
  lemma PoppedIsOpen(s: State, i: nat, k: nat)
    requires RowsOk(s) && OldestFirst(s) && DoneOk(s) && i < |s.flushes| && OldestSent(s.t, s.conn) == Some(k)
    ensures s.flushes[i].k == k <==> Open(s.flushes, i)
  {
    var r := s.flushes[i].k;
    assert PoppedOk(s, r) && k in s.marked;
    if Open(s.flushes, i) {
      assert IsSentOf(s.t, s.conn, r);
    }
  }

  // A flush that holds its row leaves every earlier row as open as it was.
  lemma OpenWithHolder(flushes: seq<Flush>, f: Flush, i: nat)
    requires i < |flushes| && f.stage.Holding?
    ensures Open(flushes + [f], i) <==> Open(flushes, i)
  {
    var flushes' := flushes + [f];
    assert forall m :: 0 <= m < |flushes| ==> flushes'[m] == flushes[m];
    if Open(flushes, i) {
      forall m | 0 <= m < |flushes'| && flushes'[m].k == flushes'[i].k ensures !HasRecorded(flushes'[m]) {
      }
    }
    if Open(flushes', i) {
      forall m | 0 <= m < |flushes| && flushes[m].k == flushes[i].k ensures !HasRecorded(flushes[m]) {
        assert !HasRecorded(flushes'[m]);
      }
    }
  }

  lemma PopKeepsShares(s: State, text: string)
    requires RowsOk(s) && OldestFirst(s) && DoneOk(s) && SharesOk(s.flushes)
    ensures SharesOk(Popped(s, text).flushes)
  {
    var oldest := OldestSent(s.t, s.conn);
    if oldest.Some? {
      forall i: nat | i < |s.flushes|
        ensures s.flushes[i].k == oldest.value <==> i in AllOpen(s.flushes)
      {
        PoppedIsOpen(s, i, oldest.value);
      }
    }
  }

  lemma NewFlushOpen(s: State, f: Flush)
    requires RowsOk(s) && DoneOk(s) && OldestSent(s.t, s.conn) == Some(f.k) && f.stage.Holding?
    ensures Open(s.flushes + [f], |s.flushes|)
  {
    var flushes' := s.flushes + [f];
    forall m | 0 <= m < |flushes'| && flushes'[m].k == f.k ensures !HasRecorded(flushes'[m]) {
      if m < |s.flushes| {
        assert flushes'[m] == s.flushes[m] && Open(s.flushes, m);
      }
    }
  }

  lemma PopKeepsFlushes(s: State, text: string)
    requires RowsOk(s) && OldestFirst(s) && DoneOk(s) && OldestSent(s.t, s.conn).Some?
    ensures OldestFirst(Popped(s, text)) && DoneOk(Popped(s, text))
  {
    var k, s' := OldestSent(s.t, s.conn).value, Popped(s, text);
    var f := s'.flushes[|s.flushes|];
    assert k in s.marked;
    forall m | m in s.marked && m < k ensures m in s.t.rows && IsDone(s.t.rows[m].status) {
      assert !IsSentOf(s.t, s.conn, m);
    }
    assert PoppedOk(s', k);
    forall i | 0 <= i < |s'.flushes| ensures PoppedOk(s', s'.flushes[i].k) {
      if i < |s.flushes| {
        assert PoppedOk(s, s.flushes[i].k);
      }
    }
    forall i: nat | i < |s'.flushes|
      ensures s'.flushes[i].k in s'.t.rows
      ensures Open(s'.flushes, i) <==> !IsDone(s'.t.rows[s'.flushes[i].k].status)
    {
      if i < |s.flushes| {
        OpenWithHolder(s.flushes, f, i);
      } else {
        NewFlushOpen(s, f);
      }
    }
  }

  lemma PopKeepsRest(s: State, text: string)
    requires RowsOk(s) && ReaderOk(s) && FramesOk(s) && AnswersOk(s)
    ensures var s' := Popped(s, text); RowsOk(s') && ReaderOk(s') && FramesOk(s') && AnswersOk(s')
  {
    var s' := Popped(s, text);
    forall n | 0 <= n < |s'.frames| ensures FrameOk(s', n) {
      assert FrameOk(s, n);
    }
    forall k | k in s'.marked ensures k in s'.t.rows && AnswerOk(s', k) {
      assert AnswerOk(s, k);
      LastOnFacts(s.flushes, s.records, k);
      LastOnSame(s.flushes, s'.flushes, s.records, k);
    }
  }

  // Recording on a row closes it; a failed recording and forwarding change nothing there.
  lemma OpenWhenStaged(flushes: seq<Flush>, i: nat, stage: Stage, j: nat)
    requires i < |flushes| && j < |flushes| && (HasRecorded(flushes[i]) ==> HasRecorded(flushes[i].(stage := stage)))
    ensures var closes := HasRecorded(flushes[i].(stage := stage)) && flushes[j].k == flushes[i].k;
            Open(Staged(flushes, i, stage), j) <==> Open(flushes, j) && !closes
  {
    var flushes' := Staged(flushes, i, stage);
    assert forall m :: 0 <= m < |flushes| && m != i ==> flushes'[m] == flushes[m];
    if Open(flushes', j) {
      forall m | 0 <= m < |flushes| && flushes[m].k == flushes[j].k ensures !HasRecorded(flushes[m]) {
        assert flushes'[m].k == flushes'[j].k && !HasRecorded(flushes'[m]);
      }
      if flushes[j].k == flushes[i].k {
        assert !HasRecorded(flushes'[i]);
      }
    }
  }

  lemma RecordKeepsRows(s: State, i: nat, ok: bool)
    requires RowsOk(s) && ReaderOk(s) && OldestFirst(s) && i < |s.flushes|
    ensures RowsOk(Recording(s, i, ok)) && ReaderOk(Recording(s, i, ok))
  {
    assert PoppedOk(s, s.flushes[i].k);
  }

  lemma RecordKeepsOrder(s: State, i: nat, ok: bool)
    requires OldestFirst(s) && i < |s.flushes|
    ensures OldestFirst(Recording(s, i, ok))
  {
    var s' := Recording(s, i, ok);
    forall j | 0 <= j < |s'.flushes| ensures PoppedOk(s', s'.flushes[j].k) {
      assert PoppedOk(s, s.flushes[j].k) && s'.flushes[j].k == s.flushes[j].k;
    }
  }

  lemma RecordKeepsDone(s: State, i: nat, ok: bool)
    requires DoneOk(s) && i < |s.flushes| && s.flushes[i].stage.Holding?
    ensures DoneOk(Recording(s, i, ok))
  {
    var s' := Recording(s, i, ok);
    forall j: nat | j < |s'.flushes|
      ensures s'.flushes[j].k in s'.t.rows
      ensures Open(s'.flushes, j) <==> !IsDone(s'.t.rows[s'.flushes[j].k].status)
    {
      OpenWhenStaged(s.flushes, i, Recorded(ok), j);
    }
  }

  lemma RecordKeepsFrames(s: State, i: nat, ok: bool)
    requires FramesOk(s) && i < |s.flushes| && s.flushes[i].stage.Holding?
    ensures FramesOk(Recording(s, i, ok))
  {
    var s' := Recording(s, i, ok);
    forall n | 0 <= n < |s'.frames| ensures FrameOk(s', n) {
      assert FrameOk(s, n) && s.senders[n] != i;
    }
  }

  lemma RecordKeepsAnswers(s: State, i: nat, ok: bool)
    requires AnswersOk(s) && i < |s.flushes|
    ensures AnswersOk(Recording(s, i, ok))
  {
    var s' := Recording(s, i, ok);
    forall k | k in s'.marked ensures k in s'.t.rows && AnswerOk(s', k) {
      assert AnswerOk(s, k);
      LastOnFacts(s.flushes, s.records, k);
      LastOnSame(s.flushes, s'.flushes, s.records, k);
      assert ok ==> s'.records[..|s.records|] == s.records;
    }
  }

  lemma ForwardKeeps(s: State, i: nat)
    requires Inv(s) && Enabled(s, Forward(i))
    ensures var s' := Step(s, Forward(i));
            RowsOk(s') && ReaderOk(s') && OldestFirst(s') && DoneOk(s') && SharesOk(s'.flushes)
  {
    var s' := Step(s, Forward(i));
    forall j: nat | j < |s'.flushes|
      ensures s'.flushes[j].k in s'.t.rows && PoppedOk(s', s'.flushes[j].k)
      ensures Open(s'.flushes, j) <==> !IsDone(s'.t.rows[s'.flushes[j].k].status)
    {
      OpenWhenStaged(s.flushes, i, Forwarded(s.flushes[i].stage.ok), j);
      assert PoppedOk(s, s.flushes[j].k);
    }
  }

  lemma ForwardKeepsFrames(s: State, i: nat)
    requires FramesOk(s) && AnswersOk(s) && ValidTable(s.t) && Enabled(s, Forward(i))
    ensures FramesOk(Step(s, Forward(i))) && AnswersOk(Step(s, Forward(i)))
  {
    var s' := Step(s, Forward(i));
    forall n | 0 <= n < |s.frames| ensures FrameOk(s', n) && s.senders[n] != i {
      assert FrameOk(s, n);
    }
    assert FrameOk(s', |s.frames|);
    forall k | k in s'.marked ensures k in s'.t.rows && AnswerOk(s', k) {
      assert AnswerOk(s, k);
      LastOnFacts(s.flushes, s.records, k);
      LastOnSame(s.flushes, s'.flushes, s.records, k);
    }
  }

  /** What the reader leaves in the table: a row is marked exactly if the UPDATE works, and turned to
      an error exactly if that one does; either way the reader goes on, or ends. */
  lemma ReaderLeaves(s: State, a: Action)
    requires Inv(s) && Enabled(s, a) && (a.Mark? || a.GiveUp?)
    ensures var k, s' := s.reader.k, Step(s, a);
      && k in s.t.rows && k in s'.t.rows
      && s'.t.rows[k].status == (if a.Mark? && a.ok then Sent else if a.GiveUp? && a.noted then Error else Pending)
      && (forall m <- s.t.rows :: m != k ==> m in s'.t.rows && s'.t.rows[m] == s.t.rows[m])
      && s'.marked == (if a.Mark? && a.ok then s.marked + [k] else s.marked)
      && s'.reader == (if a.Mark? then Idle else Ended)
  {
  }

  lemma StepKeepsInv(s: State, a: Action)
    requires Inv(s) && Enabled(s, a)
    ensures Inv(Step(s, a))
  {
    match a
    case Accept(k, row) => AcceptQuiet(s, k, row); QuietKeeps(s, Step(s, a));
    case Mark(ok) => MarkQuiet(s, ok); QuietKeeps(s, Step(s, a));
    case GiveUp(noted) => GiveUpQuiet(s, noted); QuietKeeps(s, Step(s, a));
    case Others(t) => OthersQuiet(s, t); QuietKeeps(s, Step(s, a));
    case Pop(text) => PopKeeps(s, text);
    case Record(i, ok) => RecordKeeps(s, i, ok);
    case Forward(i) => ForwardKeeps(s, i); ForwardKeepsFrames(s, i);
  }

  lemma QuietKeeps(s: State, s': State)
    requires Inv(s) && Quiet(s, s') && RowsOk(s') && ReaderOk(s')
    ensures Inv(s')
  {
    QuietKeepsFlushes(s, s');
    QuietKeepsAnswers(s, s');
  }

  lemma PopKeeps(s: State, text: string)
    requires Inv(s)
    ensures Inv(Popped(s, text))
  {
    if OldestSent(s.t, s.conn).Some? {
      PopKeepsFlushes(s, text);
    }
    PopKeepsShares(s, text);
    PopKeepsRest(s, text);
  }

  lemma RecordKeeps(s: State, i: nat, ok: bool)
    requires Inv(s) && Enabled(s, Record(i, ok))
    ensures Inv(Recording(s, i, ok))
  {
    RecordKeepsRows(s, i, ok);
    RecordKeepsOrder(s, i, ok);
    RecordKeepsDone(s, i, ok);
    RecordKeepsFrames(s, i, ok);
    RecordKeepsAnswers(s, i, ok);
  }

  lemma {:induction false} RunKeepsInv(s: State, acts: seq<Action>, s': State)
    requires Inv(s) && Runs(s, acts, s')
    ensures Inv(s')
    decreases |acts|
  {
    if acts != [] {
      StepKeepsInv(s, acts[0]);
      RunKeepsInv(Step(s, acts[0]), acts[1..], s');
    }
  }

  lemma ReachableInv(s: State)
    requires Reachable(s)
    ensures Inv(s)
  {
    var s0, acts :| Initial(s0) && Runs(s0, acts, s);
    RunKeepsInv(s0, acts, s);
  }

  // ---------- when two frames name one row ----------

  /** Two `a` frames come from different flushes, and name the same row exactly when, at the moment
      the later flush popped, no flush had yet recorded anything on the row of the earlier one: it
      was still under way, or its UPDATE had failed. */
  lemma FramesShareIff(s: State, m: nat, n: nat)
    requires Reachable(s) && m < |s.frames| && n < |s.frames| && m != n
    ensures m < |s.senders| && n < |s.senders|
    ensures var i, j := s.senders[m], s.senders[n];
      && i < |s.flushes| && j < |s.flushes| && i != j
      && (i < j ==> (s.frames[m].seqNo == s.frames[n].seqNo <==> i in s.flushes[j].open))
  {
    ReachableInv(s);
    assert FrameOk(s, m) && FrameOk(s, n);
  }

  ghost predicate Distinct(flushes: seq<Flush>) {
    forall i, j :: 0 <= i < j < |flushes| ==> flushes[i].k != flushes[j].k
  }

  // A pop that finds a row finds nothing open.
  predicate PopsAlone(s: State, a: Action)
    requires ValidTable(s.t)
  {
    a.Pop? && OldestSent(s.t, s.conn).Some? ==> AllOpen(s.flushes) == {}
  }

  ghost predicate Serial(s: State, acts: seq<Action>)
    decreases |acts|
  {
    acts != [] ==>
      ValidTable(s.t) && Enabled(s, acts[0]) && PopsAlone(s, acts[0]) && Serial(Step(s, acts[0]), acts[1..])
  }

  lemma PopDistinctIff(s: State, text: string)
    requires Inv(s) && Distinct(s.flushes)
    ensures Distinct(Popped(s, text).flushes) <==> PopsAlone(s, Pop(text))
  {
    var oldest, flushes' := OldestSent(s.t, s.conn), Popped(s, text).flushes;
    if oldest.Some? {
      forall i: nat | i < |s.flushes| ensures i in AllOpen(s.flushes) <==> flushes'[i].k == flushes'[|s.flushes|].k {
        PoppedIsOpen(s, i, oldest.value);
      }
      if i: nat :| i in AllOpen(s.flushes) {
        assert flushes'[i].k == flushes'[|s.flushes|].k;
      }
    }
  }

  lemma StepDistinctIff(s: State, a: Action)
    requires Inv(s) && Enabled(s, a) && Distinct(s.flushes)
    ensures Distinct(Step(s, a).flushes) <==> PopsAlone(s, a)
  {
    if a.Pop? {
      PopDistinctIff(s, a.text);
    }
  }

  lemma StepKeepsRows(s: State, a: Action)
    requires ValidTable(s.t) && Enabled(s, a)
    ensures SameRows(s.flushes, Step(s, a).flushes)
  {
  }

  lemma {:induction false} SharesStay(s: State, acts: seq<Action>, s': State)
    requires Runs(s, acts, s') && !Distinct(s.flushes)
    ensures !Distinct(s'.flushes)
    decreases |acts|
  {
    if acts != [] {
      var m := Step(s, acts[0]);
      StepKeepsRows(s, acts[0]);
      var i, j :| 0 <= i < j < |s.flushes| && s.flushes[i].k == s.flushes[j].k;
      assert m.flushes[i].k == m.flushes[j].k;
      SharesStay(m, acts[1..], s');
    }
  }

  /** In a whole run no two flushes take the same row exactly when each pop that found a row found
      something recorded on the row of every earlier flush. */
  lemma {:induction false} DistinctIffSerial(s: State, acts: seq<Action>, s': State)
    requires Inv(s) && Runs(s, acts, s') && Distinct(s.flushes)
    ensures Distinct(s'.flushes) <==> Serial(s, acts)
    decreases |acts|
  {
    if acts != [] {
      var m := Step(s, acts[0]);
      StepKeepsInv(s, acts[0]);
      StepDistinctIff(s, acts[0]);
      if PopsAlone(s, acts[0]) {
        DistinctIffSerial(m, acts[1..], s');
      } else {
        SharesStay(m, acts[1..], s');
      }
    }
  }

  // As the qa loop does with final answers: no pop while a flush holds a row. And no UPDATE fails.
  ghost predicate Inline(s: State, acts: seq<Action>)
    decreases |acts|
  {
    acts != [] ==>
      && ValidTable(s.t) && Enabled(s, acts[0]) && (acts[0].Record? ==> acts[0].ok)
      && (acts[0].Pop? ==> forall f <- s.flushes :: !f.stage.Holding?)
      && Inline(Step(s, acts[0]), acts[1..])
  }

  ghost predicate NoneFailed(flushes: seq<Flush>) {
    forall i: nat :: i < |flushes| ==> flushes[i].stage.Holding? || HasRecorded(flushes[i])
  }

  lemma NoneOpen(flushes: seq<Flush>)
    requires NoneFailed(flushes) && forall f <- flushes :: !f.stage.Holding?
    ensures AllOpen(flushes) == {}
  {
    forall i: nat | i < |flushes| ensures !Open(flushes, i) {
      assert flushes[i] in flushes && HasRecorded(flushes[i]);
    }
  }

  lemma StepKeepsNoneFailed(s: State, a: Action)
    requires ValidTable(s.t) && Enabled(s, a) && NoneFailed(s.flushes) && (a.Record? ==> a.ok)
    ensures NoneFailed(Step(s, a).flushes)
  {
    if a.Forward? {
      assert HasRecorded(s.flushes[a.i]);
    }
  }

  /** So flushes run one at a time, whose statements work, never share a row. */
  lemma {:induction false} InlineIsSerial(s: State, acts: seq<Action>)
    requires NoneFailed(s.flushes) && Inline(s, acts)
    ensures Serial(s, acts)
    decreases |acts|
  {
    if acts != [] {
      if acts[0].Pop? {
        NoneOpen(s.flushes);
      }
      StepKeepsNoneFailed(s, acts[0]);
      InlineIsSerial(Step(s, acts[0]), acts[1..]);
    }
  }

  // ---------- what sharing does to the row ----------

  /** However many flushes recorded on a row, it holds the text of the one that did so last; all
      their frames have gone out or will. */
  lemma LastRecordedStays(s: State, i: nat) returns (j: nat)
    requires Reachable(s) && i < |s.flushes| && HasRecorded(s.flushes[i])
    ensures LastOn(s.flushes, s.records, s.flushes[i].k) == Some(j)
    ensures j < |s.flushes| && s.flushes[j].k == s.flushes[i].k && s.flushes[i].k in s.t.rows
    ensures s.t.rows[s.flushes[i].k].answer == Some(s.flushes[j].text)
  {
    ReachableInv(s);
    var k := s.flushes[i].k;
    assert PoppedOk(s, k) && AnswerOk(s, k);
    assert !Open(s.flushes, i);
    LastOnFacts(s.flushes, s.records, k);
    j := LastOn(s.flushes, s.records, k).value;
  }

  /** The status of a row of this connection goes backward exactly when a flush records on a row
      that a client has confirmed; and then another flush has recorded on that row before. */
  lemma BackwardIff(s: State, a: Action, k: nat)
    requires Reachable(s) && Enabled(s, a) && k in s.t.rows && s.t.rows[k].conn == s.conn
    ensures ValidTable(s.t) && k in Step(s, a).t.rows
    ensures !M.Follows(s.t.rows[k].status, Step(s, a).t.rows[k].status) <==>
            a.Record? && a.ok && s.flushes[a.i].k == k && s.t.rows[k].status == Confirmed
    ensures a.Record? && a.ok && s.flushes[a.i].k == k && s.t.rows[k].status == Confirmed ==>
            exists m: nat :: m < |s.flushes| && m != a.i && s.flushes[m].k == k && HasRecorded(s.flushes[m])
  {
    ReachableInv(s);
    if a.Record? && s.flushes[a.i].k == k {
      RecordedBefore(s, a.i);
    }
  }

  lemma RecordedBefore(s: State, i: nat)
    requires Inv(s) && i < |s.flushes| && s.flushes[i].stage.Holding?
    ensures s.flushes[i].k in s.t.rows && Live(s.t.rows[s.flushes[i].k].status)
    ensures IsDone(s.t.rows[s.flushes[i].k].status) ==>
      exists m: nat :: m < |s.flushes| && m != i && s.flushes[m].k == s.flushes[i].k && HasRecorded(s.flushes[m])
  {
    assert PoppedOk(s, s.flushes[i].k);
    if IsDone(s.t.rows[s.flushes[i].k].status) {
      assert !Open(s.flushes, i);
      var m: nat :| m < |s.flushes| && s.flushes[m].k == s.flushes[i].k && HasRecorded(s.flushes[m]);
    }
  }

  // ---------- such a run ----------

  lemma {:induction false} RunsThen(s0: State, acts: seq<Action>, s: State, a: Action)
    requires Runs(s0, acts, s) && ValidTable(s.t) && Enabled(s, a)
    ensures Runs(s0, acts + [a], Step(s, a))
    decreases |acts|
  {
    if acts != [] {
      RunsThen(Step(s0, acts[0]), acts[1..], s, a);
      assert (acts + [a])[1..] == acts[1..] + [a];
    } else {
      assert (acts + [a])[1..] == [];
    }
  }

  lemma Then(s: State, a: Action) returns (s': State)
    requires Reachable(s) && ValidTable(s.t) && Enabled(s, a)
    ensures s' == Step(s, a) && Reachable(s') && ValidTable(s'.t)
  {
    var s0, acts :| Initial(s0) && Runs(s0, acts, s);
    RunsThen(s0, acts, s, a);
    s' := Step(s, a);
    ReachableInv(s');
  }

  function Question(qid: string): Row { NewRow("c", qid, "about " + qid, "t", None, 6 + |qid|, 0, 0) }

  function SentQuestion(qid: string): Row { Question(qid).(status := Sent) }

  // The reader takes a question in and marks it.
  lemma Ask(s: State, k: nat, qid: string) returns (s': State)
    requires Reachable(s) && ValidTable(s.t) && s.conn == "c" && s.reader.Idle? && s.t.next <= k
    ensures Reachable(s') && ValidTable(s'.t)
    ensures s' == s.(t := SetStatus(Insert(s.t, k, Question(qid)), k, Sent), marked := s.marked + [k])
  {
    s' := Then(s, Accept(k, Question(qid)));
    s' := Then(s', Mark(true));
  }

  function TwoSent(): Table { Table(map[0 := SentQuestion("q0"), 1 := SentQuestion("q1")], 2) }

  lemma TwoQuestions() returns (s: State)
    ensures Reachable(s) && ValidTable(s.t)
    ensures s == State("c", TwoSent(), Idle, [], [], [0, 1], [], [])
  {
    s := State("c", Table(map[], 0), Idle, [], [], [], [], []);
    assert Runs(s, [], s);
    s := Ask(s, 0, "q0");
    s := Ask(s, 1, "q1");
    assert s.t.rows == TwoSent().rows;
  }

  // A timer pops row 0 while `open` flushes are open.
  lemma PopFirst(s: State, text: string, open: set<nat>) returns (s': State)
    requires Reachable(s) && s.conn == "c" && s.t == TwoSent() && open == AllOpen(s.flushes)
    ensures Reachable(s') && s' == s.(flushes := s.flushes + [Flush(0, text, Holding, open)])
  {
    assert IsSentOf(s.t, "c", 0);
    s' := Then(s, Pop(text));
  }

  // Two timers pop row 0 before either records.
  lemma BothPop(a: string, b: string) returns (s: State)
    ensures Reachable(s)
    ensures s == State("c", TwoSent(), Idle, [Flush(0, a, Holding, {}), Flush(0, b, Holding, {0})], [], [0, 1], [], [])
  {
    s := TwoQuestions();
    assert AllOpen([]) == {};
    s := PopFirst(s, a, {});
    assert s.flushes == [Flush(0, a, Holding, {})];
    assert AllOpen(s.flushes) == {0};
    s := PopFirst(s, b, {0});
  }

  // A flush records on row 0 and sends its frame.
  lemma Flushed(s: State, i: nat) returns (s': State)
    requires Reachable(s) && ValidTable(s.t) && 0 in s.t.rows && 1 in s.t.rows
    requires i < |s.flushes| && s.flushes[i].stage.Holding? && s.flushes[i].k == 0
    ensures Reachable(s') && ValidTable(s'.t) && s'.t == MarkAnswered(s.t, 0, s.flushes[i].text)
    ensures s'.flushes == Staged(s.flushes, i, Forwarded(true))
    ensures s'.frames == s.frames + [AFrame(0, s.t.rows[0].qid, s.flushes[i].text)]
  {
    s' := Then(s, Record(i, true));
    s' := Then(s', Forward(i));
  }

  /** Two flushes overlap: both frames name q0. The client confirms q0 after the first, the second
      turns the row back to answered with its own text, and q1 is left waiting. */
  lemma OverlapAnswersTwice(a: string, b: string) returns (before: State, s: State)
    ensures Reachable(before) && 0 in before.t.rows && before.t.rows[0].status == Confirmed
    ensures before.t.rows[0].answer == Some(a)
    ensures Reachable(s) && 0 in s.t.rows && 1 in s.t.rows && s.t.rows[0].status == Answered
    ensures s.t.rows[0].answer == Some(b) && s.t.rows[1].status == Sent
    ensures s.frames == [AFrame(0, "q0", a), AFrame(0, "q0", b)]
  {
    s := BothPop(a, b);
    s := Flushed(s, 0);
    before := Then(s, Others(MarkConfirmed(s.t, 0)));
    s := Flushed(before, 1);
  }
}
