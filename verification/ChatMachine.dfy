/** The /chat endpoint as a step system over the shared queue table.

    Every connection runs two tasks that interleave freely. The reader inserts a row, sends
    the body frame, sends the "\r" frame, and only then marks the row 'sent'. The qa loop
    takes final answers in order, pops the oldest 'sent' row, records the answer and forwards
    an `a` frame. Any client may confirm any row. Every database call may fail; the
    code goes on after each such failure, and after a failed insert it does nothing at all. */
module ChatMachine {
  import opened Wrappers
  import opened ChatTable

  // Where the reader task is within one question.
  datatype Reader = Idle | Inserted(k: nat) | BodySent(k: nat) | EnterSent(k: nat) | Ended

  // Where the qa loop is within one final answer. It is aborted when the connection is torn down,
  // perhaps with a row in hand.
  datatype Qa = Waiting | Popped(k: nat, text: string) | Recorded(k: nat, text: string) | Aborted(held: Option<nat>)

  // The row popped for an answer that has no outcome yet.
  function InHand(qa: Qa): Option<nat> {
    match qa
    case Popped(k, _) => Some(k)
    case Aborted(held) => held
    case _ => None
  }

  /** What became of one final answer. */
  datatype Outcome =
    | NoRow                  // no 'sent' row: logged and discarded
    | PopFailed              // the SELECT failed: discarded
    | Answers(k: nat)        // row k now holds it
    | Unrecorded(k: nat)     // the UPDATE failed: forwarded under k, but row k is still 'sent'

  datatype Conn = Conn(
    reader: Reader,
    qa: Qa,
    frames: seq<AFrame>,     // `a` frames handed to the writer task
    // History, for stating properties; no step reads it.
    mine: seq<nat>,          // rows this connection inserted
    marked: seq<nat>,        // rows whose 'sent' UPDATE succeeded
    answers: seq<string>,    // final answers taken from the qa stream
    outcomes: seq<Outcome>)  // their fates; one shorter while an answer is in hand

  datatype State = State(t: Table, conns: map<string, Conn>)

  datatype Action =
    | Open(c: string)
    | Accept(c: string, k: nat, row: Row)
    | SendBody(c: string, ok: bool, noted: bool)    // `noted`: the UPDATE to 'error' works
    | SendEnter(c: string, ok: bool, noted: bool)
    | MarkSent(c: string, ok: bool)
    | ClientLeaves(c: string)
    | Abort(c: string)
    | Take(c: string, text: string, ok: bool)
    | Record(c: string, ok: bool)
    | Forward(c: string)
    | ConfirmRow(k: nat)

  const NEW_CONN := Conn(Idle, Waiting, [], [], [], [], [])

  predicate Enabled(s: State, a: Action) {
    match a
    case Open(c) => c !in s.conns && forall k <- s.t.rows :: s.t.rows[k].conn != c
    case Accept(c, k, row) =>
      && c in s.conns && s.conns[c].reader.Idle? && s.t.next <= k
      && row.conn == c && row.status == Pending && row.answer == None && row.charsOut == 0
    case SendBody(c, _, _) => c in s.conns && s.conns[c].reader.Inserted?
    case SendEnter(c, _, _) => c in s.conns && s.conns[c].reader.BodySent?
    case MarkSent(c, _) => c in s.conns && s.conns[c].reader.EnterSent?
    case ClientLeaves(c) => c in s.conns && s.conns[c].reader.Idle?
    case Abort(c) => c in s.conns && s.conns[c].reader.Ended?
    case Take(c, _, _) => c in s.conns && s.conns[c].qa.Waiting?
    case Record(c, _) => c in s.conns && s.conns[c].qa.Popped?
    case Forward(c) => c in s.conns && s.conns[c].qa.Recorded? && s.conns[c].qa.k in s.t.rows
    case ConfirmRow(k) => true
  }

  function Apply(s: State, a: Action): State
    requires ValidTable(s.t) && Enabled(s, a)
  {
    match a
    case Open(c) => s.(conns := s.conns[c := NEW_CONN])
    case Accept(c, k, row) =>
      var x := s.conns[c];
      State(Insert(s.t, k, row), s.conns[c := x.(reader := Inserted(k), mine := x.mine + [k])])
    case SendBody(c, ok, noted) => ReaderSends(s, c, ok, noted, BodySent(s.conns[c].reader.k))
    case SendEnter(c, ok, noted) => ReaderSends(s, c, ok, noted, EnterSent(s.conns[c].reader.k))
    case MarkSent(c, ok) =>
      var x := s.conns[c];
      if ok then
        State(SetStatus(s.t, x.reader.k, Sent),
              s.conns[c := x.(reader := Idle, marked := x.marked + [x.reader.k])])
      else
        s.(conns := s.conns[c := x.(reader := Idle)])
    case ClientLeaves(c) => s.(conns := s.conns[c := s.conns[c].(reader := Ended)])
    case Abort(c) => s.(conns := s.conns[c := s.conns[c].(qa := Aborted(InHand(s.conns[c].qa)))])
    case Take(c, text, ok) => s.(conns := s.conns[c := TakeAnswer(s.t, c, s.conns[c], text, ok)])
    case Record(c, ok) =>
      var x := s.conns[c];
      State(if ok then MarkAnswered(s.t, x.qa.k, x.qa.text) else s.t,
            s.conns[c := x.(qa := Recorded(x.qa.k, x.qa.text),
                            outcomes := x.outcomes + [if ok then Answers(x.qa.k) else Unrecorded(x.qa.k)])])
    case Forward(c) =>
      var x := s.conns[c];
      var frame := AFrame(x.qa.k, s.t.rows[x.qa.k].qid, x.qa.text);
      s.(conns := s.conns[c := x.(qa := Waiting, frames := x.frames + [frame])])
    case ConfirmRow(k) => s.(t := MarkConfirmed(s.t, k))
  }

  // A frame that cannot be sent ends the reader and turns the row to 'error', if that UPDATE works.
  function ReaderSends(s: State, c: string, ok: bool, noted: bool, then_: Reader): State
    requires c in s.conns && (s.conns[c].reader.Inserted? || s.conns[c].reader.BodySent?)
  {
    var x := s.conns[c];
    if ok then s.(conns := s.conns[c := x.(reader := then_)])
    else State(if noted then SetStatus(s.t, x.reader.k, Error) else s.t, s.conns[c := x.(reader := Ended)])
  }

  function TakeAnswer(t: Table, c: string, x: Conn, text: string, ok: bool): Conn
    requires ValidTable(t)
  {
    var y := x.(answers := x.answers + [text]);
    if !ok then y.(outcomes := y.outcomes + [PopFailed])
    else
      match OldestSent(t, c)
      case None => y.(outcomes := y.outcomes + [NoRow])
      case Some(k) => y.(qa := Popped(k, text))
  }

  /** Some interleaving `acts` leads from `s` to `s'`. */
  ghost predicate Runs(s: State, acts: seq<Action>, s': State)
    decreases |acts|
  {
    if acts == [] then s == s'
    else ValidTable(s.t) && Enabled(s, acts[0]) && Runs(Apply(s, acts[0]), acts[1..], s')
  }

  /** Any table left by earlier manager processes, and no connection yet. */
  ghost predicate Initial(s: State) {
    ValidTable(s.t) && s.conns == map[]
  }

  // ---------- what every reachable state satisfies ----------

  ghost predicate Increasing(s: seq<nat>) {
    forall i, j :: 0 <= i < j < |s| ==> s[i] < s[j]
  }

  /** How many answers were recorded on a row. */
  function Recordings(outcomes: seq<Outcome>): (n: nat)
    ensures n <= |outcomes|
  {
    if outcomes == [] then 0
    else Recordings(outcomes[..|outcomes| - 1]) + (if outcomes[|outcomes| - 1].Answers? then 1 else 0)
  }

  predicate Carries(o: Outcome) {
    o.Answers? || o.Unrecorded?
  }

  /** The (row, text) pairs that leave as `a` frames, in order. */
  function Deliveries(outcomes: seq<Outcome>, answers: seq<string>): seq<(nat, string)>
    requires |outcomes| <= |answers|
  {
    if outcomes == [] then []
    else
      var n := |outcomes| - 1;
      Deliveries(outcomes[..n], answers[..n]) +
      (if Carries(outcomes[n]) then [(outcomes[n].k, answers[n])] else [])
  }

  function Sends(frames: seq<AFrame>): seq<(nat, string)> {
    seq(|frames|, i requires 0 <= i < |frames| => (frames[i].seqNo, frames[i].text))
  }

  // The rows of the connection are exactly `mine`, in key order; those never marked
  // 'sent' are pending or in error.
  ghost predicate RowsOk(t: Table, c: string, x: Conn) {
    && Increasing(x.mine) && Increasing(x.marked)
    && (forall k <- x.mine :: k in t.rows && t.rows[k].conn == c)
    && (forall k <- t.rows :: t.rows[k].conn == c ==> k in x.mine)
    && (forall k <- x.marked :: k in x.mine)
    && (forall k <- x.mine :: k !in x.marked ==> t.rows[k].status == Pending || t.rows[k].status == Error)
  }

  ghost predicate ReaderOk(t: Table, x: Conn) {
    && (x.qa.Aborted? ==> x.reader.Ended?)
    && (x.reader.Inserted? || x.reader.BodySent? || x.reader.EnterSent? ==>
      && x.mine != [] && x.reader.k == x.mine[|x.mine| - 1]
      && x.reader.k in t.rows && t.rows[x.reader.k].status == Pending
      && forall k <- x.marked :: k < x.reader.k)
  }

  // Marked rows are answered oldest first: the first Recordings(outcomes) of them are done.
  ghost predicate QueueOk(t: Table, x: Conn) {
    var done := Recordings(x.outcomes);
    && done <= |x.marked|
    && (forall i :: 0 <= i < |x.marked| ==> x.marked[i] in t.rows)
    && (forall i :: 0 <= i < done ==> IsDone(t.rows[x.marked[i]].status))
    && (forall i :: done <= i < |x.marked| ==> t.rows[x.marked[i]].status == Sent)
  }

  ghost predicate QaOk(x: Conn) {
    && |x.outcomes| <= |x.answers| <= |x.outcomes| + 1
    && (x.qa.Waiting? || x.qa.Recorded? ==> |x.answers| == |x.outcomes|)
    && (x.qa.Popped? ==>
          && |x.answers| == |x.outcomes| + 1 && x.answers[|x.outcomes|] == x.qa.text
          && Recordings(x.outcomes) < |x.marked| && x.qa.k == x.marked[Recordings(x.outcomes)])
  }

  // Answer n, if it carried a row at all, carried the marked row after those already done.
  ghost predicate HistoryOk(t: Table, x: Conn) {
    && |x.outcomes| <= |x.answers|
    && forall n :: 0 <= n < |x.outcomes| && Carries(x.outcomes[n]) ==>
         && Recordings(x.outcomes[..n]) < |x.marked|
         && x.outcomes[n].k == x.marked[Recordings(x.outcomes[..n])]
         && x.outcomes[n].k in t.rows
         && (x.outcomes[n].Answers? ==> t.rows[x.outcomes[n].k].answer == Some(x.answers[n]))
  }

  ghost predicate FramesOk(t: Table, x: Conn) {
    && |x.outcomes| <= |x.answers|
    && (forall f <- x.frames :: f.seqNo in x.marked && f.seqNo in t.rows && t.rows[f.seqNo].qid == f.qid)
    && (x.qa.Recorded? ==> x.qa.k in x.marked)
    && var sent, due := Sends(x.frames), Deliveries(x.outcomes, x.answers);
       match x.qa
       case Recorded(k, text) => sent + [(k, text)] == due
       case Aborted(_) => sent == due || (|due| == |sent| + 1 && sent == due[..|sent|])
       case _ => sent == due
  }

  ghost predicate ConnOk(t: Table, c: string, x: Conn) {
    RowsOk(t, c, x) && ReaderOk(t, x) && QueueOk(t, x) && QaOk(x) && HistoryOk(t, x) && FramesOk(t, x)
  }

  ghost predicate Inv(s: State) {
    ValidTable(s.t) && forall c <- s.conns :: ConnOk(s.t, c, s.conns[c])
  }

  // ---------- rows change only along pending -> sent -> answered -> confirmed, or to error ----------

  predicate Follows(before: Status, after: Status) {
    || before == after
    || (before == Pending && (after == Sent || after == Error))
    || (before == Sent && after == Answered)
    || (before == Answered && after == Confirmed)
  }

  /** The row of another connection: at most confirmed by someone. */
  predicate Untouched(r: Row, r': Row) {
    r' == r || (r.status == Answered && r' == r.(status := Confirmed))
  }

  ghost predicate OnlyConfirms(t: Table, t': Table, c: string) {
    && (forall k <- t.rows :: t.rows[k].conn == c ==> k in t'.rows && Untouched(t.rows[k], t'.rows[k]))
    && (forall k <- t'.rows :: t'.rows[k].conn == c ==> k in t.rows && t.rows[k].conn == c)
  }

  lemma ConfirmsKeepRows(t: Table, t': Table, c: string, x: Conn)
    requires RowsOk(t, c, x) && ReaderOk(t, x) && OnlyConfirms(t, t', c)
    ensures RowsOk(t', c, x) && ReaderOk(t', x)
  {
    assert x.mine != [] ==> x.mine[|x.mine| - 1] in x.mine;
  }

  lemma ConfirmsKeepQueue(t: Table, t': Table, c: string, x: Conn)
    requires RowsOk(t, c, x) && QueueOk(t, x) && OnlyConfirms(t, t', c)
    ensures QueueOk(t', x)
  {
    forall i | 0 <= i < |x.marked|
      ensures x.marked[i] in t'.rows && Untouched(t.rows[x.marked[i]], t'.rows[x.marked[i]])
    {
      assert x.marked[i] in x.marked && x.marked[i] in x.mine;
    }
  }

  lemma MarkedUntouched(t: Table, t': Table, c: string, x: Conn, k: nat)
    requires RowsOk(t, c, x) && OnlyConfirms(t, t', c) && k in x.marked
    ensures k in t.rows && k in t'.rows && Untouched(t.rows[k], t'.rows[k])
  {
    assert k in x.mine;
  }

  lemma ConfirmsKeepHistory(t: Table, t': Table, c: string, x: Conn)
    requires RowsOk(t, c, x) && HistoryOk(t, x) && FramesOk(t, x) && OnlyConfirms(t, t', c)
    ensures HistoryOk(t', x) && FramesOk(t', x)
  {
    forall n | 0 <= n < |x.outcomes| && Carries(x.outcomes[n])
      ensures x.outcomes[n].k in t'.rows && t'.rows[x.outcomes[n].k].answer == t.rows[x.outcomes[n].k].answer
    {
      MarkedUntouched(t, t', c, x, x.outcomes[n].k);
    }
    forall f | f in x.frames ensures f.seqNo in t'.rows && t'.rows[f.seqNo].qid == f.qid {
      MarkedUntouched(t, t', c, x, f.seqNo);
    }
  }

  lemma ConfirmsKeepConn(t: Table, t': Table, c: string, x: Conn)
    requires ConnOk(t, c, x) && OnlyConfirms(t, t', c)
    ensures ConnOk(t', c, x)
  {
    ConfirmsKeepRows(t, t', c, x);
    ConfirmsKeepQueue(t, t', c, x);
    ConfirmsKeepHistory(t, t', c, x);
  }

  // ---------- every step keeps the invariant ----------

  // History and frames only look at answered rows: they survive any change that keeps
  // key, qid and answer of the marked rows and extends `marked`.
  lemma HistoryFrame(t: Table, t': Table, x: Conn, x': Conn)
    requires HistoryOk(t, x) && x'.outcomes == x.outcomes && x'.answers == x.answers
    requires x.marked <= x'.marked
    requires forall k <- t.rows :: k in t'.rows && t'.rows[k].answer == t.rows[k].answer
    ensures HistoryOk(t', x')
  {
  }

  lemma FramesFrame(t: Table, t': Table, x: Conn, x': Conn)
    requires FramesOk(t, x) && x'.outcomes == x.outcomes && x'.answers == x.answers
    requires x'.qa == x.qa && x'.frames == x.frames && x.marked <= x'.marked
    requires forall k <- t.rows :: k in t'.rows && t'.rows[k].qid == t.rows[k].qid
    ensures FramesOk(t', x')
  {
    assert forall k <- x.marked :: k in x'.marked;
  }

  lemma AcceptKeepsRows(t: Table, c: string, x: Conn, k: nat, row: Row)
    requires ValidTable(t) && RowsOk(t, c, x) && !x.qa.Aborted? && t.next <= k
    requires row.conn == c && row.status == Pending
    ensures var x' := x.(reader := Inserted(k), mine := x.mine + [k]);
            RowsOk(Insert(t, k, row), c, x') && ReaderOk(Insert(t, k, row), x')
  {
    var t', x' := Insert(t, k, row), x.(reader := Inserted(k), mine := x.mine + [k]);
    assert forall m <- x.mine :: m < k;
    assert forall m <- x.marked :: m in x.mine;
    assert forall m :: m in x'.mine <==> m in x.mine || m == k;
    assert Increasing(x'.mine) by {
      assert forall i :: 0 <= i < |x.mine| ==> x.mine[i] in x.mine;
    }
  }

  lemma AcceptKeepsQueue(t: Table, c: string, x: Conn, k: nat, row: Row)
    requires ValidTable(t) && QueueOk(t, x) && t.next <= k
    ensures QueueOk(Insert(t, k, row), x.(reader := Inserted(k), mine := x.mine + [k]))
  {
  }

  lemma AcceptKeeps(t: Table, c: string, x: Conn, k: nat, row: Row)
    requires ValidTable(t) && ConnOk(t, c, x) && x.reader.Idle? && t.next <= k
    requires row.conn == c && row.status == Pending
    ensures ConnOk(Insert(t, k, row), c, x.(reader := Inserted(k), mine := x.mine + [k]))
  {
    var t', x' := Insert(t, k, row), x.(reader := Inserted(k), mine := x.mine + [k]);
    AcceptKeepsRows(t, c, x, k, row);
    AcceptKeepsQueue(t, c, x, k, row);
    HistoryFrame(t, t', x, x');
    FramesFrame(t, t', x, x');
  }

  lemma FailureKeeps(t: Table, c: string, x: Conn, noted: bool)
    requires ConnOk(t, c, x) && (x.reader.Inserted? || x.reader.BodySent?)
    ensures ConnOk(if noted then SetStatus(t, x.reader.k, Error) else t, c, x.(reader := Ended))
  {
    ReaderMoves(t, c, x, Ended);
    if noted {
      ErrorKeeps(t, c, x);
    }
  }

  lemma ErrorKeepsQueue(t: Table, x: Conn)
    requires QueueOk(t, x) && ReaderOk(t, x) && (x.reader.Inserted? || x.reader.BodySent?)
    ensures QueueOk(SetStatus(t, x.reader.k, Error), x.(reader := Ended))
  {
    assert forall i :: 0 <= i < |x.marked| ==> x.marked[i] in x.marked;
  }

  lemma ErrorKeeps(t: Table, c: string, x: Conn)
    requires ConnOk(t, c, x) && (x.reader.Inserted? || x.reader.BodySent?)
    ensures ConnOk(SetStatus(t, x.reader.k, Error), c, x.(reader := Ended))
  {
    var t', x' := SetStatus(t, x.reader.k, Error), x.(reader := Ended);
    assert x.mine[|x.mine| - 1] in x.mine;
    assert RowsOk(t', c, x');
    HistoryFrame(t, t', x, x');
    FramesFrame(t, t', x, x');
    ErrorKeepsQueue(t, x);
  }

  function AfterMark(x: Conn): Conn
    requires x.reader.EnterSent?
  {
    x.(reader := Idle, marked := x.marked + [x.reader.k])
  }

  lemma MarkSentKeepsRows(t: Table, c: string, x: Conn)
    requires RowsOk(t, c, x) && ReaderOk(t, x) && x.reader.EnterSent?
    ensures RowsOk(SetStatus(t, x.reader.k, Sent), c, AfterMark(x))
  {
    assert x.mine[|x.mine| - 1] in x.mine;
    assert forall i :: 0 <= i < |x.marked| ==> x.marked[i] in x.marked;
  }

  lemma MarkSentKeepsQueue(t: Table, x: Conn)
    requires QueueOk(t, x) && ReaderOk(t, x) && x.reader.EnterSent?
    ensures QueueOk(SetStatus(t, x.reader.k, Sent), AfterMark(x))
  {
    assert forall i :: 0 <= i < |x.marked| ==> x.marked[i] in x.marked;
  }

  lemma MarkSentKeeps(t: Table, c: string, x: Conn)
    requires ConnOk(t, c, x) && x.reader.EnterSent?
    ensures ConnOk(SetStatus(t, x.reader.k, Sent), c, AfterMark(x))
  {
    MarkSentKeepsRows(t, c, x);
    MarkSentKeepsQueue(t, x);
    HistoryFrame(t, SetStatus(t, x.reader.k, Sent), x, AfterMark(x));
    FramesFrame(t, SetStatus(t, x.reader.k, Sent), x, AfterMark(x));
  }

  // A 'sent' row is a marked one that is not done.
  lemma SentIsUndone(t: Table, c: string, x: Conn, k: nat)
    requires RowsOk(t, c, x) && QueueOk(t, x) && IsSentOf(t, c, k)
    ensures exists i :: Recordings(x.outcomes) <= i < |x.marked| && x.marked[i] == k
  {
    assert k in x.mine && k in x.marked;
    var i :| 0 <= i < |x.marked| && x.marked[i] == k;
  }

  lemma UndoneIsSent(t: Table, c: string, x: Conn, i: nat)
    requires RowsOk(t, c, x) && QueueOk(t, x) && Recordings(x.outcomes) <= i < |x.marked|
    ensures IsSentOf(t, c, x.marked[i])
  {
    assert x.marked[i] in x.marked && x.marked[i] in x.mine;
  }

  lemma OldestIsFirstUndone(t: Table, c: string, x: Conn)
    requires ValidTable(t) && RowsOk(t, c, x) && QueueOk(t, x)
    ensures OldestSent(t, c) ==
            if Recordings(x.outcomes) < |x.marked| then Some(x.marked[Recordings(x.outcomes)]) else None
  {
    var done, oldest := Recordings(x.outcomes), OldestSent(t, c);
    if oldest.Some? {
      SentIsUndone(t, c, x, oldest.value);
    }
    if done < |x.marked| {
      UndoneIsSent(t, c, x, done);
    }
  }

  lemma PopKeeps(t: Table, c: string, x: Conn, text: string)
    requires ConnOk(t, c, x) && x.qa.Waiting? && Recordings(x.outcomes) < |x.marked|
    ensures ConnOk(t, c, x.(answers := x.answers + [text], qa := Popped(x.marked[Recordings(x.outcomes)], text)))
  {
    var x' := x.(answers := x.answers + [text], qa := Popped(x.marked[Recordings(x.outcomes)], text));
    OutcomeAppended(x, x');
    assert HistoryOk(t, x') && FramesOk(t, x');
  }

  lemma DropKeeps(t: Table, c: string, x: Conn, text: string, o: Outcome)
    requires ConnOk(t, c, x) && x.qa.Waiting? && !Carries(o)
    ensures ConnOk(t, c, x.(answers := x.answers + [text], outcomes := x.outcomes + [o]))
  {
    var x' := x.(answers := x.answers + [text], outcomes := x.outcomes + [o]);
    OutcomeAppended(x, x');
    assert HistoryOk(t, x') && FramesOk(t, x');
  }

  lemma TakeKeeps(t: Table, c: string, x: Conn, text: string, ok: bool)
    requires ValidTable(t) && ConnOk(t, c, x) && x.qa.Waiting?
    ensures ConnOk(t, c, TakeAnswer(t, c, x, text, ok))
  {
    OldestIsFirstUndone(t, c, x);
    if !ok {
      DropKeeps(t, c, x, text, PopFailed);
    } else if Recordings(x.outcomes) < |x.marked| {
      PopKeeps(t, c, x, text);
    } else {
      DropKeeps(t, c, x, text, NoRow);
    }
  }

  // Bookkeeping of the two histories when answers and/or outcomes grow by at most one.
  lemma OutcomeAppended(x: Conn, x': Conn)
    requires |x.outcomes| <= |x.answers| <= |x.outcomes| + 1
    requires x'.answers == x.answers || exists a: string :: x'.answers == x.answers + [a]
    requires |x'.outcomes| <= |x'.answers|
    requires x'.outcomes == x.outcomes || exists o: Outcome :: x'.outcomes == x.outcomes + [o]
    ensures forall n :: 0 <= n <= |x.outcomes| ==> x'.outcomes[..n] == x.outcomes[..n]
    ensures forall n :: 0 <= n < |x.outcomes| ==> x'.outcomes[n] == x.outcomes[n] && x'.answers[n] == x.answers[n]
    ensures x.outcomes[..|x.outcomes|] == x.outcomes
    ensures x'.outcomes == x.outcomes ==> Deliveries(x'.outcomes, x'.answers) == Deliveries(x.outcomes, x.answers)
    ensures |x'.outcomes| == |x.outcomes| + 1 ==>
              var o := x'.outcomes[|x.outcomes|];
              && Recordings(x'.outcomes) == Recordings(x.outcomes) + (if o.Answers? then 1 else 0)
              && Deliveries(x'.outcomes, x'.answers) == Deliveries(x.outcomes, x.answers) +
                   if Carries(o) then [(o.k, x'.answers[|x.outcomes|])] else []
  {
    DeliveriesIgnoreRest(x.outcomes, x.answers, x'.answers);
    if |x'.outcomes| == |x.outcomes| + 1 {
      DeliveriesIgnoreRest(x.outcomes, x.answers, x'.answers[..|x.outcomes|]);
    }
  }

  lemma {:induction false} DeliveriesIgnoreRest(outcomes: seq<Outcome>, a: seq<string>, b: seq<string>)
    requires |outcomes| <= |a| && |outcomes| <= |b| && a[..|outcomes|] == b[..|outcomes|]
    ensures Deliveries(outcomes, a) == Deliveries(outcomes, b)
  {
    if outcomes != [] {
      var n := |outcomes| - 1;
      assert a[n] == a[..|outcomes|][n] && b[n] == b[..|outcomes|][n];
      assert a[..n] == b[..n] by {
        assert forall i :: 0 <= i < n ==> a[i] == a[..|outcomes|][i] && b[i] == b[..|outcomes|][i];
      }
    }
  }

  function AfterRecord(x: Conn, ok: bool): Conn
    requires x.qa.Popped?
  {
    x.(qa := Recorded(x.qa.k, x.qa.text),
       outcomes := x.outcomes + [if ok then Answers(x.qa.k) else Unrecorded(x.qa.k)])
  }

  lemma RecordKeepsRows(t: Table, c: string, x: Conn)
    requires RowsOk(t, c, x) && ReaderOk(t, x) && x.qa.Popped? && x.qa.k in x.marked
    ensures RowsOk(MarkAnswered(t, x.qa.k, x.qa.text), c, x) && ReaderOk(MarkAnswered(t, x.qa.k, x.qa.text), x)
  {
    assert x.qa.k in x.mine;
  }

  lemma RecordKeepsQueue(t: Table, x: Conn, ok: bool)
    requires QueueOk(t, x) && QaOk(x) && Increasing(x.marked) && x.qa.Popped?
    ensures var t' := if ok then MarkAnswered(t, x.qa.k, x.qa.text) else t;
            QueueOk(t', AfterRecord(x, ok)) && QaOk(AfterRecord(x, ok))
  {
    OutcomeAppended(x, AfterRecord(x, ok));
  }

  // The row in hand holds no recorded answer yet.
  lemma NotAnsweredYet(t: Table, x: Conn, n: nat)
    requires HistoryOk(t, x) && QaOk(x) && Increasing(x.marked) && x.qa.Popped?
    requires n < |x.outcomes| && x.outcomes[n].Answers?
    ensures x.outcomes[n].k != x.qa.k
  {
    RecordingsBefore(x.outcomes, n);
  }

  // Recording changes the answer of the row in hand only, which no older outcome holds.
  lemma OldAnswersStay(t: Table, x: Conn, n: nat)
    requires HistoryOk(t, x) && QaOk(x) && Increasing(x.marked) && x.qa.Popped?
    requires n < |x.outcomes| && x.outcomes[n].Answers?
    ensures var t' := MarkAnswered(t, x.qa.k, x.qa.text);
            x.outcomes[n].k in t'.rows && t'.rows[x.outcomes[n].k].answer == Some(x.answers[n])
  {
    NotAnsweredYet(t, x, n);
  }

  lemma RecordKeepsHistory(t: Table, x: Conn, ok: bool)
    requires HistoryOk(t, x) && QaOk(x) && QueueOk(t, x) && Increasing(x.marked) && x.qa.Popped?
    ensures HistoryOk(if ok then MarkAnswered(t, x.qa.k, x.qa.text) else t, AfterRecord(x, ok))
  {
    OutcomeAppended(x, AfterRecord(x, ok));
    if ok {
      forall n | 0 <= n < |x.outcomes| && x.outcomes[n].Answers?
        ensures var t' := MarkAnswered(t, x.qa.k, x.qa.text);
                x.outcomes[n].k in t'.rows && t'.rows[x.outcomes[n].k].answer == Some(x.answers[n])
      {
        OldAnswersStay(t, x, n);
      }
    }
  }

  lemma RecordKeepsFrames(t: Table, x: Conn, ok: bool)
    requires FramesOk(t, x) && QaOk(x) && x.qa.Popped? && x.qa.k in x.marked
    ensures FramesOk(if ok then MarkAnswered(t, x.qa.k, x.qa.text) else t, AfterRecord(x, ok))
  {
    OutcomeAppended(x, AfterRecord(x, ok));
  }

  lemma HandIsMarked(x: Conn)
    requires QaOk(x) && x.qa.Popped?
    ensures x.qa.k in x.marked
  {
    assert x.marked[Recordings(x.outcomes)] in x.marked;
  }

  lemma RecordKeeps(t: Table, c: string, x: Conn, ok: bool)
    requires ConnOk(t, c, x) && x.qa.Popped?
    ensures ConnOk(if ok then MarkAnswered(t, x.qa.k, x.qa.text) else t, c, AfterRecord(x, ok))
  {
    HandIsMarked(x);
    RecordKeepsQueue(t, x, ok);
    RecordKeepsHistory(t, x, ok);
    RecordKeepsFrames(t, x, ok);
    var t', x' := if ok then MarkAnswered(t, x.qa.k, x.qa.text) else t, AfterRecord(x, ok);
    if ok {
      RecordKeepsRows(t, c, x);
    }
    SameRows(t', c, x, x');
  }

  lemma SameRows(t: Table, c: string, x: Conn, x': Conn)
    requires RowsOk(t, c, x) && ReaderOk(t, x) && x'.mine == x.mine && x'.marked == x.marked && x'.reader == x.reader
    requires !x'.qa.Aborted?
    ensures RowsOk(t, c, x') && ReaderOk(t, x')
  {
  }

  /** A recorded answer leaves fewer rows done before it than in total. */
  lemma {:induction false} RecordingsBefore(outcomes: seq<Outcome>, n: nat)
    requires n < |outcomes| && outcomes[n].Answers?
    ensures Recordings(outcomes[..n]) < Recordings(outcomes)
  {
    var m := |outcomes| - 1;
    if n < m {
      RecordingsBefore(outcomes[..m], n);
      assert outcomes[..m][..n] == outcomes[..n];
    }
  }

  lemma ForwardKeeps(t: Table, c: string, x: Conn)
    requires ConnOk(t, c, x) && x.qa.Recorded? && x.qa.k in t.rows
    ensures ConnOk(t, c, x.(qa := Waiting, frames := x.frames + [AFrame(x.qa.k, t.rows[x.qa.k].qid, x.qa.text)]))
  {
    var frame := AFrame(x.qa.k, t.rows[x.qa.k].qid, x.qa.text);
    var x' := x.(qa := Waiting, frames := x.frames + [frame]);
    assert Sends(x'.frames) == Sends(x.frames) + [(x.qa.k, x.qa.text)];
    assert FramesOk(t, x') && HistoryOk(t, x');
  }

  lemma AbortKeeps(t: Table, c: string, x: Conn)
    requires ConnOk(t, c, x) && x.reader.Ended?
    ensures ConnOk(t, c, x.(qa := Aborted(InHand(x.qa))))
  {
    var x' := x.(qa := Aborted(InHand(x.qa)));
    var due := Deliveries(x.outcomes, x.answers);
    if x.qa.Recorded? {
      assert due[..|due| - 1] == Sends(x.frames);
    }
    assert FramesOk(t, x') && HistoryOk(t, x');
  }

  predicate Acts(a: Action, c: string) {
    !a.ConfirmRow? && a.c == c
  }

  // The rows in the hands of a connection's tasks are its own.
  ghost predicate HandsOwn(t: Table, c: string, x: Conn) {
    && (x.reader.Inserted? || x.reader.BodySent? || x.reader.EnterSent? ==>
          x.reader.k in t.rows && t.rows[x.reader.k].conn == c)
    && (x.qa.Popped? ==> x.qa.k in t.rows && t.rows[x.qa.k].conn == c)
  }

  lemma HandsAreOwn(t: Table, c: string, x: Conn)
    requires ConnOk(t, c, x)
    ensures HandsOwn(t, c, x)
  {
    if x.qa.Popped? {
      assert x.marked[Recordings(x.outcomes)] in x.mine;
    }
    if x.mine != [] {
      assert x.mine[|x.mine| - 1] in x.mine;
    }
  }

  lemma OthersUntouched(s: State, a: Action, c: string)
    requires ValidTable(s.t) && Enabled(s, a) && !Acts(a, c)
    requires !a.ConfirmRow? && a.c in s.conns ==> HandsOwn(s.t, a.c, s.conns[a.c])
    ensures OnlyConfirms(s.t, Apply(s, a).t, c)
  {
  }

  // Whoever acts, the rows of everybody else are at most confirmed.
  lemma OthersOnlyConfirmed(s: State, a: Action, c: string)
    requires Inv(s) && Enabled(s, a) && !Acts(a, c)
    ensures OnlyConfirms(s.t, Apply(s, a).t, c)
  {
    if !a.ConfirmRow? && a.c in s.conns {
      HandsAreOwn(s.t, a.c, s.conns[a.c]);
    }
    OthersUntouched(s, a, c);
  }

  lemma ActorKeeps(s: State, a: Action)
    requires ValidTable(s.t) && Enabled(s, a) && !a.ConfirmRow? && !a.Open?
    requires a.c in s.conns && ConnOk(s.t, a.c, s.conns[a.c])
    ensures a.c in Apply(s, a).conns && ConnOk(Apply(s, a).t, a.c, Apply(s, a).conns[a.c])
  {
    var t, c, x := s.t, a.c, s.conns[a.c];
    match a {
      case Accept(_, k, row) => AcceptKeeps(t, c, x, k, row);
      case SendBody(_, ok, noted) =>
        if ok { ReaderMoves(t, c, x, BodySent(x.reader.k)); } else { FailureKeeps(t, c, x, noted); }
      case SendEnter(_, ok, noted) =>
        if ok { ReaderMoves(t, c, x, EnterSent(x.reader.k)); } else { FailureKeeps(t, c, x, noted); }
      case MarkSent(_, ok) => if ok { MarkSentKeeps(t, c, x); } else { ReaderMoves(t, c, x, Idle); }
      case ClientLeaves(_) => ReaderMoves(t, c, x, Ended);
      case Abort(_) => AbortKeeps(t, c, x);
      case Take(_, text, ok) => TakeKeeps(t, c, x, text, ok);
      case Record(_, ok) => RecordKeeps(t, c, x, ok);
      case Forward(_) => ForwardKeeps(t, c, x);
    }
  }

  lemma ReaderMoves(t: Table, c: string, x: Conn, reader: Reader)
    requires ConnOk(t, c, x)
    requires || reader.Ended? || (reader.Idle? && x.reader.EnterSent?)
             || (reader.BodySent? && x.reader == Inserted(reader.k))
             || (reader.EnterSent? && x.reader == BodySent(reader.k))
    ensures ConnOk(t, c, x.(reader := reader))
  {
    HistoryFrame(t, t, x, x.(reader := reader));
    FramesFrame(t, t, x, x.(reader := reader));
  }

  lemma BystandersKept(s: State, a: Action, c: string)
    requires ValidTable(s.t) && Enabled(s, a) && !Acts(a, c)
    ensures ValidTable(Apply(s, a).t)
    ensures c in Apply(s, a).conns <==> c in s.conns
    ensures c in s.conns ==> Apply(s, a).conns[c] == s.conns[c]
  {
  }

  lemma StepKeepsInv(s: State, a: Action)
    requires Inv(s) && Enabled(s, a)
    ensures Inv(Apply(s, a))
  {
    var s' := Apply(s, a);
    forall c | c in s'.conns ensures ConnOk(s'.t, c, s'.conns[c]) {
      if a == Open(c) {
        assert Sends([]) == [];
      } else if Acts(a, c) {
        ActorKeeps(s, a);
      } else {
        BystandersKept(s, a, c);
        OthersOnlyConfirmed(s, a, c);
        ConfirmsKeepConn(s.t, s'.t, c, s.conns[c]);
      }
    }
  }

  lemma {:induction false} RunKeepsInv(s: State, acts: seq<Action>, s': State)
    requires Inv(s) && Runs(s, acts, s')
    ensures Inv(s')
    decreases |acts|
  {
    if acts != [] {
      StepKeepsInv(s, acts[0]);
      RunKeepsInv(Apply(s, acts[0]), acts[1..], s');
    }
  }
}
