/** What the /chat queue guarantees, over every interleaving. */
module ChatProperties {
  import opened Wrappers
  import opened ChatTable
  import opened ChatMachine

  ghost predicate Reachable(s: State) {
    exists s0, acts :: Initial(s0) && Runs(s0, acts, s)
  }

  lemma ReachableInv(s: State)
    requires Reachable(s)
    ensures Inv(s)
  {
    var s0, acts :| Initial(s0) && Runs(s0, acts, s);
    RunKeepsInv(s0, acts, s);
  }

  lemma {:induction false} RunsThen(s0: State, acts: seq<Action>, s: State, a: Action)
    requires Runs(s0, acts, s) && ValidTable(s.t) && Enabled(s, a)
    ensures Runs(s0, acts + [a], Apply(s, a))
    decreases |acts|
  {
    if acts != [] {
      RunsThen(Apply(s0, acts[0]), acts[1..], s, a);
      assert (acts + [a])[1..] == acts[1..] + [a];
    } else {
      assert (acts + [a])[1..] == [];
    }
  }

  lemma Then(s: State, a: Action) returns (s': State)
    requires Reachable(s) && ValidTable(s.t) && Enabled(s, a)
    ensures s' == Apply(s, a) && Reachable(s') && ValidTable(s'.t)
  {
    var s0, acts :| Initial(s0) && Runs(s0, acts, s);
    RunsThen(s0, acts, s, a);
    s' := Apply(s, a);
    ReachableInv(s');
  }

  // ---------- queue shape ----------

  // The rows a connection inserted, read in key order, when no 'sent' UPDATE was lost:
  // answered or confirmed rows, then sent rows, then at most one pending or failed row.
  ghost predicate QueueShape(t: Table, x: Conn) {
    var done, sent := Recordings(x.outcomes), |x.marked|;
    && done <= sent <= |x.mine| <= sent + 1
    && (forall i :: 0 <= i < |x.mine| ==> x.mine[i] in t.rows)
    && (forall i :: 0 <= i < done ==> IsDone(t.rows[x.mine[i]].status))
    && (forall i :: done <= i < sent ==> t.rows[x.mine[i]].status == Sent)
    && (forall i :: sent <= i < |x.mine| ==> t.rows[x.mine[i]].status == Pending || t.rows[x.mine[i]].status == Error)
  }

  predicate LostSent(a: Action, c: string) {
    a.MarkSent? && !a.ok && a.c == c
  }

  // Without lost 'sent' updates every row but possibly the last is marked.
  ghost predicate MarkedPrefix(x: Conn) {
    && x.marked <= x.mine && |x.mine| <= |x.marked| + 1
    && (x.reader.Idle? ==> |x.mine| == |x.marked|)
    && (x.reader.Inserted? || x.reader.BodySent? || x.reader.EnterSent? ==> |x.mine| == |x.marked| + 1)
  }

  lemma {:induction false} MarkedPrefixKept(s: State, acts: seq<Action>, s': State, c: string)
    requires Inv(s) && Runs(s, acts, s') && (forall a <- acts :: !LostSent(a, c))
    requires c in s.conns ==> MarkedPrefix(s.conns[c])
    ensures c in s'.conns ==> MarkedPrefix(s'.conns[c])
    decreases |acts|
  {
    if acts != [] {
      var m := Apply(s, acts[0]);
      StepKeepsInv(s, acts[0]);
      assert acts[0] in acts;
      if c in m.conns {
        StepKeepsMarkedPrefix(s, acts[0], c);
      }
      MarkedPrefixKept(m, acts[1..], s', c);
    }
  }

  lemma StepKeepsMarkedPrefix(s: State, a: Action, c: string)
    requires Inv(s) && Enabled(s, a) && !LostSent(a, c) && c in Apply(s, a).conns
    requires c in s.conns ==> MarkedPrefix(s.conns[c])
    ensures MarkedPrefix(Apply(s, a).conns[c])
  {
    if Acts(a, c) {
      if a.MarkSent? {
        assert ReaderOk(s.t, s.conns[c]);
      }
    } else {
      BystandersKept(s, a, c);
    }
  }

  /** If no 'sent' update of this connection is lost, whatever befalls the others and with or
      without dropped answers, its rows are exactly `mine` and have the queue shape. */
  lemma QueueShapeHolds(s0: State, acts: seq<Action>, s: State, c: string)
    requires Initial(s0) && Runs(s0, acts, s) && c in s.conns
    requires forall a <- acts :: !LostSent(a, c)
    ensures QueueShape(s.t, s.conns[c])
    ensures Increasing(s.conns[c].mine)
    ensures forall k :: k in s.conns[c].mine <==> k in s.t.rows && s.t.rows[k].conn == c
  {
    RunKeepsInv(s0, acts, s);
    MarkedPrefixKept(s0, acts, s, c);
    var x := s.conns[c];
    assert ConnOk(s.t, c, x);
    assert forall i :: 0 <= i < |x.mine| ==> x.mine[i] in x.mine;
    forall i, j | 0 <= j < |x.marked| <= i < |x.mine| ensures x.marked[j] != x.mine[i] {
      assert x.marked[j] == x.mine[j];
    }
  }

  lemma OlderIsDoneFirst(t: Table, x: Conn, i: nat, j: nat)
    requires QueueOk(t, x) && Increasing(x.marked) && i < |x.marked| && j < |x.marked| && x.marked[i] < x.marked[j]
    ensures IsDone(t.rows[x.marked[j]].status) ==> IsDone(t.rows[x.marked[i]].status)
  {
    assert i < j;
  }

  lemma OlderIsNotSent(t: Table, c: string, x: Conn, k: nat, m: nat)
    requires RowsOk(t, c, x) && QueueOk(t, x) && k in x.mine && m in x.mine && k < m
    ensures k in t.rows && m in t.rows && (IsDone(t.rows[m].status) ==> t.rows[k].status != Sent)
  {
    if k in x.marked && m in x.marked {
      var i :| 0 <= i < |x.marked| && x.marked[i] == k;
      var j :| 0 <= j < |x.marked| && x.marked[j] == m;
      OlderIsDoneFirst(t, x, i, j);
    }
  }

  /** Even when 'sent' updates are lost, no question is answered before an older one that
      the queue knows to be sent. */
  lemma NoOvertaking(s: State, c: string, i: nat, j: nat)
    requires Reachable(s) && c in s.conns && i < j < |s.conns[c].mine|
    ensures var mine := s.conns[c].mine;
            && mine[i] in s.t.rows && mine[j] in s.t.rows
            && (IsDone(s.t.rows[mine[j]].status) ==> s.t.rows[mine[i]].status != Sent)
  {
    ReachableInv(s);
    var x := s.conns[c];
    assert ConnOk(s.t, c, x);
    assert x.mine[i] in x.mine && x.mine[j] in x.mine;
    OlderIsNotSent(s.t, c, x, x.mine[i], x.mine[j]);
  }

  // Status forward, question unchanged.
  predicate Advances(r: Row, r': Row) {
    Follows(r.status, r'.status) &&
    r'.(status := Pending, answer := None, charsOut := 0) == r.(status := Pending, answer := None, charsOut := 0)
  }

  /** No step moves a status backward or rewrites a question, although two of the three
      UPDATEs have no status guard; a step of one connection leaves the rows of every other
      connection alone, except that any client may confirm an answered row. */
  lemma StatusesOnlyAdvance(s: State, a: Action, k: nat)
    requires Reachable(s) && Enabled(s, a) && k in s.t.rows
    ensures ValidTable(s.t)
    ensures k in Apply(s, a).t.rows
    ensures Advances(s.t.rows[k], Apply(s, a).t.rows[k])
    ensures !Acts(a, s.t.rows[k].conn) ==> Untouched(s.t.rows[k], Apply(s, a).t.rows[k])
  {
    ReachableInv(s);
    RowAdvances(s, a, k);
    if !Acts(a, s.t.rows[k].conn) {
      OthersOnlyConfirmed(s, a, s.t.rows[k].conn);
    }
  }

  lemma RowAdvances(s: State, a: Action, k: nat)
    requires Inv(s) && Enabled(s, a) && k in s.t.rows
    ensures k in Apply(s, a).t.rows && Advances(s.t.rows[k], Apply(s, a).t.rows[k])
  {
    var c := s.t.rows[k].conn;
    if !Acts(a, c) {
      OthersOnlyConfirmed(s, a, c);
    } else if !a.Open? {
      RowsInHand(s.t, c, s.conns[c]);
      ActorAdvances(s, a, k);
    }
  }

  lemma ActorAdvances(s: State, a: Action, k: nat)
    requires ValidTable(s.t) && k in s.t.rows && Acts(a, s.t.rows[k].conn) && !a.Open? && Enabled(s, a)
    requires HandsOk(s.t, s.conns[a.c])
    ensures k in Apply(s, a).t.rows && Advances(s.t.rows[k], Apply(s, a).t.rows[k])
  {
  }

  predicate HandsOk(t: Table, x: Conn) {
    && (x.reader.Inserted? || x.reader.BodySent? || x.reader.EnterSent? ==>
          x.reader.k in t.rows && t.rows[x.reader.k].status == Pending)
    && (x.qa.Popped? ==> x.qa.k in t.rows && t.rows[x.qa.k].status == Sent)
  }

  // The row the reader or the qa loop is about to update has not moved in the meantime.
  lemma RowsInHand(t: Table, c: string, x: Conn)
    requires ConnOk(t, c, x)
    ensures HandsOk(t, x)
  {
  }

  predicate FailsSend(a: Action) { (a.SendBody? || a.SendEnter?) && !a.ok }

  /** Which step moves which row: the reader marks the row it has just typed 'sent', or 'error' when
      a frame of it cannot be sent, the qa loop marks the row it has popped answered, and a client
      confirms an answered row. Nothing else moves a row. */
  lemma RowMovesIff(s: State, a: Action, k: nat)
    requires Reachable(s) && Enabled(s, a) && k in s.t.rows
    ensures ValidTable(s.t) && k in Apply(s, a).t.rows
    ensures var before, after := s.t.rows[k].status, Apply(s, a).t.rows[k].status;
      && (before != Sent && after == Sent <==> a.MarkSent? && a.ok && s.conns[a.c].reader.k == k)
      && (before != Error && after == Error <==> FailsSend(a) && a.noted && s.conns[a.c].reader.k == k)
      && (before != Answered && after == Answered <==> a.Record? && a.ok && s.conns[a.c].qa.k == k)
      && (before != Confirmed && after == Confirmed <==> a.ConfirmRow? && a.k == k && before == Answered)
      && (before != Pending ==> after != Pending)
    ensures a.Record? && a.ok && s.conns[a.c].qa.k == k ==>
      && Apply(s, a).t.rows[k].answer == Some(s.conns[a.c].qa.text)
      && Apply(s, a).t.rows[k].charsOut == |s.conns[a.c].qa.text|
  {
    ReachableInv(s);
    if !a.ConfirmRow? && a.c in s.conns {
      RowsInHand(s.t, a.c, s.conns[a.c]);
      HandMoves(s, a, k);
    }
  }

  lemma HandMoves(s: State, a: Action, k: nat)
    requires ValidTable(s.t) && Enabled(s, a) && k in s.t.rows && !a.ConfirmRow?
    requires a.c in s.conns && HandsOk(s.t, s.conns[a.c])
    ensures var before, after := s.t.rows[k].status, Apply(s, a).t.rows[k].status;
      && (before != Sent && after == Sent <==> a.MarkSent? && a.ok && s.conns[a.c].reader.k == k)
      && (before != Error && after == Error <==> FailsSend(a) && a.noted && s.conns[a.c].reader.k == k)
      && (before != Answered && after == Answered <==> a.Record? && a.ok && s.conns[a.c].qa.k == k)
      && !(before != Confirmed && after == Confirmed) && (before != Pending ==> after != Pending)
  {
  }

  /** Where the reader goes: through the two frames and the mark back to the next question, also
      when the mark fails; a frame that cannot be sent is the end of it. */
  lemma ReaderGoesOn(s: State, a: Action)
    requires ValidTable(s.t) && Enabled(s, a) && !a.ConfirmRow? && !a.Open?
    ensures var reader, reader' := s.conns[a.c].reader, Apply(s, a).conns[a.c].reader;
      && (a.Accept? ==> reader' == Inserted(a.k) && Apply(s, a).t.rows[a.k] == a.row)
      && (FailsSend(a) || a.ClientLeaves? ==> reader' == Ended)
      && (a.SendBody? && a.ok ==> reader' == BodySent(reader.k))
      && (a.SendEnter? && a.ok ==> reader' == EnterSent(reader.k))
      && (a.MarkSent? ==> reader' == Idle)
      && (a.Take? || a.Record? || a.Forward? || a.Abort? ==> reader' == reader)
  {
  }

  /** Where the qa loop goes: a popped row is recorded, then forwarded as one frame with its key and
      id, and the loop waits again; a torn-down connection takes nothing any more. */
  lemma QaGoesOn(s: State, a: Action)
    requires ValidTable(s.t) && Enabled(s, a) && !a.ConfirmRow? && !a.Open?
    ensures var x, x' := s.conns[a.c], Apply(s, a).conns[a.c];
      && (a.Take? && a.ok && OldestSent(s.t, a.c).Some? ==> x'.qa == Popped(OldestSent(s.t, a.c).value, a.text))
      && (a.Take? && (!a.ok || OldestSent(s.t, a.c).None?) ==> x'.qa.Waiting?)
      && (a.Record? ==> x'.qa == Recorded(x.qa.k, x.qa.text))
      && (a.Forward? ==> x'.qa.Waiting? && x'.frames == x.frames + [AFrame(x.qa.k, s.t.rows[x.qa.k].qid, x.qa.text)])
      && (a.Abort? ==> x'.qa.Aborted? && forall text, ok :: !Enabled(Apply(s, a), Take(a.c, text, ok)))
      && (!a.Take? && !a.Record? && !a.Forward? && !a.Abort? ==> x'.qa == x.qa)
      && (!a.Forward? ==> x'.frames == x.frames)
  {
  }

  function Rank(status: Status): nat {
    match status case Pending => 0 case Sent => 1 case Answered => 2 case Confirmed => 3 case Error => 1
  }

  /** Statuses that follow each other go one step forward; a confirmed row and an error are final. */
  lemma FollowsIsForward(before: Status, after: Status)
    requires Follows(before, after) && before != after
    ensures Rank(after) == Rank(before) + 1 && before != Error && (after == Error ==> before == Pending)
  {
  }

  // ---------- which question gets which answer ----------

  /** How many answers were not recorded on any row. */
  function Missed(outcomes: seq<Outcome>): nat {
    if outcomes == [] then 0
    else Missed(outcomes[..|outcomes| - 1]) + (if outcomes[|outcomes| - 1].Answers? then 0 else 1)
  }

  lemma {:induction false} RecordedOrMissed(outcomes: seq<Outcome>)
    ensures Recordings(outcomes) + Missed(outcomes) == |outcomes|
  {
    if outcomes != [] {
      RecordedOrMissed(outcomes[..|outcomes| - 1]);
    }
  }

  lemma {:induction false} MissedGrows(outcomes: seq<Outcome>, n: nat)
    requires n <= |outcomes|
    ensures Missed(outcomes[..n]) <= Missed(outcomes)
    ensures n < |outcomes| && !outcomes[n].Answers? ==> Missed(outcomes[..n]) < Missed(outcomes)
  {
    var m := |outcomes| - 1;
    if n <= m {
      MissedGrows(outcomes[..m], n);
      assert outcomes[..m][..n] == outcomes[..n];
    } else {
      assert outcomes[..n] == outcomes;
    }
  }

  lemma {:induction false} NthRecording(outcomes: seq<Outcome>, i: nat) returns (n: nat)
    requires i < Recordings(outcomes)
    ensures n < |outcomes| && outcomes[n].Answers? && Recordings(outcomes[..n]) == i
  {
    var m := |outcomes| - 1;
    if i < Recordings(outcomes[..m]) {
      n := NthRecording(outcomes[..m], i);
      assert outcomes[..m][..n] == outcomes[..n];
    } else {
      n := m;
    }
  }

  /** Drift law. The i-th row that leaves the queue holds final answer number i + d, where d
      counts the earlier answers that were not recorded on any row; rows leave in the order
      in which they were marked 'sent'. */
  lemma DriftLaw(s: State, c: string, i: nat) returns (n: nat)
    requires Reachable(s) && c in s.conns && i < Recordings(s.conns[c].outcomes)
    ensures var x := s.conns[c];
      && n < |x.outcomes| <= |x.answers| && i < |x.marked| && x.marked[i] in s.t.rows
      && n == i + Missed(x.outcomes[..n])
      && x.outcomes[n] == Answers(x.marked[i])
      && s.t.rows[x.marked[i]].answer == Some(x.answers[n])
  {
    ReachableInv(s);
    var x := s.conns[c];
    assert ConnOk(s.t, c, x);
    n := NthRecording(x.outcomes, i);
    RecordedOrMissed(x.outcomes[..n]);
  }

  ghost predicate PairedInOrder(x: Conn) {
    forall n :: 0 <= n < |x.outcomes| ==> n < |x.marked| && x.outcomes[n] == Answers(x.marked[n])
  }

  /** Answer n goes to the n-th row that was marked 'sent', for all n, exactly when no answer was
      missed. These are not the n-th questions when a 'sent' update was lost. */
  lemma PairingExactIffNoneMissed(s: State, c: string)
    requires Reachable(s) && c in s.conns
    ensures PairedInOrder(s.conns[c]) <==> Missed(s.conns[c].outcomes) == 0
  {
    ReachableInv(s);
    var x := s.conns[c];
    assert ConnOk(s.t, c, x);
    if Missed(x.outcomes) == 0 {
      forall n | 0 <= n < |x.outcomes| ensures n < |x.marked| && x.outcomes[n] == Answers(x.marked[n]) {
        NoMissBefore(s.t, x, n);
      }
    } else if forall n :: 0 <= n < |x.outcomes| ==> x.outcomes[n].Answers? {
      NoneMissed(x.outcomes);
    }
  }

  lemma NoMissBefore(t: Table, x: Conn, n: nat)
    requires HistoryOk(t, x) && Missed(x.outcomes) == 0 && n < |x.outcomes|
    ensures n < |x.marked| && x.outcomes[n] == Answers(x.marked[n])
  {
    MissedGrows(x.outcomes, n);
    RecordedOrMissed(x.outcomes[..n]);
  }

  lemma {:induction false} NoneMissed(outcomes: seq<Outcome>)
    requires forall n :: 0 <= n < |outcomes| ==> outcomes[n].Answers?
    ensures Missed(outcomes) == 0
  {
    if outcomes != [] {
      NoneMissed(outcomes[..|outcomes| - 1]);
    }
  }

  // ---------- the n-th answer and the n-th question ----------

  /** The promise: the n-th answer is recorded on the n-th row the connection queued. */
  ghost predicate OwnRows(x: Conn) {
    && |x.outcomes| <= |x.mine|
    && forall n :: 0 <= n < |x.outcomes| ==> x.outcomes[n] == Answers(x.mine[n])
  }

  // The n-th question is queued and marked 'sent'.
  predicate IsMarked(x: Conn, n: nat) {
    n < |x.mine| && x.mine[n] in x.marked
  }

  // If the first questions are all marked, they are the first marked rows.
  lemma {:induction false} MarkedThrough(t: Table, c: string, x: Conn, m: nat)
    requires RowsOk(t, c, x) && forall n: nat :: n < m ==> IsMarked(x, n)
    ensures m <= |x.marked| && m <= |x.mine| && forall n :: 0 <= n < m ==> x.marked[n] == x.mine[n]
  {
    if m > 0 {
      var n := m - 1;
      MarkedThrough(t, c, x, n);
      assert IsMarked(x, n);
      var j :| 0 <= j < |x.marked| && x.marked[j] == x.mine[n];
      assert x.marked[n] in x.mine;
      var q :| 0 <= q < |x.mine| && x.mine[q] == x.marked[n];
    }
  }

  /** The n-th answer goes to the n-th question, for all n, exactly when no answer was missed and
      each of these questions was marked 'sent'. */
  lemma OwnRowsIff(s: State, c: string)
    requires Reachable(s) && c in s.conns
    ensures var x := s.conns[c];
      OwnRows(x) <==> Missed(x.outcomes) == 0 && forall n: nat :: n < |x.outcomes| ==> IsMarked(x, n)
  {
    ReachableInv(s);
    var x := s.conns[c];
    assert ConnOk(s.t, c, x);
    PairingExactIffNoneMissed(s, c);
    if OwnRows(x) {
      NoneMissed(x.outcomes);
      forall n: nat | n < |x.outcomes| ensures IsMarked(x, n) {
        assert x.outcomes[n] == Answers(x.marked[n]);
      }
    }
    if Missed(x.outcomes) == 0 && forall n: nat :: n < |x.outcomes| ==> IsMarked(x, n) {
      MarkedThrough(s.t, c, x, |x.outcomes|);
    }
  }

  lemma OwnMeansMarked(t: Table, c: string, x: Conn)
    requires ConnOk(t, c, x) && OwnRows(x)
    ensures Recordings(x.outcomes) == |x.outcomes| <= |x.marked| && |x.outcomes| <= |x.mine|
    ensures forall n :: 0 <= n < |x.outcomes| ==> x.marked[n] == x.mine[n]
  {
    NoneMissed(x.outcomes);
    RecordedOrMissed(x.outcomes);
    forall n: nat | n < |x.outcomes| ensures IsMarked(x, n) {
      NoMissBefore(t, x, n);
    }
    MarkedThrough(t, c, x, |x.outcomes|);
  }

  // The first n questions are the first n marked rows.
  ghost predicate MarkedInOrder(t: Table, c: string, x: Conn, n: nat) {
    RowsOk(t, c, x) && n <= |x.marked| && n <= |x.mine| && forall i :: 0 <= i < n ==> x.marked[i] == x.mine[i]
  }

  lemma NextMarked(t: Table, c: string, x: Conn, n: nat)
    requires MarkedInOrder(t, c, x, n)
    ensures IsMarked(x, n) <==> n < |x.marked| && n < |x.mine| && x.marked[n] == x.mine[n]
  {
    if IsMarked(x, n) {
      forall i: nat | i <= n ensures IsMarked(x, i) {
        assert i < n ==> x.mine[i] == x.marked[i];
      }
      MarkedThrough(t, c, x, n + 1);
    }
  }

  lemma LaterMarked(t: Table, c: string, x: Conn, n: nat)
    requires MarkedInOrder(t, c, x, n)
    ensures n < |x.marked| <==> exists q: nat :: n <= q && IsMarked(x, q)
  {
    if n < |x.marked| {
      assert x.marked[n] in x.mine;
      var q: nat :| q < |x.mine| && x.mine[q] == x.marked[n];
      assert IsMarked(x, q);
    }
    if q: nat :| n <= q && IsMarked(x, q) {
      var j :| 0 <= j < |x.marked| && x.marked[j] == x.mine[q];
      assert j < n ==> x.marked[j] == x.mine[j];
    }
  }

  // With all earlier answers on their own rows, the first undone row is the next question's iff
  // that question is marked.
  lemma NextUndone(t: Table, c: string, x: Conn)
    requires ConnOk(t, c, x) && OwnRows(x)
    ensures var n := |x.outcomes|;
      && Recordings(x.outcomes) == n <= |x.marked|
      && (IsMarked(x, n) <==> n < |x.marked| && n < |x.mine| && x.marked[n] == x.mine[n])
      && (n < |x.marked| <==> exists q: nat :: n <= q && IsMarked(x, q))
  {
    OwnMeansMarked(t, c, x);
    NextMarked(t, c, x, |x.outcomes|);
    LaterMarked(t, c, x, |x.outcomes|);
  }

  /** An answer is dropped exactly when all rows marked so far have theirs. As long as the earlier
      answers have gone to their own questions, the next one pops its own row exactly when that row
      is marked; otherwise it is dropped if no later row is marked either, and else pops the row of
      a later question. */
  lemma TakesOwnRowIff(s: State, a: Action)
    requires Reachable(s) && a.Take? && a.ok && Enabled(s, a)
    ensures ValidTable(s.t)
    ensures var x, x' := s.conns[a.c], Apply(s, a).conns[a.c];
      x'.outcomes == x.outcomes + [NoRow] <==> Recordings(x.outcomes) == |x.marked|
    ensures var x, x' := s.conns[a.c], Apply(s, a).conns[a.c];
            var n := |x.outcomes|;
      OwnRows(x) ==>
        && (n < |x.mine| && x'.qa == Popped(x.mine[n], a.text) <==> IsMarked(x, n))
        && (x'.outcomes == x.outcomes + [NoRow] <==> forall q: nat :: n <= q ==> !IsMarked(x, q))
  {
    ReachableInv(s);
    var x := s.conns[a.c];
    assert ConnOk(s.t, a.c, x);
    OldestIsFirstUndone(s.t, a.c, x);
    if OwnRows(x) {
      NextUndone(s.t, a.c, x);
    }
  }

  // ---------- runs that keep the promise ----------

  // The answer in hand, if any, is held for the next question's row.
  ghost predicate HoldsOwn(x: Conn) {
    InHand(x.qa).Some? ==> |x.outcomes| < |x.mine| && InHand(x.qa).value == x.mine[|x.outcomes|]
  }

  ghost predicate AllOwn(x: Conn) { OwnRows(x) && HoldsOwn(x) }

  /** The next answer of the connection is taken when the row of that question is marked, and its
      statements work. */
  predicate Timely(s: State, a: Action, c: string) {
    && (a.Record? && a.c == c ==> a.ok)
    && (a.Take? && a.c == c && c in s.conns ==> a.ok && IsMarked(s.conns[c], |s.conns[c].answers|))
  }

  ghost predicate TimelyRun(s: State, acts: seq<Action>, c: string)
    decreases |acts|
  {
    acts != [] ==>
      ValidTable(s.t) && Enabled(s, acts[0]) && Timely(s, acts[0], c) && TimelyRun(Apply(s, acts[0]), acts[1..], c)
  }

  lemma PopIff(x: Conn, k: nat, text: string)
    requires AllOwn(x) && x.qa.Waiting?
    ensures var n := |x.outcomes|;
      AllOwn(x.(answers := x.answers + [text], qa := Popped(k, text))) <==> n < |x.mine| && x.mine[n] == k
  {
  }

  lemma DropIsNotOwn(x: Conn, x': Conn, o: Outcome)
    requires x'.outcomes == x.outcomes + [o] && !o.Answers?
    ensures !OwnRows(x')
  {
    assert x'.outcomes[|x.outcomes|] == o;
  }

  lemma TakeIff(t: Table, c: string, x: Conn, text: string, ok: bool)
    requires ValidTable(t) && ConnOk(t, c, x) && AllOwn(x) && x.qa.Waiting?
    ensures AllOwn(TakeAnswer(t, c, x, text, ok)) <==> ok && IsMarked(x, |x.answers|)
  {
    var n, x' := |x.outcomes|, TakeAnswer(t, c, x, text, ok);
    OldestIsFirstUndone(t, c, x);
    NextUndone(t, c, x);
    assert |x.answers| == n;
    if !ok {
      DropIsNotOwn(x, x', PopFailed);
    } else if n < |x.marked| {
      PopIff(x, x.marked[n], text);
    } else {
      DropIsNotOwn(x, x', NoRow);
    }
  }

  lemma RecordIff(x: Conn, ok: bool)
    requires AllOwn(x) && x.qa.Popped?
    ensures AllOwn(AfterRecord(x, ok)) <==> ok
  {
    var n, x' := |x.outcomes|, AfterRecord(x, ok);
    assert x'.outcomes[n] == if ok then Answers(x.mine[n]) else Unrecorded(x.mine[n]);
  }

  // What the other steps leave of a connection.
  ghost predicate SameAnswers(x: Conn, x': Conn) {
    x.mine <= x'.mine && x'.outcomes == x.outcomes && InHand(x'.qa) == InHand(x.qa)
  }

  lemma OtherActsKeepAnswers(s: State, a: Action, c: string)
    requires ValidTable(s.t) && Enabled(s, a) && c in s.conns && !(Acts(a, c) && (a.Take? || a.Record?))
    ensures c in Apply(s, a).conns && SameAnswers(s.conns[c], Apply(s, a).conns[c])
    ensures s.conns[c].reader.Ended? ==> Apply(s, a).conns[c].mine == s.conns[c].mine
  {
    if !Acts(a, c) {
      BystandersKept(s, a, c);
    }
  }

  // Another row stays another row: new ones come behind.
  lemma AnotherRow(mine: seq<nat>, mine': seq<nat>, n: nat, k: nat)
    requires mine <= mine' && Increasing(mine') && k in mine
    ensures n < |mine'| && mine'[n] == k <==> n < |mine| && mine[n] == k
  {
    var q :| 0 <= q < |mine| && mine[q] == k;
    assert mine'[q] == k;
  }

  ghost predicate AnswersMine(x: Conn) {
    forall n :: 0 <= n < |x.outcomes| && x.outcomes[n].Answers? ==> x.outcomes[n].k in x.mine
  }

  lemma AnswersAreMine(t: Table, c: string, x: Conn)
    requires RowsOk(t, c, x) && HistoryOk(t, x)
    ensures AnswersMine(x)
  {
    forall n | 0 <= n < |x.outcomes| && x.outcomes[n].Answers? ensures x.outcomes[n].k in x.mine {
      assert x.outcomes[n].k in x.marked;
    }
  }

  lemma SameOutcomesOwn(x: Conn, x': Conn)
    requires AnswersMine(x) && SameAnswers(x, x') && Increasing(x'.mine)
    ensures OwnRows(x') <==> OwnRows(x)
  {
    if OwnRows(x') {
      forall n | 0 <= n < |x.outcomes| ensures n < |x.mine| && x.outcomes[n] == Answers(x.mine[n]) {
        assert x'.outcomes[n].Answers?;
        AnotherRow(x.mine, x'.mine, n, x.outcomes[n].k);
      }
      assert x.outcomes != [] ==> x.outcomes[|x.outcomes| - 1].Answers?;
    }
  }

  lemma SameHandOwn(x: Conn, x': Conn)
    requires SameAnswers(x, x') && Increasing(x'.mine)
    requires InHand(x.qa).Some? ==> InHand(x.qa).value in x.mine || x'.mine == x.mine
    ensures HoldsOwn(x') <==> HoldsOwn(x)
  {
    if InHand(x.qa).Some? && InHand(x.qa).value in x.mine {
      AnotherRow(x.mine, x'.mine, |x.outcomes|, InHand(x.qa).value);
    }
  }

  lemma SameAnswersSameOwn(x: Conn, x': Conn)
    requires AnswersMine(x) && SameAnswers(x, x') && Increasing(x'.mine)
    requires InHand(x.qa).Some? ==> InHand(x.qa).value in x.mine || x'.mine == x.mine
    ensures AllOwn(x') <==> AllOwn(x)
  {
    SameOutcomesOwn(x, x');
    SameHandOwn(x, x');
  }

  lemma HandOk(t: Table, c: string, x: Conn)
    requires ConnOk(t, c, x) && InHand(x.qa).Some?
    ensures x.reader.Ended? || InHand(x.qa).value in x.mine
  {
    if x.qa.Popped? {
      assert x.marked[Recordings(x.outcomes)] in x.marked;
    }
  }

  lemma OtherActsIff(s: State, a: Action, c: string)
    requires Inv(s) && Enabled(s, a) && c in s.conns && !(Acts(a, c) && (a.Take? || a.Record?))
    ensures c in Apply(s, a).conns && (AllOwn(Apply(s, a).conns[c]) <==> AllOwn(s.conns[c]))
  {
    var x := s.conns[c];
    StepKeepsInv(s, a);
    OtherActsKeepAnswers(s, a, c);
    assert ConnOk(s.t, c, x) && ConnOk(Apply(s, a).t, c, Apply(s, a).conns[c]);
    if InHand(x.qa).Some? {
      HandOk(s.t, c, x);
    }
    AnswersAreMine(s.t, c, x);
    SameAnswersSameOwn(x, Apply(s, a).conns[c]);
  }

  lemma ActIff(s: State, a: Action, c: string)
    requires Inv(s) && Enabled(s, a) && c in s.conns && AllOwn(s.conns[c])
    ensures c in Apply(s, a).conns && (AllOwn(Apply(s, a).conns[c]) <==> Timely(s, a, c))
  {
    var x := s.conns[c];
    assert ConnOk(s.t, c, x);
    if Acts(a, c) && a.Take? {
      TakeIff(s.t, c, x, a.text, a.ok);
    } else if Acts(a, c) && a.Record? {
      RecordIff(x, a.ok);
    } else {
      OtherActsIff(s, a, c);
    }
  }

  lemma WrongOutcomeStays(x: Conn, x': Conn)
    requires x.outcomes <= x'.outcomes && x.mine == x'.mine && !OwnRows(x)
    ensures !OwnRows(x')
  {
    if |x.outcomes| <= |x.mine| {
      var n :| 0 <= n < |x.outcomes| && x.outcomes[n] != Answers(x.mine[n]);
      assert x'.outcomes[n] == x.outcomes[n];
    }
  }

  // An answer on the wrong row stays there.
  lemma NotOwnStays(s: State, a: Action, c: string)
    requires Inv(s) && Enabled(s, a) && c in s.conns && !AllOwn(s.conns[c])
    ensures c in Apply(s, a).conns && !AllOwn(Apply(s, a).conns[c])
  {
    var x := s.conns[c];
    if Acts(a, c) && (a.Take? || a.Record?) {
      var x' := Apply(s, a).conns[c];
      if !OwnRows(x) {
        WrongOutcomeStays(x, x');
      } else {
        assert x'.outcomes[|x.outcomes|] == if a.ok then Answers(x.qa.k) else Unrecorded(x.qa.k);
      }
    } else {
      OtherActsIff(s, a, c);
    }
  }

  lemma {:induction false} WrongStays(s: State, acts: seq<Action>, s': State, c: string)
    requires Inv(s) && Runs(s, acts, s') && c in s.conns && !AllOwn(s.conns[c])
    ensures c in s'.conns && !AllOwn(s'.conns[c])
    decreases |acts|
  {
    if acts != [] {
      StepKeepsInv(s, acts[0]);
      NotOwnStays(s, acts[0], c);
      WrongStays(Apply(s, acts[0]), acts[1..], s', c);
    }
  }

  lemma FirstActIff(s: State, a: Action, c: string)
    requires Inv(s) && Enabled(s, a) && (c in s.conns ==> AllOwn(s.conns[c]))
    ensures Inv(Apply(s, a))
    ensures c in Apply(s, a).conns ==> (AllOwn(Apply(s, a).conns[c]) <==> Timely(s, a, c))
    ensures c !in Apply(s, a).conns ==> Timely(s, a, c)
  {
    StepKeepsInv(s, a);
    if c in s.conns {
      ActIff(s, a, c);
    }
  }

  /** Whatever befalls other connections: every answer of this one is recorded on, or held for, the
      row of its own question exactly when each was taken after that row was marked and its own
      statements worked. */
  lemma {:induction false} AllOwnIffTimely(s: State, acts: seq<Action>, s': State, c: string)
    requires Inv(s) && Runs(s, acts, s') && c in s'.conns
    requires c in s.conns ==> AllOwn(s.conns[c])
    ensures AllOwn(s'.conns[c]) <==> TimelyRun(s, acts, c)
    decreases |acts|
  {
    if acts != [] {
      var m := Apply(s, acts[0]);
      FirstActIff(s, acts[0], c);
      if c in m.conns && !AllOwn(m.conns[c]) {
        WrongStays(m, acts[1..], s', c);
      } else {
        AllOwnIffTimely(m, acts[1..], s', c);
      }
    }
  }

  lemma FrameInOrder(t: Table, x: Conn, i: nat)
    requires FramesOk(t, x) && OwnRows(x) && i < |x.frames|
    ensures i < |x.mine| && i < |x.answers| && x.mine[i] in t.rows
    ensures x.frames[i] == AFrame(x.mine[i], t.rows[x.mine[i]].qid, x.answers[i])
  {
    var sent, due := Sends(x.frames), Deliveries(x.outcomes, x.answers);
    DeliveriesInOrder(x.outcomes, x.answers, x.mine);
    assert sent[i] == due[i];
    assert x.frames[i] in x.frames;
  }

  /** Then the `a` frames leave in question order: frame i names question i and carries answer i. */
  lemma FramesFollowQuestions(s: State, c: string, i: nat)
    requires Reachable(s) && c in s.conns && OwnRows(s.conns[c])
    requires i < |s.conns[c].frames|
    ensures var x := s.conns[c];
      && i < |x.mine| && i < |x.answers| && x.mine[i] in s.t.rows
      && x.frames[i] == AFrame(x.mine[i], s.t.rows[x.mine[i]].qid, x.answers[i])
  {
    ReachableInv(s);
    assert ConnOk(s.t, c, s.conns[c]);
    FrameInOrder(s.t, s.conns[c], i);
  }

  lemma {:induction false} DeliveriesInOrder(outcomes: seq<Outcome>, answers: seq<string>, rows: seq<nat>)
    requires |outcomes| <= |answers| && |outcomes| <= |rows|
    requires forall n :: 0 <= n < |outcomes| ==> outcomes[n] == Answers(rows[n])
    ensures |Deliveries(outcomes, answers)| == |outcomes|
    ensures forall n :: 0 <= n < |outcomes| ==> Deliveries(outcomes, answers)[n] == (rows[n], answers[n])
  {
    if outcomes != [] {
      var m := |outcomes| - 1;
      DeliveriesInOrder(outcomes[..m], answers[..m], rows[..m]);
    }
  }
  // ---------- runs on which the pairing goes wrong ----------

  function Question(qid: string): Row {
    NewRow("c", qid, "about " + qid, "t", None, 6 + |qid|, 0, 0)
  }

  // The client asks; the reader gets as far as the "\r" frame.
  lemma Ask(s: State, k: nat, qid: string) returns (s': State)
    requires Reachable(s) && ValidTable(s.t) && "c" in s.conns && s.conns["c"].reader.Idle? && s.t.next <= k
    ensures Reachable(s') && ValidTable(s'.t)
    ensures s' == State(Insert(s.t, k, Question(qid)),
                        s.conns["c" := s.conns["c"].(reader := EnterSent(k), mine := s.conns["c"].mine + [k])])
  {
    s' := Then(s, Accept("c", k, Question(qid)));
    s' := Then(s', SendBody("c", true, true));
    s' := Then(s', SendEnter("c", true, true));
  }

  // An answer arrives, is paired with `k`, recorded if `ok`, and forwarded.
  lemma Answer(s: State, text: string, k: nat, ok: bool) returns (s': State)
    requires Reachable(s) && ValidTable(s.t) && "c" in s.conns && s.conns["c"].qa.Waiting?
    requires OldestSent(s.t, "c") == Some(k)
    ensures Reachable(s') && ValidTable(s'.t)
    ensures var x := s.conns["c"];
      s' == State(if ok then MarkAnswered(s.t, k, text) else s.t,
                  s.conns["c" := x.(answers := x.answers + [text],
                                    outcomes := x.outcomes + [if ok then Answers(k) else Unrecorded(k)],
                                    frames := x.frames + [AFrame(k, s.t.rows[k].qid, text)])])
  {
    s' := Then(s, Take("c", text, true));
    s' := Then(s', Record("c", ok));
    s' := Then(s', Forward("c"));
  }

  // Connection "c" is open and q0 has been typed into the session as row 0.
  lemma FirstQuestionAsked() returns (s: State)
    ensures Reachable(s) && ValidTable(s.t)
    ensures s == State(Table(map[0 := Question("q0")], 1), map["c" := NEW_CONN.(reader := EnterSent(0), mine := [0])])
  {
    s := State(Table(map[], 0), map[]);
    assert Runs(s, [], s);
    s := Then(s, Open("c"));
    s := Ask(s, 0, "q0");
    assert NEW_CONN.mine + [0] == [0];
    assert s.t.rows == map[0 := Question("q0")];
  }

  /** A fast first answer is discarded, and the client is told that q0 has the answer to q1
      while the row of q1 waits. */
  lemma FastAnswerShiftsPairing() returns (s: State)
    ensures Reachable(s) && "c" in s.conns && 1 in s.t.rows
    ensures s.conns["c"].frames == [AFrame(0, "q0", "answer to q1")]
    ensures s.conns["c"].answers == ["answer to q0", "answer to q1"] && s.t.rows[1].status == Sent
  {
    s := FirstQuestionAsked();
    assert OldestSent(s.t, "c") == None;
    s := Then(s, Take("c", "answer to q0", true));
    s := Then(s, MarkSent("c", true));
    s := Ask(s, 1, "q1");
    s := Then(s, MarkSent("c", true));
    assert IsSentOf(s.t, "c", 0);
    s := Answer(s, "answer to q1", 0, true);
  }

  /** When recording an answer fails, the row stays 'sent' and the next answer goes out under
      the same question: the client gets two `a` frames for q0 and none for q1. */
  lemma LostRecordRepeatsQuestion() returns (s: State)
    ensures Reachable(s) && "c" in s.conns && 1 in s.t.rows
    ensures s.conns["c"].frames == [AFrame(0, "q0", "answer to q0"), AFrame(0, "q0", "answer to q1")]
    ensures s.t.rows[1].status == Sent
  {
    s := FirstQuestionAsked();
    s := Then(s, MarkSent("c", true));
    s := Ask(s, 1, "q1");
    s := Then(s, MarkSent("c", true));
    assert IsSentOf(s.t, "c", 0);
    s := Answer(s, "answer to q0", 0, false);
    assert IsSentOf(s.t, "c", 0);
    s := Answer(s, "answer to q1", 0, true);
  }

  /** When a 'sent' update fails, the code goes on and the row is never found again: the next
      question gets the answer, although the answer came when a marked row was waiting. Nothing is
      missed, and q1 has the answer to q0. */
  lemma LostMarkShifts() returns (s: State)
    ensures Reachable(s) && "c" in s.conns && 0 in s.t.rows && 1 in s.t.rows
    ensures var x := s.conns["c"];
      && x.mine == [0, 1] && x.answers == ["answer to q0"] && x.outcomes == [Answers(1)]
      && x.frames == [AFrame(1, "q1", "answer to q0")]
      && Missed(x.outcomes) == 0 && PairedInOrder(x) && !OwnRows(x)
    ensures s.t.rows[0].status == Pending && s.t.rows[1].answer == Some("answer to q0")
  {
    s := FirstQuestionAsked();
    s := Then(s, MarkSent("c", false));
    s := Ask(s, 1, "q1");
    s := Then(s, MarkSent("c", true));
    assert IsSentOf(s.t, "c", 1);
    s := Answer(s, "answer to q0", 1, true);
    NoneMissed(s.conns["c"].outcomes);
  }
}
