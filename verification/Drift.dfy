/** How far answers drift in any run of both processes: every loss on the way is counted. */
module Drift {
  import opened Wrappers
  import opened ChatTable
  import opened ChatMachine
  import opened ChatProperties
  import opened EndToEnd
  import J = JsonSession

  // ---------- where each result went ----------

  ghost predicate InEvents(w: Worker, from: nat, input: nat) {
    exists e :: from <= e < |w.events| && w.events[e].input == input
  }

  // Answers come in input order, and each is claude's result for the input it is kept with.
  ghost predicate ProvenanceOk(x: Conn, w: Worker) {
    && |w.origin| == |x.answers| && w.taken <= |w.events| && Increasing(w.origin)
    && (forall e :: 0 <= e < |w.events| ==> w.events[e].input < w.results)
    && (forall d, e :: 0 <= d < e < |w.events| ==> w.events[d].input < w.events[e].input)
    && (forall n, e :: 0 <= n < |w.origin| && w.taken <= e < |w.events| ==> w.origin[n] < w.events[e].input)
    && (forall n :: 0 <= n < |w.origin| ==> Event(x.answers[n], w.origin[n]) in w.events && w.origin[n] < w.results)
  }

  /** Every input that has its result was answered, or lost, or waits in the channel, and only one
      of these. */
  ghost predicate LedgerOk(w: Worker) {
    && w.taken <= |w.events|
    && (forall m <- w.lost :: m < w.results && m !in w.origin && !InEvents(w, w.taken, m))
    && (forall m: nat :: m < w.results && m !in w.lost && m !in w.origin ==> InEvents(w, w.taken, m))
  }

  lemma ResultKeepsProvenance(x: Conn, w: Worker, ok: bool, text: string)
    requires ProvenanceOk(x, w)
    ensures ProvenanceOk(x, Finished(w, ok, text))
  {
  }

  lemma ResultKeepsLedger(x: Conn, w: Worker, ok: bool, text: string)
    requires ProvenanceOk(x, w) && LedgerOk(w)
    ensures LedgerOk(Finished(w, ok, text))
  {
    var w' := Finished(w, ok, text);
    if ok {
      assert w'.events[|w.events|].input == w.results;
    }
    forall m: nat | InEvents(w, w.taken, m) ensures InEvents(w', w'.taken, m) {
      var e :| w.taken <= e < |w.events| && w.events[e].input == m;
      assert w'.events[e] == w.events[e];
    }
  }

  function Took(w: Worker): Worker
    requires w.taken < |w.events|
  {
    w.(taken := w.taken + 1, origin := w.origin + [w.events[w.taken].input])
  }

  function Skipped(w: Worker): Worker
    requires w.taken < |w.events|
  {
    w.(taken := w.taken + 1, lost := w.lost + {w.events[w.taken].input})
  }

  lemma TakeKeepsProvenance(x: Conn, x': Conn, w: Worker)
    requires ProvenanceOk(x, w) && w.taken < |w.events|
    requires x'.answers == x.answers + [w.events[w.taken].text]
    ensures ProvenanceOk(x', Took(w))
  {
  }

  // The first waiting event leaves the channel; the others stay.
  lemma NextLeaves(x: Conn, w: Worker, w': Worker)
    requires ProvenanceOk(x, w) && w.taken < |w.events| && w'.events == w.events && w'.taken == w.taken + 1
    ensures forall m: nat :: InEvents(w, w.taken, m) <==> m == w.events[w.taken].input || InEvents(w', w'.taken, m)
    ensures !InEvents(w', w'.taken, w.events[w.taken].input)
  {
    forall m: nat | InEvents(w, w.taken, m) ensures m == w.events[w.taken].input || InEvents(w', w'.taken, m) {
      var e :| w.taken <= e < |w.events| && w.events[e].input == m;
    }
    forall m: nat | InEvents(w', w'.taken, m) ensures InEvents(w, w.taken, m) {
      var e :| w'.taken <= e < |w'.events| && w'.events[e].input == m;
    }
  }

  lemma NextKeepsLedger(x: Conn, w: Worker)
    requires ProvenanceOk(x, w) && LedgerOk(w) && w.taken < |w.events|
    ensures LedgerOk(Took(w)) && LedgerOk(Skipped(w))
  {
    NextLeaves(x, w, Took(w));
    NextLeaves(x, w, Skipped(w));
    assert InEvents(w, w.taken, w.events[w.taken].input);
  }

  ghost predicate SameHistory(x: Conn, x': Conn, w: Worker, w': Worker) {
    x'.answers == x.answers && w'.events == w.events && w'.results == w.results
    && w'.taken == w.taken && w'.origin == w.origin && w'.lost == w.lost
  }

  lemma OtherMovesKeepHistory(s: Sys, mv: Move, c: string)
    requires ValidTable(s.m.t) && CanMove(s, mv) && mv != Manager(Open(c)) && c in s.w && c in s.m.conns
    requires !(mv.Result? && mv.c == c) && mv != Lag(c) && !(mv.Manager? && mv.a.Take? && mv.a.c == c)
    ensures c in After(s, mv).w && c in After(s, mv).m.conns
    ensures SameHistory(s.m.conns[c], After(s, mv).m.conns[c], s.w[c], After(s, mv).w[c])
  {
    if mv.Manager? && !Acts(mv.a, c) {
      BystandersKept(s.m, mv.a, c);
      EffectOnOthers(s, mv.a, c);
    }
  }

  ghost predicate HistoryKept(x: Conn, w: Worker) { ProvenanceOk(x, w) && LedgerOk(w) }

  lemma TakeKeepsHistory(s: Sys, a: Action)
    requires ValidTable(s.m.t) && CanMove(s, Manager(a)) && a.Take? && HistoryKept(s.m.conns[a.c], s.w[a.c])
    ensures a.c in After(s, Manager(a)).w && a.c in After(s, Manager(a)).m.conns
    ensures HistoryKept(After(s, Manager(a)).m.conns[a.c], After(s, Manager(a)).w[a.c])
  {
    var x, w := s.m.conns[a.c], s.w[a.c];
    TakeKeepsProvenance(x, After(s, Manager(a)).m.conns[a.c], w);
    NextKeepsLedger(x, w);
  }

  lemma MoveKeepsHistory(s: Sys, mv: Move, c: string)
    requires ValidTable(s.m.t) && CanMove(s, mv) && mv != Manager(Open(c)) && c in s.w && c in s.m.conns
    requires HistoryKept(s.m.conns[c], s.w[c])
    ensures c in After(s, mv).w && c in After(s, mv).m.conns
    ensures HistoryKept(After(s, mv).m.conns[c], After(s, mv).w[c])
  {
    var x, w := s.m.conns[c], s.w[c];
    if mv.Manager? && mv.a.Take? && mv.a.c == c {
      TakeKeepsHistory(s, mv.a);
    } else if mv.Result? && mv.c == c {
      ResultKeepsProvenance(x, w, mv.ok, mv.text);
      ResultKeepsLedger(x, w, mv.ok, mv.text);
    } else if mv == Lag(c) {
      NextKeepsLedger(x, w);
    } else {
      OtherMovesKeepHistory(s, mv, c);
      SameLedger(x, After(s, mv).m.conns[c], w, After(s, mv).w[c]);
    }
  }

  lemma SameLedger(x: Conn, x': Conn, w: Worker, w': Worker)
    requires HistoryKept(x, w) && SameHistory(x, x', w, w')
    ensures HistoryKept(x', w')
  {
    assert forall m: nat :: InEvents(w', w'.taken, m) <==> InEvents(w, w.taken, m);
  }

  ghost predicate AllHistoryKept(s: Sys) {
    && ValidTable(s.m.t) && s.w.Keys == s.m.conns.Keys
    && forall c <- s.w :: HistoryKept(s.m.conns[c], s.w[c])
  }

  lemma {:induction false} RunKeepsHistory(s: Sys, moves: seq<Move>, s': Sys)
    requires AllHistoryKept(s) && RunsTo(s, moves, s')
    ensures AllHistoryKept(s')
    decreases |moves|
  {
    if moves != [] {
      var m := After(s, moves[0]);
      SameConnections(s, moves[0]);
      forall c | c in m.w ensures HistoryKept(m.m.conns[c], m.w[c]) {
        if c in s.w {
          MoveKeepsHistory(s, moves[0], c);
        }
      }
      TablesStayValid(s, moves[0]);
      RunKeepsHistory(m, moves[1..], s');
    }
  }

  // ---------- counting what is missing from an increasing sequence ----------

  function UpTo(n: nat): (r: set<nat>)
    ensures forall m: nat :: m in r <==> m < n
    ensures |r| == n
  {
    if n == 0 then {} else UpTo(n - 1) + {n - 1}
  }

  function Elements(o: seq<nat>): set<nat> { set m | m in o }

  lemma {:induction false} SizeOfElements(o: seq<nat>)
    requires Increasing(o)
    ensures |Elements(o)| == |o|
  {
    if o == [] {
      assert Elements(o) == {};
    } else {
      var n := |o| - 1;
      SizeOfElements(o[..n]);
      assert o[n] !in o[..n];
      assert Elements(o) == Elements(o[..n]) + {o[n]};
    }
  }

  function Below(gone: set<nat>, n: nat): set<nat> { set m | m in gone && m < n }

  /** If what an increasing sequence leaves out below its n-th element is `gone`, that element is
      n plus the number of those. */
  lemma GapsCounted(o: seq<nat>, gone: set<nat>, n: nat)
    requires Increasing(o) && n < |o| && forall m: nat :: m < o[n] ==> (m in gone <==> m !in o)
    ensures o[n] == n + |Below(gone, o[n])|
  {
    var taken := Elements(o[..n]);
    SizeOfElements(o[..n]);
    forall m: nat | m < o[n] ensures m in o <==> m in o[..n] { }
    forall m | m in taken ensures m < o[n] && m !in gone { }
    assert UpTo(o[n]) == taken + Below(gone, o[n]);
    assert taken !! Below(gone, o[n]);
  }

  // Submissions that never reached claude.
  function Unsent(w: Worker): set<nat> {
    set m: nat | m < |w.asked| && m !in w.reached
  }

  // ---------- the law ----------

  lemma OriginCounted(x: Conn, w: Worker, n: nat)
    requires HistoryKept(x, w) && n < |w.origin|
    ensures w.origin[n] == n + |Below(w.lost, w.origin[n])|
  {
    assert forall m: nat :: m < w.origin[n] ==> !InEvents(w, w.taken, m);
    GapsCounted(w.origin, w.lost, n);
  }

  lemma ReachedCounted(w: Worker, m: nat)
    requires StdinOk(w) && m < |w.stdin|
    ensures w.reached[m] == m + |Below(Unsent(w), w.reached[m])|
  {
    GapsCounted(w.reached, Unsent(w), m);
  }

  // What is known of a connection at the end of any run.
  lemma AtTheEnd(s0: Sys, moves: seq<Move>, s: Sys, c: string)
    requires Start(s0) && RunsTo(s0, moves, s) && c in s.w && c in s.m.conns
    ensures HistoryKept(s.m.conns[c], s.w[c]) && LinkOk(s.m.t, s.m.conns[c], s.w[c])
    ensures ConnOk(s.m.t, c, s.m.conns[c]) && Reachable(s.m)
  {
    ManagerRun(s0, moves, s);
    RunKeepsHistory(s0, moves, s);
    assert SysInv(s0);
    RunKeepsSysInv(s0, moves, s);
  }

  /** The questions among the first q whose row never became 'sent'. */
  function Unmarked(mine: seq<nat>, marked: seq<nat>): nat {
    if mine == [] then 0
    else
      var n := |mine| - 1;
      Unmarked(mine[..n], marked) + if mine[n] in marked then 0 else 1
  }

  // The first i marked rows are those marked among the first q questions.
  ghost predicate Reaches(mine: seq<nat>, marked: seq<nat>, q: nat, i: nat) {
    && q <= |mine| && i <= |marked|
    && (forall j :: 0 <= j < i ==> marked[j] in mine[..q])
    && (forall j :: i <= j < |marked| ==> marked[j] !in mine[..q])
  }

  lemma ReachesBefore(mine: seq<nat>, marked: seq<nat>, q: nat, i: nat)
    requires Increasing(mine) && Increasing(marked) && 0 < q && Reaches(mine, marked, q, i)
    ensures mine[q - 1] in marked ==> 0 < i && Reaches(mine, marked, q - 1, i - 1)
    ensures mine[q - 1] !in marked ==> Reaches(mine, marked, q - 1, i)
  {
    var k := mine[q - 1];
    forall m: nat ensures m in mine[..q] <==> m in mine[..q - 1] || m == k {
      assert mine[..q] == mine[..q - 1] + [k];
    }
    if k in marked {
      var j :| 0 <= j < |marked| && marked[j] == k;
      assert j < i;
      assert marked[i - 1] in mine[..q];
    }
  }

  lemma {:induction false} MarkedCounted(mine: seq<nat>, marked: seq<nat>, q: nat, i: nat)
    requires Increasing(mine) && Increasing(marked) && Reaches(mine, marked, q, i)
    ensures q == i + Unmarked(mine[..q], marked)
    decreases q
  {
    if q > 0 {
      ReachesBefore(mine, marked, q, i);
      assert mine[..q][..q - 1] == mine[..q - 1];
      MarkedCounted(mine, marked, q - 1, if mine[q - 1] in marked then i - 1 else i);
    } else {
      assert marked != [] ==> marked[0] !in mine[..q];
    }
  }

  lemma ReachesAt(mine: seq<nat>, marked: seq<nat>, q: nat, i: nat)
    requires Increasing(mine) && Increasing(marked) && (forall k <- marked :: k in mine)
    requires q < |mine| && i < |marked| && mine[q] == marked[i]
    ensures Reaches(mine, marked, q, i)
  {
    forall j | 0 <= j < i ensures marked[j] in mine[..q] {
      assert marked[j] in mine;
      var r :| 0 <= r < |mine| && mine[r] == marked[j];
      assert mine[..q][r] == marked[j];
    }
  }

  lemma MarkedIsMine(t: Table, c: string, x: Conn, i: nat) returns (q: nat)
    requires ConnOk(t, c, x) && i < |x.marked|
    ensures q < |x.mine| && x.mine[q] == x.marked[i] && Increasing(x.mine)
    ensures q == i + Unmarked(x.mine[..q], x.marked)
  {
    assert x.marked[i] in x.mine;
    q :| 0 <= q < |x.mine| && x.mine[q] == x.marked[i];
    ReachesAt(x.mine, x.marked, q, i);
    MarkedCounted(x.mine, x.marked, q, i);
  }

  // Input m is submission p, which comes from question Owners(texts)[p].
  lemma InputTraced(t: Table, x: Conn, w: Worker, m: nat) returns (p: nat)
    requires LinkOk(t, x, w) && m < |w.stdin|
    ensures var texts := Texts(t, x.mine);
      && p == m + |Below(Unsent(w), p)| && p < |Owners(texts)|
      && w.stdin[m] in J.Submissions(texts[Owners(texts)[p]])
  {
    p := w.reached[m];
    var texts := Texts(t, x.mine);
    ReachedCounted(w, m);
    AskedIsPrefix(texts, w);
    OwnerSubmits(texts, p);
  }

  lemma AnswerTraced(t: Table, x: Conn, w: Worker, n: nat) returns (event: Event)
    requires HistoryKept(x, w) && LinkOk(t, x, w) && n < |x.answers|
    ensures event in w.events && event.text == x.answers[n] && event.input < w.results <= |w.stdin|
    ensures event.input == n + |Below(w.lost, event.input)|
  {
    event := Event(x.answers[n], w.origin[n]);
    OriginCounted(x, w, n);
  }

  /** In every run of both processes, whatever is missed, lost, skipped or refused: the i-th row
      that leaves the queue is that of question q = i + unmarked and holds claude's result for
      submission p = i + missed + lost + unsent. These count the questions whose 'sent' update was
      lost, the answers that were recorded on no row, the inputs whose result failed or was skipped,
      and the submissions that claude never got, each before this one. Submission p comes from
      question Owners(texts)[p], and that is q exactly when p falls to q. */
  lemma ExactDrift(s0: Sys, moves: seq<Move>, s: Sys, c: string, i: nat)
    returns (n: nat, event: Event, p: nat, q: nat)
    requires Start(s0) && RunsTo(s0, moves, s) && c in s.w && c in s.m.conns
    requires i < Recordings(s.m.conns[c].outcomes)
    ensures var x, w := s.m.conns[c], s.w[c];
      && i < |x.marked| && q < |x.mine| && x.mine[q] == x.marked[i]
      && x.mine[q] in s.m.t.rows && s.m.t.rows[x.mine[q]].answer == Some(event.text)
      && event in w.events && event.input < w.results <= |w.stdin| && n < |x.outcomes|
      && q == i + Unmarked(x.mine[..q], x.marked)
      && n == i + Missed(x.outcomes[..n])
      && event.input == n + |Below(w.lost, event.input)|
      && p == event.input + |Below(Unsent(w), p)|
    ensures var x, w := s.m.conns[c], s.w[c];
      && (forall k <- x.mine :: k in s.m.t.rows)
      && var texts := Texts(s.m.t, x.mine);
         && p < |Owners(texts)| && w.stdin[event.input] in J.Submissions(texts[Owners(texts)[p]])
         && (x.mine[Owners(texts)[p]] == x.marked[i] <==> FallsTo(texts, p, q))
  {
    AtTheEnd(s0, moves, s, c);
    n := DriftLaw(s.m, c, i);
    event := AnswerTraced(s.m.t, s.m.conns[c], s.w[c], n);
    p := InputTraced(s.m.t, s.m.conns[c], s.w[c], event.input);
    q := MarkedIsMine(s.m.t, c, s.m.conns[c], i);
    OwnerIff(Texts(s.m.t, s.m.conns[c].mine), p, q);
  }
}
