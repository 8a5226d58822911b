/** Placing sessions on backends. A backend is picked under the lock, the worker is called without
    it, and the session is recorded under the lock again, so that several opens may be on their
    way at once. */
module Scheduler {
  import opened Lists
  import opened Wrappers

  type Port = nat

  datatype State = State(
    ports: set<Port>,
    sessions: map<string, Port>,
    owners: map<string, string>,
    pending: seq<Port>)          // picked, and waiting for the worker's reply

  datatype Action =
    | Pick(port: Port)
    | Commit(i: nat, sid: string, user: string)
    | Fail(i: nat)
    | Close(sid: string)

  function OnPort(sessions: map<string, Port>, p: Port): set<string> {
    set sid | sid in sessions && sessions[sid] == p
  }

  function Load(sessions: map<string, Port>, p: Port): nat { |OnPort(sessions, p)| }

  function InFlight(s: State, p: Port): nat { multiset(s.pending)[p] }

  // Any backend with the fewest recorded sessions, ties broken in any way.
  ghost predicate LeastLoaded(ports: set<Port>, sessions: map<string, Port>, p: Port) {
    p in ports && forall q <- ports :: Load(sessions, p) <= Load(sessions, q)
  }

  ghost predicate Enabled(s: State, a: Action) {
    match a
    case Pick(p) => LeastLoaded(s.ports, s.sessions, p)
    case Commit(i, _, _) => i < |s.pending|
    case Fail(i) => i < |s.pending|
    case Close(sid) => sid in s.sessions
  }

  function Step(s: State, a: Action): State {
    match a
    case Pick(p) => s.(pending := s.pending + [p])
    case Commit(i, sid, user) =>
      if i < |s.pending| then
        s.(sessions := s.sessions[sid := s.pending[i]], owners := s.owners[sid := user],
           pending := Without(s.pending, i))
      else s
    case Fail(i) => if i < |s.pending| then s.(pending := Without(s.pending, i)) else s
    case Close(sid) => s.(sessions := s.sessions - {sid}, owners := s.owners - {sid})
  }

  // ---------- the manager ----------

  class ManagerState {
    var instancePorts: seq<Port>
    var sessionToPort: map<string, Port>
    var sessionToOwner: map<string, string>

    // Configured backends, and any that a session is recorded on.
    function Candidates(): set<Port>
      reads this
    {
      (set p | p in instancePorts) + sessionToPort.Values
    }

    // The manager together with the opens that wait for a worker.
    ghost function Now(opening: seq<Port>): State
      reads this
    {
      State((set p | p in instancePorts), sessionToPort, sessionToOwner, opening)
    }

    method CountLoads() returns (counts: map<Port, nat>)
      ensures Counted(counts, (set p | p in instancePorts), sessionToPort)
    {
      counts := map p | p in instancePorts :: 0;
      assert forall p :: OnPort(map[], p) == {};
      var todo := sessionToPort.Keys;
      ghost var ports := set p | p in instancePorts;
      ghost var seen: map<string, Port> := map[];
      while todo != {}
        invariant todo <= sessionToPort.Keys && seen.Keys == sessionToPort.Keys - todo
        invariant forall sid <- seen :: seen[sid] == sessionToPort[sid]
        invariant Counted(counts, ports, seen)
        decreases |todo|
      {
        var sid :| sid in todo;
        var p := sessionToPort[sid];
        CountedMore(counts, ports, seen, sid, p);
        counts := counts[p := (if p in counts then counts[p] else 0) + 1];
        seen := seen[sid := p];
        todo := todo - {sid};
      }
      assert seen == sessionToPort;
    }

    /** Some backend with the fewest sessions; none only if there is no backend at all. */
    method PickLeastLoadedPort() returns (r: Option<Port>)
      ensures r.None? <==> Candidates() == {}
      ensures r.Some? ==> LeastLoaded(Candidates(), sessionToPort, r.value)
      ensures r.Some? ==> forall opening :: Placed(Now(opening)) ==> Enabled(Now(opening), Pick(r.value))
    {
      var counts := CountLoads();
      r := None;
      var todo := counts.Keys;
      while todo != {}
        invariant todo <= counts.Keys
        invariant r.None? <==> todo == counts.Keys
        invariant r.Some? ==> r.value in counts && forall q <- counts :: q !in todo ==> counts[r.value] <= counts[q]
        decreases |todo|
      {
        var p :| p in todo;
        todo := todo - {p};
        if r.None? || counts[p] < counts[r.value] {
          r := Some(p);
        }
        assert p !in todo && p in counts.Keys;
      }
    }

    /** The end of an open: the i-th backend picked and not yet answered has opened `sid`. */
    method Record(sid: string, port: Port, user: string, ghost opening: seq<Port>, ghost i: nat)
      requires i < |opening| && opening[i] == port
      modifies this
      ensures Now(Without(opening, i)) == Step(old(Now(opening)), Commit(i, sid, user))
      ensures sid in sessionToPort && sessionToPort[sid] == port && sid in sessionToOwner && sessionToOwner[sid] == user
      ensures OthersKept(old(sessionToPort), sessionToPort, sid) && OthersKept(old(sessionToOwner), sessionToOwner, sid)
    {
      sessionToPort := sessionToPort[sid := port];
      sessionToOwner := sessionToOwner[sid := user];
    }

    /** A close, once the worker has been told. */
    method CmdClose(sid: string, ghost opening: seq<Port>) returns (ok: bool)
      modifies this
      ensures ok <==> Enabled(old(Now(opening)), Close(sid))
      ensures Now(opening) == if ok then Step(old(Now(opening)), Close(sid)) else old(Now(opening))
      ensures ok <==> sid in old(sessionToPort)
      ensures ok ==> sid !in sessionToPort && sid !in sessionToOwner
      ensures OthersKept(old(sessionToPort), sessionToPort, sid) && OthersKept(old(sessionToOwner), sessionToOwner, sid)
      ensures ok ==> forall q ::
        Load(sessionToPort, q) == Load(old(sessionToPort), q) - if q == old(sessionToPort)[sid] then 1 else 0
    {
      if sid in sessionToPort { RemovedLoad(sessionToPort, sid); }
      ok := sid in sessionToPort;
      if ok {
        sessionToPort := sessionToPort - {sid};
        sessionToOwner := sessionToOwner - {sid};
      }
    }
  }

  /** All other sessions are as they were. */
  ghost predicate OthersKept<V(!new)>(before: map<string, V>, after: map<string, V>, sid: string) {
    forall other :: other != sid ==>
      (other in after <==> other in before) && (other in before ==> after[other] == before[other])
  }

  // ---------- loads ----------

  lemma AddedLoad(sessions: map<string, Port>, sid: string, p: Port)
    requires sid !in sessions
    ensures forall q :: Load(sessions[sid := p], q) == Load(sessions, q) + if q == p then 1 else 0
  {
    forall q ensures Load(sessions[sid := p], q) == Load(sessions, q) + if q == p then 1 else 0 {
      AddedLoadAt(sessions, sid, p, q);
    }
  }

  lemma AddedLoadAt(sessions: map<string, Port>, sid: string, p: Port, q: Port)
    requires sid !in sessions
    ensures Load(sessions[sid := p], q) == Load(sessions, q) + if q == p then 1 else 0
  {
    var before, after := OnPort(sessions, q), OnPort(sessions[sid := p], q);
    assert sid !in before;
    if q == p {
      assert after == before + {sid};
    } else {
      assert after == before;
    }
  }

  lemma RemovedLoad(sessions: map<string, Port>, sid: string)
    requires sid in sessions
    ensures forall q :: Load(sessions - {sid}, q) == Load(sessions, q) - if q == sessions[sid] then 1 else 0
  {
    var rest := sessions - {sid};
    assert rest[sid := sessions[sid]] == sessions;
    AddedLoad(rest, sid, sessions[sid]);
  }

  /** Load counts the sessions of a backend: `sids` lists them once each. */
  lemma {:induction false} LoadCounts(sessions: map<string, Port>, p: Port, sids: seq<string>)
    requires forall i, j :: 0 <= i < j < |sids| ==> sids[i] != sids[j]
    requires forall sid :: sid in sids <==> sid in sessions && sessions[sid] == p
    ensures Load(sessions, p) == |sids|
  {
    if sids == [] {
      assert OnPort(sessions, p) == {};
    } else {
      var n := |sids| - 1;
      var sid := sids[n];
      assert sid in sids;
      forall x ensures x in sids[..n] <==> x in sessions - {sid} && sessions[x] == p {
        assert x in sids <==> x in sids[..n] || x == sid;
      }
      LoadCounts(sessions - {sid}, p, sids[..n]);
      RemovedLoad(sessions, sid);
    }
  }

  /** A session that is opened counts on its backend under its owner until it is closed; then
      every backend is as it was, and the next pick does not see it. */
  lemma OpenedThenClosed(s: State, i: nat, sid: string, user: string)
    requires Placed(s) && i < |s.pending| && sid !in s.sessions
    ensures var s1 := Step(s, Commit(i, sid, user));
            var s2 := Step(s1, Close(sid));
      && s1.sessions == s.sessions[sid := s.pending[i]] && s1.owners == s.owners[sid := user]
      && Enabled(s1, Close(sid)) && s2.sessions == s.sessions && s2.owners == s.owners
      && forall p :: LeastLoaded(s2.ports, s2.sessions, p) <==> LeastLoaded(s.ports, s.sessions, p)
  {
    assert sid !in s.owners;
  }

  lemma AddedValue(sessions: map<string, Port>, sid: string, p: Port)
    requires sid !in sessions
    ensures sessions[sid := p].Values == sessions.Values + {p}
  {
    var after := sessions[sid := p];
    assert sid in after && after[sid] == p;
    forall q | q in sessions.Values ensures q in after.Values {
      var k :| k in sessions && sessions[k] == q;
      assert k in after && after[k] == q;
    }
  }

  // Counts for `ports` and every backend in use.
  ghost predicate Counted(counts: map<Port, nat>, ports: set<Port>, sessions: map<string, Port>) {
    counts.Keys == ports + sessions.Values && forall p <- counts :: counts[p] == Load(sessions, p)
  }

  lemma CountedMore(counts: map<Port, nat>, ports: set<Port>, sessions: map<string, Port>, sid: string, p: Port)
    requires Counted(counts, ports, sessions) && sid !in sessions
    ensures Counted(counts[p := (if p in counts then counts[p] else 0) + 1], ports, sessions[sid := p])
  {
    AddedLoad(sessions, sid, p);
    AddedValue(sessions, sid, p);
    if p !in counts {
      NoneThere(sessions, p);
    }
  }

  lemma NoneThere(sessions: map<string, Port>, p: Port)
    requires p !in sessions.Values
    ensures Load(sessions, p) == 0
  {
    assert OnPort(sessions, p) == {};
  }

  lemma PendingChanged(s: State, i: nat)
    requires i < |s.pending|
    ensures forall q :: multiset(Without(s.pending, i))[q] == InFlight(s, q) - if q == s.pending[i] then 1 else 0
  {
    WithoutCounts(s.pending, i);
    assert s.pending[i] in multiset(s.pending);
  }

  /** An open is on its way to its backend from the pick until it is recorded or fails. */
  lemma OnItsWay(s: State, a: Action, q: Port)
    requires Enabled(s, a)
    ensures InFlight(Step(s, a), q) == InFlight(s, q)
            + (if a.Pick? && q == a.port then 1 else 0)
            - (if (a.Commit? || a.Fail?) && q == s.pending[a.i] then 1 else 0)
  {
    if a.Commit? || a.Fail? {
      PendingChanged(s, a.i);
    }
  }

  // ---------- the bound ----------

  /** No backend, counting what is on its way to it, is more than `m` ahead of another. */
  ghost predicate Balanced(s: State, m: nat) {
    forall p, q :: p in s.ports && q in s.ports ==> Load(s.sessions, p) + InFlight(s, p) <= Load(s.sessions, q) + m
  }

  ghost predicate Placed(s: State) {
    && (forall sid <- s.sessions :: s.sessions[sid] in s.ports)
    && (forall p <- s.pending :: p in s.ports)
    && s.sessions.Keys == s.owners.Keys
  }

  ghost predicate CanRun(s: State, acts: seq<Action>)
    decreases |acts|
  {
    acts == [] || (Enabled(s, acts[0]) && CanRun(Step(s, acts[0]), acts[1..]))
  }

  function Run(s: State, acts: seq<Action>): State
    decreases |acts|
  {
    if acts == [] then s else Run(Step(s, acts[0]), acts[1..])
  }

  // No session is closed, a new session has a new id, and at most `m` opens are on their way.
  ghost predicate Calm(s: State, a: Action, m: nat) {
    !a.Close? && (a.Commit? ==> a.sid !in s.sessions) && |Step(s, a).pending| <= m
  }

  ghost predicate CalmRun(s: State, acts: seq<Action>, m: nat)
    decreases |acts|
  {
    acts == [] || (Calm(s, acts[0], m) && CalmRun(Step(s, acts[0]), acts[1..], m))
  }

  function Start(ports: set<Port>): State { State(ports, map[], map[], []) }

  lemma StepKeepsPlaced(s: State, a: Action)
    requires Placed(s) && Enabled(s, a)
    ensures Placed(Step(s, a)) && Step(s, a).ports == s.ports
  {
    match a
    case Commit(i, sid, user) => WithoutMembers(s.pending, i);
    case Fail(i) => WithoutMembers(s.pending, i);
    case _ =>
  }

  lemma {:induction false} CountWithin(q: seq<Port>, p: Port)
    ensures multiset(q)[p] <= |q|
  {
    if q != [] {
      CountWithin(q[1..], p);
      assert q == [q[0]] + q[1..];
    }
  }

  lemma PickKeepsBalance(s: State, port: Port, m: nat)
    requires Balanced(s, m) && LeastLoaded(s.ports, s.sessions, port) && |s.pending| < m
    ensures Balanced(Step(s, Pick(port)), m)
  {
    var s' := Step(s, Pick(port));
    CountWithin(s'.pending, port);
    forall p, q | p in s.ports && q in s.ports
      ensures Load(s'.sessions, p) + InFlight(s', p) <= Load(s'.sessions, q) + m
    {
      assert InFlight(s', p) == InFlight(s, p) + if p == port then 1 else 0;
    }
  }

  lemma CommitKeepsBalance(s: State, i: nat, sid: string, user: string, m: nat)
    requires Balanced(s, m) && i < |s.pending| && sid !in s.sessions
    ensures Balanced(Step(s, Commit(i, sid, user)), m)
  {
    var s' := Step(s, Commit(i, sid, user));
    AddedLoad(s.sessions, sid, s.pending[i]);
    PendingChanged(s, i);
    forall p, q | p in s.ports && q in s.ports
      ensures Load(s'.sessions, p) + InFlight(s', p) <= Load(s'.sessions, q) + m
    {
      assert Load(s'.sessions, p) + InFlight(s', p) == Load(s.sessions, p) + InFlight(s, p);
    }
  }

  lemma StepKeepsBalance(s: State, a: Action, m: nat)
    requires Balanced(s, m) && Enabled(s, a) && Calm(s, a, m)
    ensures Balanced(Step(s, a), m)
  {
    match a
    case Pick(port) => PickKeepsBalance(s, port, m);
    case Commit(i, sid, user) => CommitKeepsBalance(s, i, sid, user, m);
    case Fail(i) => PendingChanged(s, i);
  }

  lemma {:induction false} RunKeepsBalance(s: State, acts: seq<Action>, m: nat)
    requires Placed(s) && Balanced(s, m) && CanRun(s, acts) && CalmRun(s, acts, m)
    ensures Placed(Run(s, acts)) && Balanced(Run(s, acts), m) && Run(s, acts).ports == s.ports
    decreases |acts|
  {
    if acts != [] {
      StepKeepsPlaced(s, acts[0]);
      StepKeepsBalance(s, acts[0], m);
      RunKeepsBalance(Step(s, acts[0]), acts[1..], m);
    }
  }

  /** From no sessions on, with at most `m` opens on their way at any time and none closed, the
      busiest backend is never more than `m` sessions ahead of the idlest. */
  lemma SkewAtMostConcurrency(ports: set<Port>, acts: seq<Action>, m: nat)
    requires CanRun(Start(ports), acts) && CalmRun(Start(ports), acts, m)
    ensures var s := Run(Start(ports), acts);
            forall p, q :: p in ports && q in ports ==> Load(s.sessions, p) <= Load(s.sessions, q) + m
  {
    assert forall p :: OnPort(map[], p) == {};
    RunKeepsBalance(Start(ports), acts, m);
    var s := Run(Start(ports), acts);
    forall p, q | p in ports && q in ports ensures Load(s.sessions, p) <= Load(s.sessions, q) + m {
      assert Load(s.sessions, p) + InFlight(s, p) <= Load(s.sessions, q) + m;
    }
  }

  /** Whatever is opened and closed, a session has a backend iff it has an owner, and only known
      backends are used. */
  lemma {:induction false} MapsAgree(s: State, acts: seq<Action>)
    requires Placed(s) && CanRun(s, acts)
    ensures Placed(Run(s, acts))
    decreases |acts|
  {
    if acts != [] {
      StepKeepsPlaced(s, acts[0]);
      MapsAgree(Step(s, acts[0]), acts[1..]);
    }
  }

  // ---------- the bound is reached ----------

  function Id(k: nat): string { seq(k, _ => 'x') }

  // `k` opens that all pick backend 0 before any of them is recorded.
  function Picks(k: nat): seq<Action> { seq(k, _ => Pick(0)) }

  function Commits(from: nat, k: nat): seq<Action>
    decreases k
  {
    if k == 0 then [] else [Commit(0, Id(from), "u")] + Commits(from + 1, k - 1)
  }

  ghost predicate AllOnZero(s: State, k: nat) {
    && s.ports == {0, 1}
    && (forall sid <- s.sessions :: s.sessions[sid] == 0 && |sid| < k)
    && (forall p <- s.pending :: p == 0)
  }

  lemma {:induction false} PicksRun(s: State, k: nat, m: nat)
    requires AllOnZero(s, 0) && |s.pending| + k <= m
    ensures CanRun(s, Picks(k)) && CalmRun(s, Picks(k), m)
    ensures AllOnZero(Run(s, Picks(k)), 0) && |Run(s, Picks(k)).pending| == |s.pending| + k
    decreases k
  {
    if k > 0 {
      assert Picks(k)[0] == Pick(0) && Picks(k)[1..] == Picks(k - 1);
      assert forall p :: OnPort(s.sessions, p) == {};
      PicksRun(Step(s, Pick(0)), k - 1, m);
    }
  }

  lemma CommitOnZero(s: State, from: nat)
    requires AllOnZero(s, from) && Load(s.sessions, 0) == from && s.pending != []
    ensures var s' := Step(s, Commit(0, Id(from), "u"));
      && Id(from) !in s.sessions && AllOnZero(s', from + 1) && Load(s'.sessions, 0) == from + 1
      && |s'.pending| == |s.pending| - 1
  {
    AddedLoad(s.sessions, Id(from), 0);
    WithoutMembers(s.pending, 0);
    assert s.pending[0] in s.pending;
  }

  lemma RunCons(s: State, a: Action, rest: seq<Action>, m: nat)
    requires Enabled(s, a) && Calm(s, a, m) && CanRun(Step(s, a), rest) && CalmRun(Step(s, a), rest, m)
    ensures CanRun(s, [a] + rest) && CalmRun(s, [a] + rest, m) && Run(s, [a] + rest) == Run(Step(s, a), rest)
  {
    assert ([a] + rest)[1..] == rest;
  }

  lemma {:induction false} CommitsRun(s: State, from: nat, k: nat, m: nat)
    requires AllOnZero(s, from) && Load(s.sessions, 0) == from && |s.pending| == k <= m
    ensures CanRun(s, Commits(from, k)) && CalmRun(s, Commits(from, k), m)
    ensures AllOnZero(Run(s, Commits(from, k)), from + k) && Load(Run(s, Commits(from, k)).sessions, 0) == from + k
    decreases k
  {
    if k > 0 {
      var a := Commit(0, Id(from), "u");
      CommitOnZero(s, from);
      CommitsRun(Step(s, a), from + 1, k - 1, m);
      RunCons(s, a, Commits(from + 1, k - 1), m);
    }
  }

  lemma {:induction false} RunConcat(s: State, a: seq<Action>, b: seq<Action>, m: nat)
    requires CanRun(s, a) && CanRun(Run(s, a), b) && CalmRun(s, a, m) && CalmRun(Run(s, a), b, m)
    ensures CanRun(s, a + b) && CalmRun(s, a + b, m) && Run(s, a + b) == Run(Run(s, a), b)
    decreases |a|
  {
    if a == [] {
      assert a + b == b;
    } else {
      assert (a + b)[0] == a[0] && (a + b)[1..] == a[1..] + b;
      RunConcat(Step(s, a[0]), a[1..], b, m);
    }
  }

  /** The bound is exact: `m` opens that overlap all go to the same backend. */
  lemma OverlapSkews(m: nat) returns (acts: seq<Action>)
    ensures CanRun(Start({0, 1}), acts) && CalmRun(Start({0, 1}), acts, m)
    ensures var s := Run(Start({0, 1}), acts); Load(s.sessions, 0) == Load(s.sessions, 1) + m
  {
    var s := Start({0, 1});
    PicksRun(s, m, m);
    var s1 := Run(s, Picks(m));
    assert OnPort(s1.sessions, 0) == {};
    CommitsRun(s1, 0, m, m);
    RunConcat(s, Picks(m), Commits(0, m), m);
    acts := Picks(m) + Commits(0, m);
    assert OnPort(Run(s, acts).sessions, 1) == {};
  }
}
