/** Debouncing partial answers. The loop stores the newest text of an answer number, bumps the
    number's version and starts a timer; a timer that still has the newest version takes the
    text and hands it over. Each lock is taken separately, so all of these interleave. */
module Debounce {
  import opened Lists
  import opened Sorting
  import opened Wrappers

  // The id tells apart arrivals with the same text.
  datatype Arrival = Arrival(id: nat, num: nat, text: string)

  datatype Loop = Waiting | Stored(num: nat) | Bumped(num: nat, version: nat)

  datatype Timer = Timer(num: nat, version: nat, checked: bool)

  datatype State = State(
    pendingText: map<nat, Arrival>,
    versions: map<nat, nat>,
    loop: Loop,
    timers: seq<Timer>,
    arrivals: seq<Arrival>,        // history
    flushed: seq<Arrival>,         // history: handed to flush_answer
    replaced: set<Arrival>)        // history: overwritten while still waiting

  const INIT := State(map[], map[], Waiting, [], [], [], {})

  datatype Action =
    | Store(num: nat, text: string)
    | Bump
    | Spawn
    | Check(i: nat)                // a timer has slept and compares versions
    | Fire(i: nat)                 // and takes the text

  predicate Enabled(s: State, a: Action) {
    match a
    case Store(_, _) => s.loop.Waiting?
    case Bump => s.loop.Stored?
    case Spawn => s.loop.Bumped?
    case Check(i) => i < |s.timers| && !s.timers[i].checked
    case Fire(i) => i < |s.timers| && s.timers[i].checked
  }

  function VersionOf(s: State, num: nat): nat { if num in s.versions then s.versions[num] else 0 }

  function Checked(s: State, i: nat): State
    requires i < |s.timers|
  {
    var t := s.timers[i];
    if t.num in s.versions && s.versions[t.num] == t.version then s.(timers := s.timers[i := t.(checked := true)])
    else s.(timers := Without(s.timers, i))
  }

  function Fired(s: State, i: nat): State
    requires i < |s.timers|
  {
    var num := s.timers[i].num;
    var s' := s.(timers := Without(s.timers, i), pendingText := s.pendingText - {num});
    if num in s.pendingText && s.pendingText[num].text != "" then s'.(flushed := s.flushed + [s.pendingText[num]])
    else s'
  }

  function Step(s: State, a: Action): State
    requires Enabled(s, a)
  {
    match a
    case Store(num, text) =>
      var arrival := Arrival(|s.arrivals|, num, text);
      s.(pendingText := s.pendingText[num := arrival], arrivals := s.arrivals + [arrival], loop := Stored(num),
         replaced := s.replaced + if num in s.pendingText then {s.pendingText[num]} else {})
    case Bump =>
      var num, v := s.loop.num, VersionOf(s, s.loop.num) + 1;
      s.(versions := s.versions[num := v], loop := Bumped(num, v))
    case Spawn => s.(timers := s.timers + [Timer(s.loop.num, s.loop.version, false)], loop := Waiting)
    case Check(i) => Checked(s, i)
    case Fire(i) => Fired(s, i)
  }

  predicate CanRun(s: State, acts: seq<Action>)
    decreases |acts|
  {
    acts == [] || (Enabled(s, acts[0]) && CanRun(Step(s, acts[0]), acts[1..]))
  }

  function Run(s: State, acts: seq<Action>): State
    requires CanRun(s, acts)
    decreases |acts|
  {
    if acts == [] then s else Run(Step(s, acts[0]), acts[1..])
  }

  // ---------- the invariant ----------

  /** The newest arrival of a number. */
  function LastFor(arrivals: seq<Arrival>, num: nat): Option<Arrival> {
    if arrivals == [] then None
    else if arrivals[|arrivals| - 1].num == num then Some(arrivals[|arrivals| - 1])
    else LastFor(arrivals[..|arrivals| - 1], num)
  }

  // A stored text has someone who will take it: the loop, or a timer that will pass its check.
  ghost predicate Attended(s: State, num: nat) {
    || (!s.loop.Waiting? && s.loop.num == num)
    || exists t :: t in s.timers && WillTake(s, t, num)
  }

  predicate WillTake(s: State, t: Timer, num: nat) {
    t.num == num && (t.checked || (num in s.versions && s.versions[num] == t.version))
  }

  ghost predicate AllAttended(s: State) {
    && (forall num <- s.pendingText :: Attended(s, num))
    && (s.loop.Bumped? ==> s.loop.num in s.versions && s.versions[s.loop.num] == s.loop.version)
  }

  ghost predicate Known(s: State, a: Arrival) { a.id < |s.arrivals| && s.arrivals[a.id] == a }

  ghost predicate Waits(s: State, a: Arrival) { a.num in s.pendingText && s.pendingText[a.num] == a }

  /** Every arrival still waits, or was handed over, or was overwritten, or was dropped for being
      empty when its timer came; and only one of these. What waits is the newest of its number. */
  ghost predicate Faithful(s: State) {
    && (forall a <- s.arrivals :: Known(s, a))
    && (forall a <- s.flushed :: Known(s, a) && a.text != "" && !Waits(s, a) && a !in s.replaced)
    && (forall a <- s.replaced :: Known(s, a) && !Waits(s, a))
    && NoDup(s.flushed)
    && (forall num <- s.pendingText :: s.pendingText[num].num == num && Known(s, s.pendingText[num]))
    && (forall a <- s.arrivals :: a.text == "" || Waits(s, a) || a in s.flushed || a in s.replaced)
  }

  // Only the newest arrival of a number waits, and it is never among the overwritten.
  ghost predicate NewestWaits(s: State) {
    && (forall num <- s.pendingText :: LastFor(s.arrivals, num) == Some(s.pendingText[num]))
    && (forall a <- s.replaced :: LastFor(s.arrivals, a.num) != Some(a))
  }

  lemma StoreKeepsFaithful(s: State, num: nat, text: string)
    requires Faithful(s) && Enabled(s, Store(num, text))
    ensures Faithful(Step(s, Store(num, text)))
  {
    var s', arrival := Step(s, Store(num, text)), Arrival(|s.arrivals|, num, text);
    assert !Known(s, arrival);
    forall a | a in s'.arrivals
      ensures Known(s', a) && (a.text == "" || Waits(s', a) || a in s'.flushed || a in s'.replaced)
    {
      assert a in s.arrivals || a == arrival;
    }
  }

  lemma StoreKeepsNewest(s: State, num: nat, text: string)
    requires NewestWaits(s) && Enabled(s, Store(num, text))
    requires (forall a <- s.replaced :: Known(s, a))
    requires forall k <- s.pendingText :: s.pendingText[k].num == k && Known(s, s.pendingText[k])
    ensures NewestWaits(Step(s, Store(num, text)))
  {
    var s', arrival := Step(s, Store(num, text)), Arrival(|s.arrivals|, num, text);
    assert s'.arrivals[..|s.arrivals|] == s.arrivals;
    assert !Known(s, arrival);
    assert forall k: nat :: LastFor(s'.arrivals, k) == if k == num then Some(arrival) else LastFor(s.arrivals, k);
  }

  lemma FireKeepsFaithful(s: State, i: nat)
    requires Faithful(s) && Enabled(s, Fire(i))
    ensures Faithful(Fired(s, i))
  {
  }

  lemma StepKeepsFaithful(s: State, a: Action)
    requires Faithful(s) && NewestWaits(s) && Enabled(s, a)
    ensures Faithful(Step(s, a)) && NewestWaits(Step(s, a))
  {
    match a
    case Store(num, text) =>
      StoreKeepsFaithful(s, num, text);
      StoreKeepsNewest(s, num, text);
    case Fire(i) => FireKeepsFaithful(s, i);
    case _ => assert Step(s, a).arrivals == s.arrivals;
  }

  lemma OthersRemain(s: State, i: nat, t: Timer)
    requires i < |s.timers| && t in s.timers && t != s.timers[i]
    ensures t in Without(s.timers, i)
  {
    var k :| 0 <= k < |s.timers| && s.timers[k] == t;
    assert Without(s.timers, i)[if k < i then k else k - 1] == t;
  }

  lemma CheckKeepsAttended(s: State, i: nat, num: nat)
    requires AllAttended(s) && Enabled(s, Check(i)) && num in s.pendingText
    ensures Attended(Checked(s, i), num)
  {
    var s', mine := Checked(s, i), s.timers[i];
    if s.loop.Waiting? || s.loop.num != num {
      var t :| t in s.timers && WillTake(s, t, num);
      if t == mine {
        assert s'.timers[i] == mine.(checked := true) && WillTake(s', s'.timers[i], num);
      } else if |s'.timers| == |s.timers| {
        var k :| 0 <= k < |s.timers| && s.timers[k] == t;
        assert s'.timers[k] == t && WillTake(s', t, num);
      } else {
        OthersRemain(s, i, t);
        assert WillTake(s', t, num);
      }
    }
  }

  lemma FireKeepsAttended(s: State, i: nat, num: nat)
    requires AllAttended(s) && Enabled(s, Fire(i)) && num in Fired(s, i).pendingText
    ensures Attended(Fired(s, i), num)
  {
    if s.loop.Waiting? || s.loop.num != num {
      var t :| t in s.timers && WillTake(s, t, num);
      OthersRemain(s, i, t);
      assert WillTake(Fired(s, i), t, num);
    }
  }

  lemma LoopKeepsAttended(s: State, a: Action, num: nat)
    requires AllAttended(s) && Enabled(s, a) && (a.Store? || a.Bump? || a.Spawn?) && num in Step(s, a).pendingText
    ensures Attended(Step(s, a), num)
  {
    var s' := Step(s, a);
    if a.Spawn? && s.loop.num == num {
      var t := Timer(num, s.loop.version, false);
      assert s'.timers[|s.timers|] == t && WillTake(s', t, num);
    } else if s.loop.Waiting? || s.loop.num != num {
      if !a.Store? || a.num != num {
        var t :| t in s.timers && WillTake(s, t, num);
        assert t in s'.timers && WillTake(s', t, num);
      }
    }
  }

  lemma StepKeepsAttended(s: State, a: Action)
    requires AllAttended(s) && Enabled(s, a)
    ensures AllAttended(Step(s, a))
  {
    forall num | num in Step(s, a).pendingText ensures Attended(Step(s, a), num) {
      match a
      case Check(i) => CheckKeepsAttended(s, i, num);
      case Fire(i) => FireKeepsAttended(s, i, num);
      case _ => LoopKeepsAttended(s, a, num);
    }
  }

  lemma {:induction false} RunKeeps(s: State, acts: seq<Action>)
    requires CanRun(s, acts) && Faithful(s) && NewestWaits(s) && AllAttended(s)
    ensures Faithful(Run(s, acts)) && NewestWaits(Run(s, acts)) && AllAttended(Run(s, acts))
    decreases |acts|
  {
    if acts != [] {
      StepKeepsFaithful(s, acts[0]);
      StepKeepsAttended(s, acts[0]);
      RunKeeps(Step(s, acts[0]), acts[1..]);
    }
  }

  // ---------- a timer that was overtaken does nothing ----------

  /** How many arrivals a number has had. */
  function ArrivalsOf(arrivals: seq<Arrival>, num: nat): nat {
    if arrivals == [] then 0
    else ArrivalsOf(arrivals[..|arrivals| - 1], num) + if arrivals[|arrivals| - 1].num == num then 1 else 0
  }

  // The loop has stored the newest arrival of this number and not counted it yet.
  predicate Uncounted(s: State, num: nat) { s.loop == Stored(num) }

  ghost predicate CountsOk(s: State) {
    && (forall num: nat :: ArrivalsOf(s.arrivals, num) == VersionOf(s, num) + if Uncounted(s, num) then 1 else 0)
    && (forall t <- s.timers :: t.version >= 1) && (s.loop.Bumped? ==> s.loop.version >= 1)
  }

  lemma ArrivalCounted(arrivals: seq<Arrival>, a: Arrival, num: nat)
    ensures ArrivalsOf(arrivals + [a], num) == ArrivalsOf(arrivals, num) + if a.num == num then 1 else 0
  {
    assert (arrivals + [a])[..|arrivals|] == arrivals;
  }

  lemma StepKeepsCounts(s: State, a: Action)
    requires CountsOk(s) && Enabled(s, a)
    ensures CountsOk(Step(s, a))
  {
    if a.Store? {
      forall num: nat
        ensures ArrivalsOf(Step(s, a).arrivals, num) == VersionOf(s, num) + if a.num == num then 1 else 0
      {
        ArrivalCounted(s.arrivals, Arrival(|s.arrivals|, a.num, a.text), num);
      }
    }
  }

  lemma {:induction false} RunKeepsCounts(s: State, acts: seq<Action>)
    requires CanRun(s, acts) && CountsOk(s)
    ensures CountsOk(Run(s, acts))
    decreases |acts|
  {
    if acts != [] {
      StepKeepsCounts(s, acts[0]);
      RunKeepsCounts(Step(s, acts[0]), acts[1..]);
    }
  }

  /** The timer of the v-th arrival of a number goes on to take its text exactly if that is still the
      newest one counted; else it ends. Either way nothing else changes. */
  lemma CheckPassesIff(s: State, i: nat)
    requires Reachable(s) && Enabled(s, Check(i))
    ensures var t, s' := s.timers[i], Step(s, Check(i));
            var newest := ArrivalsOf(s.arrivals, t.num) - if Uncounted(s, t.num) then 1 else 0;
      && (t.version == newest ==> s' == s.(timers := s.timers[i := Timer(t.num, t.version, true)]))
      && (t.version != newest ==> s' == s.(timers := Without(s.timers, i)))
  {
    var acts :| CanRun(INIT, acts) && Run(INIT, acts) == s;
    RunKeepsCounts(INIT, acts);
    assert s.timers[i] in s.timers && (s.timers[i].num in s.versions || VersionOf(s, s.timers[i].num) == 0);
  }

  /** Each arrival starts one timer, for its place in the order. */
  lemma ArrivalStartsTimer(s: State, num: nat, text: string)
    requires Reachable(s) && s.loop.Waiting?
    ensures var a, n := Arrival(|s.arrivals|, num, text), ArrivalsOf(s.arrivals, num);
      && CanRun(s, [Store(num, text), Bump, Spawn])
      && var s' := Run(s, [Store(num, text), Bump, Spawn]);
         && s'.timers == s.timers + [Timer(num, n + 1, false)] && s'.arrivals == s.arrivals + [a]
         && s'.pendingText == s.pendingText[num := a] && s'.flushed == s.flushed && s'.loop.Waiting?
  {
    var acts :| CanRun(INIT, acts) && Run(INIT, acts) == s;
    RunKeepsCounts(INIT, acts);
    var s1 := Step(s, Store(num, text));
    var s2 := Step(s1, Bump);
    var s3 := Step(s2, Spawn);
    assert [Store(num, text), Bump, Spawn][1..] == [Bump, Spawn] && [Bump, Spawn][1..] == [Spawn] && [Spawn][1..] == [];
    assert Run(s2, [Spawn]) == Run(s3, []);
    assert Run(s1, [Bump, Spawn]) == Run(s2, [Spawn]);
  }

  /** A timer that fires takes the waiting text of its number, and hands it over if it is not empty. */
  lemma FireTakes(s: State, i: nat)
    requires Enabled(s, Fire(i))
    ensures var num, s' := s.timers[i].num, Step(s, Fire(i));
      && num !in s'.pendingText && s'.timers == Without(s.timers, i)
      && (forall k :: k != num ==> (k in s'.pendingText <==> k in s.pendingText))
      && (forall k :: k != num && k in s.pendingText ==> s'.pendingText[k] == s.pendingText[k])
      && s'.flushed == s.flushed + (if num in s.pendingText && s.pendingText[num].text != "" then [s.pendingText[num]]
                                    else [])
  {
  }

  // ---------- the result ----------

  predicate Settled(s: State, num: nat) {
    (s.loop.Waiting? || s.loop.num != num) && forall t <- s.timers :: t.num != num
  }

  ghost predicate Reachable(s: State) {
    exists acts :: CanRun(INIT, acts) && Run(INIT, acts) == s
  }

  /** Whatever the order of timers and arrivals, nothing is handed over twice or made up; and once
      the timers of a number are done, no text of it is left behind, and a non-empty arrival was
      handed over exactly if no later one overwrote it while it waited. */
  lemma SettledMeansHandedOver(s: State, num: nat)
    requires Reachable(s)
    ensures NoDup(s.flushed) && forall a <- s.flushed :: a in s.arrivals && a.text != ""
    ensures Settled(s, num) ==> num !in s.pendingText
    ensures Settled(s, num) ==>
      forall a <- s.arrivals :: a.num == num && a.text != "" ==> (a in s.flushed <==> a !in s.replaced)
  {
    var acts :| CanRun(INIT, acts) && Run(INIT, acts) == s;
    RunKeeps(INIT, acts);
    assert num in s.pendingText ==> Attended(s, num);
  }

  /** The last arrival of a number that is not empty. */
  function LastTextFor(arrivals: seq<Arrival>, num: nat): (r: Option<Arrival>)
    ensures r.Some? ==> r.value in arrivals && r.value.num == num && r.value.text != ""
    ensures r.None? <==> forall a <- arrivals :: a.num == num ==> a.text == ""
    ensures r.Some? ==> exists i :: 0 <= i < |arrivals| && arrivals[i] == r.value &&
                                    forall j :: i < j < |arrivals| && arrivals[j].num == num ==> arrivals[j].text == ""
  {
    if arrivals == [] then None
    else
      var last := arrivals[|arrivals| - 1];
      if last.num == num && last.text != "" then Some(last) else LastTextFor(arrivals[..|arrivals| - 1], num)
  }

  /** So the last non-empty text of a settled number was handed over exactly if it was not
      overwritten; it can only have been overwritten by an empty arrival, so if the newest arrival
      is not empty it always was. */
  lemma LastTextHandedOver(s: State, num: nat)
    requires Reachable(s) && Settled(s, num) && LastTextFor(s.arrivals, num).Some?
    ensures var last := LastTextFor(s.arrivals, num).value;
      && (last in s.flushed <==> last !in s.replaced)
      && (LastFor(s.arrivals, num) == Some(last) ==> last in s.flushed)
  {
    var acts :| CanRun(INIT, acts) && Run(INIT, acts) == s;
    RunKeeps(INIT, acts);
    SettledMeansHandedOver(s, num);
  }

  lemma {:induction false} RunThen(s: State, acts: seq<Action>, a: Action)
    requires CanRun(s, acts) && Enabled(Run(s, acts), a)
    ensures CanRun(s, acts + [a]) && Run(s, acts + [a]) == Step(Run(s, acts), a)
    decreases |acts|
  {
    if acts == [] {
      assert Run(Step(s, a), [a][1..]) == Step(s, a);
      assert acts + [a] == [a];
    } else {
      assert (acts + [a])[0] == acts[0] && (acts + [a])[1..] == acts[1..] + [a];
      RunThen(Step(s, acts[0]), acts[1..], a);
    }
  }

  lemma Then(s: State, a: Action) returns (s': State)
    requires Reachable(s) && Enabled(s, a)
    ensures s' == Step(s, a) && Reachable(s')
  {
    s' := Step(s, a);
    var acts :| CanRun(INIT, acts) && Run(INIT, acts) == s;
    RunThen(INIT, acts, a);
  }

  lemma Arrive(s: State, num: nat, text: string) returns (s': State)
    requires Reachable(s) && s.loop.Waiting?
    ensures Reachable(s') && s'.loop.Waiting? && s'.arrivals == s.arrivals + [Arrival(|s.arrivals|, num, text)]
    ensures s'.pendingText == s.pendingText[num := Arrival(|s.arrivals|, num, text)] && s'.flushed == s.flushed
    ensures s'.replaced == s.replaced + if num in s.pendingText then {s.pendingText[num]} else {}
    ensures var v := VersionOf(s, num) + 1;
            s'.versions == s.versions[num := v] && s'.timers == s.timers + [Timer(num, v, false)]
  {
    s' := Then(s, Store(num, text));
    s' := Then(s', Bump);
    s' := Then(s', Spawn);
  }

  /** So a last non-empty text is lost when an empty repaint follows it in time. */
  lemma EmptyRepaintLosesAnswer() returns (s: State)
    ensures Reachable(s) && Settled(s, 1)
    ensures s.arrivals == [Arrival(0, 1, "answer"), Arrival(1, 1, "")] && s.flushed == []
    ensures s.replaced == {Arrival(0, 1, "answer")}
  {
    assert Run(INIT, []) == INIT;
    s := Arrive(INIT, 1, "answer");
    s := Arrive(s, 1, "");
    s := Then(s, Check(0));
    assert s.timers == [Timer(1, 2, false)];
    s := Then(s, Check(0));
    s := Then(s, Fire(0));
  }
}
