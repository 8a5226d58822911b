/** Both processes together: the manager's /chat tasks, the /s/ socket, the worker's session,
    the claude process, and the /qa/ broadcast back to the manager.

    A write to claude may fail, which loses the question and goes on with the next frame. Claude
    answers what it was given in order. A result that failed publishes nothing, and a lagging
    subscriber of the broadcast skips events. */
module EndToEnd {
  import opened Wrappers
  import opened ChatTable
  import opened ChatMachine
  import opened ChatProperties
  import J = JsonSession

  datatype Event = Event(text: string, input: nat)   // `input`: which input it answers (history)

  datatype Worker = Worker(
    frames: seq<string>,   // every frame sent over /s/ so far
    read: nat,             // how many of them the worker has written to the session
    buf: string,
    stdin: seq<string>,    // inputs that reached claude
    results: nat,          // how many of them have their result
    events: seq<Event>,    // final events published on /qa/
    taken: nat,            // how many of those the manager's qa loop is past
    // History, for stating properties; no step reads it.
    asked: seq<string>,    // every submission, whether or not it reached claude
    reached: seq<nat>,     // for each input, which submission it is
    origin: seq<nat>,      // the inputs of the answers the qa loop took
    lost: set<nat>)        // inputs whose result failed or whose event was skipped

  datatype Sys = Sys(m: State, w: map<string, Worker>)

  datatype Move =
    | Manager(a: Action)
    | Deliver(c: string, up: bool)                    // `up`: claude's stdin takes the question
    | Result(c: string, ok: bool, text: string)
    | Lag(c: string)

  const NEW_WORKER := Worker([], 0, "", [], 0, [], 0, [], [], [], {})

  predicate CanMove(s: Sys, mv: Move) {
    match mv
    case Manager(a) =>
      && Enabled(s.m, a)
      && (a.SendBody? ==> a.c in s.w && s.m.conns[a.c].reader.k in s.m.t.rows)
      && (a.SendEnter? ==> a.c in s.w)
      && (a.Take? ==> a.c in s.w && s.w[a.c].taken < |s.w[a.c].events|
                      && a.text == s.w[a.c].events[s.w[a.c].taken].text)
    case Deliver(c, _) => c in s.w && s.w[c].read < |s.w[c].frames|
    case Result(c, _, _) => c in s.w && s.w[c].results < |s.w[c].stdin|
    case Lag(c) => c in s.w && s.w[c].taken < |s.w[c].events|
  }

  function After(s: Sys, mv: Move): Sys
    requires ValidTable(s.m.t) && CanMove(s, mv)
  {
    match mv
    case Manager(a) => Sys(Apply(s.m, a), ManagerEffect(s, a))
    case Deliver(c, up) => s.(w := s.w[c := Deliver1(s.w[c], up)])
    case Result(c, ok, text) => s.(w := s.w[c := Finished(s.w[c], ok, text)])
    case Lag(c) =>
      var w := s.w[c];
      s.(w := s.w[c := w.(taken := w.taken + 1, lost := w.lost + {w.events[w.taken].input})])
  }

  function Finished(w: Worker, ok: bool, text: string): Worker {
    if ok then w.(results := w.results + 1, events := w.events + [Event(text, w.results)])
    else w.(results := w.results + 1, lost := w.lost + {w.results})
  }

  // The worker writes the next frame to the session.
  function Deliver1(w: Worker, up: bool): Worker
    requires w.read < |w.frames|
  {
    Written(w, w.frames[w.read], up)
  }

  function Written(w: Worker, frame: string, up: bool): Worker {
    var (buf, asked) := J.Write(w.buf, frame);
    var w' := w.(read := w.read + 1, buf := buf, asked := w.asked + asked);
    if up && asked != [] then w'.(stdin := w.stdin + asked, reached := w.reached + [|w.asked|]) else w'
  }

  function ManagerEffect(s: Sys, a: Action): map<string, Worker>
    requires ValidTable(s.m.t) && CanMove(s, Manager(a))
  {
    match a
    case Open(c) => s.w[c := NEW_WORKER]
    case SendBody(c, true, _) =>
      s.w[c := s.w[c].(frames := s.w[c].frames + [s.m.t.rows[s.m.conns[c].reader.k].text])]
    case SendEnter(c, true, _) => s.w[c := s.w[c].(frames := s.w[c].frames + [[J.CR]])]
    case Take(c, _, _) =>
      var w := s.w[c];
      s.w[c := w.(taken := w.taken + 1, origin := w.origin + [w.events[w.taken].input])]
    case _ => s.w
  }

  ghost predicate RunsTo(s: Sys, moves: seq<Move>, s': Sys)
    decreases |moves|
  {
    if moves == [] then s == s'
    else ValidTable(s.m.t) && CanMove(s, moves[0]) && RunsTo(After(s, moves[0]), moves[1..], s')
  }

  ghost predicate Start(s: Sys) { Initial(s.m) && s.w == map[] }

  // ---------- what the worker has read is what the manager typed ----------

  // The text of each question, in the order asked.
  function Texts(t: Table, mine: seq<nat>): seq<string>
    requires forall k <- mine :: k in t.rows
  {
    seq(|mine|, i requires 0 <= i < |mine| => t.rows[mine[i]].text)
  }

  /** All that claude is asked by questions `texts`. */
  function Inputs(texts: seq<string>): seq<string> {
    if texts == [] then [] else Inputs(texts[..|texts| - 1]) + J.Submissions(texts[|texts| - 1])
  }

  /** For each of these inputs, the question it comes from. */
  function Owners(texts: seq<string>): (o: seq<nat>)
    ensures |o| == |Inputs(texts)|
    ensures forall i :: 0 <= i < |o| ==> o[i] < |texts|
  {
    if texts == [] then []
    else Owners(texts[..|texts| - 1]) + seq(|J.Submissions(texts[|texts| - 1])|, _ => |texts| - 1)
  }

  // The f-th frame of the conversation: question texts and "\r" in turn.
  function FrameAt(texts: seq<string>, f: nat): string
    requires f < 2 * |texts|
  {
    if f % 2 == 0 then texts[f / 2] else [J.CR]
  }

  ghost predicate WireOk(texts: seq<string>, reader: Reader, w: Worker) {
    var n, f := |texts|, |w.frames|;
    && f <= 2 * n <= f + 2
    && (reader.Idle? || reader.EnterSent? ==> f == 2 * n)
    && (reader.Inserted? ==> f == 2 * n - 2)
    && (reader.BodySent? ==> f == 2 * n - 1)
    && (forall i :: 0 <= i < f ==> w.frames[i] == FrameAt(texts, i))
  }

  // Between questions, and between a body frame and its "\r".
  ghost predicate BeforeQuestion(texts: seq<string>, w: Worker, q: nat) {
    w.read == 2 * q && q <= |texts| && w.buf == "" && w.asked == Inputs(texts[..q])
  }

  ghost predicate WithinQuestion(texts: seq<string>, w: Worker, q: nat) {
    && w.read == 2 * q + 1 && q < |texts|
    && w.buf == J.Tail(texts[q]) && w.asked == Inputs(texts[..q]) + J.Early(texts[q])
  }

  // The inputs of claude are submissions, in order.
  ghost predicate StdinOk(w: Worker) {
    && |w.reached| == |w.stdin| && Increasing(w.reached)
    && forall k :: 0 <= k < |w.stdin| ==> w.reached[k] < |w.asked| && w.asked[w.reached[k]] == w.stdin[k]
  }

  ghost predicate SessionOk(texts: seq<string>, w: Worker) {
    && w.read <= |w.frames| && w.results <= |w.stdin| && StdinOk(w)
    && (BeforeQuestion(texts, w, w.read / 2) || WithinQuestion(texts, w, w.read / 2))
  }

  ghost predicate LinkOk(t: Table, x: Conn, w: Worker) {
    && (forall k <- x.mine :: k in t.rows)
    && WireOk(Texts(t, x.mine), x.reader, w)
    && SessionOk(Texts(t, x.mine), w)
  }

  ghost predicate SysInv(s: Sys) {
    && Inv(s.m) && s.w.Keys == s.m.conns.Keys
    && forall c <- s.w :: LinkOk(s.m.t, s.m.conns[c], s.w[c])
  }

  lemma WrittenStdin(w: Worker, frame: string, up: bool)
    requires StdinOk(w)
    ensures StdinOk(Written(w, frame, up)) && |w.stdin| <= |Written(w, frame, up).stdin|
  {
    assert |J.Write(w.buf, frame).1| <= 1;
  }

  lemma BodyDelivered(texts: seq<string>, w: Worker, q: nat, up: bool)
    requires BeforeQuestion(texts, w, q) && q < |texts|
    ensures WithinQuestion(texts, Written(w, texts[q], up), q)
  {
    J.QuestionWrites(texts[q]);
  }

  lemma EnterDelivered(texts: seq<string>, w: Worker, q: nat, up: bool)
    requires WithinQuestion(texts, w, q)
    ensures BeforeQuestion(texts, Written(w, [J.CR], up), q + 1)
  {
    J.QuestionWrites(texts[q]);
    assert texts[..q + 1][..q] == texts[..q];
  }

  lemma WrittenElse(w: Worker, frame: string, up: bool)
    ensures Written(w, frame, up).frames == w.frames && Written(w, frame, up).results == w.results
    ensures Written(w, frame, up).read == w.read + 1
  {
  }

  lemma BodyKeeps(texts: seq<string>, w: Worker, q: nat, up: bool)
    requires StdinOk(w) && w.results <= |w.stdin| && w.read < |w.frames|
    requires BeforeQuestion(texts, w, q) && q < |texts|
    ensures SessionOk(texts, Written(w, texts[q], up))
  {
    WrittenElse(w, texts[q], up);
    WrittenStdin(w, texts[q], up);
    BodyDelivered(texts, w, q, up);
    assert (2 * q + 1) / 2 == q;
  }

  lemma EnterKeeps(texts: seq<string>, w: Worker, q: nat, up: bool)
    requires StdinOk(w) && w.results <= |w.stdin| && w.read < |w.frames|
    requires WithinQuestion(texts, w, q)
    ensures SessionOk(texts, Written(w, [J.CR], up))
  {
    WrittenElse(w, [J.CR], up);
    WrittenStdin(w, [J.CR], up);
    EnterDelivered(texts, w, q, up);
    assert (2 * q + 2) / 2 == q + 1;
  }

  lemma DeliverKeeps(texts: seq<string>, reader: Reader, w: Worker, up: bool)
    requires WireOk(texts, reader, w) && SessionOk(texts, w) && w.read < |w.frames|
    ensures SessionOk(texts, Deliver1(w, up))
  {
    var q := w.read / 2;
    assert w.frames[w.read] == FrameAt(texts, w.read);
    if w.read % 2 == 0 {
      BodyKeeps(texts, w, q, up);
    } else {
      EnterKeeps(texts, w, q, up);
    }
  }

  // A question being added, or frames being sent, does not disturb what was read before.
  lemma SessionFrame(texts: seq<string>, texts': seq<string>, w: Worker, w': Worker)
    requires SessionOk(texts, w) && texts <= texts' && w.frames <= w'.frames
    requires w' == w.(frames := w'.frames, taken := w'.taken, origin := w'.origin)
    ensures SessionOk(texts', w')
  {
    var q := w.read / 2;
    assert texts'[..q] == texts[..q];
  }

  lemma TextsKept(s: State, a: Action, mine: seq<nat>)
    requires Inv(s) && Enabled(s, a) && forall k <- mine :: k in s.t.rows
    ensures forall k <- mine :: k in Apply(s, a).t.rows
    ensures Texts(Apply(s, a).t, mine) == Texts(s.t, mine)
  {
    forall k | k in mine ensures k in Apply(s, a).t.rows && Apply(s, a).t.rows[k].text == s.t.rows[k].text {
      RowAdvances(s, a, k);
    }
  }

  lemma RowsKeepLink(t: Table, t': Table, x: Conn, w: Worker)
    requires LinkOk(t, x, w)
    requires forall m <- x.mine :: m in t'.rows && t'.rows[m].text == t.rows[m].text
    ensures LinkOk(t', x, w)
  {
    assert Texts(t', x.mine) == Texts(t, x.mine);
  }

  lemma MineKept(s: State, a: Action, c: string)
    requires Inv(s) && Enabled(s, a) && c in s.conns && forall k <- s.conns[c].mine :: k in s.t.rows
    ensures var t' := Apply(s, a).t;
            forall k <- s.conns[c].mine :: k in t'.rows && t'.rows[k].text == s.t.rows[k].text
  {
    forall k | k in s.conns[c].mine ensures k in Apply(s, a).t.rows && Apply(s, a).t.rows[k].text == s.t.rows[k].text {
      RowAdvances(s, a, k);
    }
  }

  lemma BystanderLink(s: Sys, a: Action, c: string)
    requires Inv(s.m) && CanMove(s, Manager(a)) && c in s.w && c in s.m.conns && !Acts(a, c)
    requires LinkOk(s.m.t, s.m.conns[c], s.w[c])
    ensures c in ManagerEffect(s, a) && c in Apply(s.m, a).conns
    ensures LinkOk(Apply(s.m, a).t, Apply(s.m, a).conns[c], ManagerEffect(s, a)[c])
  {
    BystandersKept(s.m, a, c);
    MineKept(s.m, a, c);
    RowsKeepLink(s.m.t, Apply(s.m, a).t, s.m.conns[c], s.w[c]);
    EffectOnOthers(s, a, c);
  }

  lemma EffectOnOthers(s: Sys, a: Action, c: string)
    requires ValidTable(s.m.t) && CanMove(s, Manager(a)) && c in s.w && !Acts(a, c)
    ensures c in ManagerEffect(s, a) && ManagerEffect(s, a)[c] == s.w[c]
  {
  }

  lemma QuestionAdded(t: Table, t': Table, x: Conn, k: nat, w: Worker)
    requires LinkOk(t, x, w) && x.reader.Idle? && k in t'.rows
    requires forall m <- x.mine :: m in t'.rows && t'.rows[m].text == t.rows[m].text
    ensures LinkOk(t', x.(reader := Inserted(k), mine := x.mine + [k]), w)
  {
    var texts, texts' := Texts(t, x.mine), Texts(t, x.mine) + [t'.rows[k].text];
    assert Texts(t', x.mine + [k]) == texts';
    SessionFrame(texts, texts', w, w);
    assert forall i :: 0 <= i < |w.frames| ==> FrameAt(texts', i) == FrameAt(texts, i);
  }

  lemma AcceptLink(s: Sys, a: Action)
    requires Inv(s.m) && CanMove(s, Manager(a)) && a.Accept?
    requires a.c in s.w && LinkOk(s.m.t, s.m.conns[a.c], s.w[a.c])
    ensures LinkOk(Apply(s.m, a).t, Apply(s.m, a).conns[a.c], s.w[a.c])
  {
    MineKept(s.m, a, a.c);
    QuestionAdded(s.m.t, Apply(s.m, a).t, s.m.conns[a.c], a.k, s.w[a.c]);
  }

  lemma FrameSent(texts: seq<string>, reader: Reader, reader': Reader, w: Worker)
    requires WireOk(texts, reader, w) && |w.frames| < 2 * |texts|
    requires (reader.Inserted? && reader'.BodySent?) || (reader.BodySent? && reader'.EnterSent?)
    ensures WireOk(texts, reader', w.(frames := w.frames + [FrameAt(texts, |w.frames|)]))
  {
  }

  ghost predicate HoldsLast(x: Conn) {
    x.reader.Inserted? || x.reader.BodySent? ==> x.mine != [] && x.reader.k == x.mine[|x.mine| - 1]
  }

  lemma SendLink(t: Table, x: Conn, reader': Reader, w: Worker, frame: string)
    requires LinkOk(t, x, w) && HoldsLast(x)
    requires (x.reader.Inserted? && reader'.BodySent? && frame == t.rows[x.reader.k].text)
             || (x.reader.BodySent? && reader'.EnterSent? && frame == [J.CR])
    ensures LinkOk(t, x.(reader := reader'), w.(frames := w.frames + [frame]))
  {
    var texts := Texts(t, x.mine);
    assert FrameAt(texts, |w.frames|) == frame;
    FrameSent(texts, x.reader, reader', w);
    SessionFrame(texts, texts, w, w.(frames := w.frames + [frame]));
  }

  lemma QuietLink(t: Table, x: Conn, x': Conn, w: Worker, w': Worker)
    requires LinkOk(t, x, w) && x'.mine == x.mine && w' == w.(taken := w'.taken, origin := w'.origin)
    requires || x'.reader == x.reader || (x.reader.EnterSent? && x'.reader.Idle?)
             || x'.reader.Ended?
    ensures LinkOk(t, x', w')
  {
    SessionFrame(Texts(t, x.mine), Texts(t, x.mine), w, w');
  }

  // The link of the acting connection, seen with the table before the step.
  lemma ActorLinkSameTable(s: Sys, a: Action)
    requires ValidTable(s.m.t) && CanMove(s, Manager(a)) && !a.Open? && !a.Accept? && !a.ConfirmRow?
    requires a.c in s.w && LinkOk(s.m.t, s.m.conns[a.c], s.w[a.c]) && HoldsLast(s.m.conns[a.c])
    ensures a.c in ManagerEffect(s, a) && Apply(s.m, a).conns[a.c].mine == s.m.conns[a.c].mine
    ensures LinkOk(s.m.t, Apply(s.m, a).conns[a.c], ManagerEffect(s, a)[a.c])
  {
    var x, w := s.m.conns[a.c], s.w[a.c];
    if a.SendBody? && a.ok {
      SendLink(s.m.t, x, BodySent(x.reader.k), w, s.m.t.rows[x.reader.k].text);
    } else if a.SendEnter? && a.ok {
      SendLink(s.m.t, x, EnterSent(x.reader.k), w, [J.CR]);
    } else {
      QuietLink(s.m.t, x, Apply(s.m, a).conns[a.c], w, ManagerEffect(s, a)[a.c]);
    }
  }

  lemma ActorLink(s: Sys, a: Action)
    requires Inv(s.m) && CanMove(s, Manager(a)) && !a.Open? && !a.Accept? && !a.ConfirmRow?
    requires a.c in s.w && LinkOk(s.m.t, s.m.conns[a.c], s.w[a.c])
    ensures a.c in ManagerEffect(s, a) && a.c in Apply(s.m, a).conns
    ensures LinkOk(Apply(s.m, a).t, Apply(s.m, a).conns[a.c], ManagerEffect(s, a)[a.c])
  {
    assert ConnOk(s.m.t, a.c, s.m.conns[a.c]);
    ActorLinkSameTable(s, a);
    TextsKept(s.m, a, s.m.conns[a.c].mine);
  }

  lemma DeliverLink(s: Sys, c: string, up: bool)
    requires c in s.w && c in s.m.conns && LinkOk(s.m.t, s.m.conns[c], s.w[c])
    requires CanMove(s, Deliver(c, up)) && ValidTable(s.m.t)
    ensures LinkOk(s.m.t, s.m.conns[c], After(s, Deliver(c, up)).w[c])
  {
    DeliverKeeps(Texts(s.m.t, s.m.conns[c].mine), s.m.conns[c].reader, s.w[c], up);
  }

  lemma WorkerMoveLink(t: Table, x: Conn, w: Worker, w': Worker)
    requires LinkOk(t, x, w) && w'.results <= |w.stdin|
    requires w' == w.(results := w'.results, events := w'.events, taken := w'.taken, lost := w'.lost)
    ensures LinkOk(t, x, w')
  {
  }

  lemma ManagerKeepsLink(s: Sys, a: Action, c: string)
    requires Inv(s.m) && CanMove(s, Manager(a)) && c in s.w && c in s.m.conns && a != Open(c)
    requires LinkOk(s.m.t, s.m.conns[c], s.w[c])
    ensures c in ManagerEffect(s, a) && c in Apply(s.m, a).conns
    ensures LinkOk(Apply(s.m, a).t, Apply(s.m, a).conns[c], ManagerEffect(s, a)[c])
  {
    if !Acts(a, c) {
      BystanderLink(s, a, c);
    } else if a.Accept? {
      AcceptLink(s, a);
    } else {
      ActorLink(s, a);
    }
  }

  lemma MoveKeepsLink(s: Sys, mv: Move, c: string)
    requires Inv(s.m) && CanMove(s, mv) && c in s.w && c in s.m.conns && mv != Manager(Open(c))
    requires LinkOk(s.m.t, s.m.conns[c], s.w[c])
    ensures c in After(s, mv).w && c in After(s, mv).m.conns
    ensures LinkOk(After(s, mv).m.t, After(s, mv).m.conns[c], After(s, mv).w[c])
  {
    if mv.Manager? {
      ManagerKeepsLink(s, mv.a, c);
    } else if mv.Deliver? && mv.c == c {
      DeliverLink(s, c, mv.up);
    } else {
      WorkerMoveLink(s.m.t, s.m.conns[c], s.w[c], After(s, mv).w[c]);
    }
  }

  ghost predicate IsNew(s: Sys, c: string) {
    c in s.w && c in s.m.conns && s.m.conns[c] == NEW_CONN && s.w[c] == NEW_WORKER
  }

  lemma SameConnections(s: Sys, mv: Move)
    requires ValidTable(s.m.t) && CanMove(s, mv) && s.w.Keys == s.m.conns.Keys
    ensures After(s, mv).w.Keys == After(s, mv).m.conns.Keys
    ensures forall c <- After(s, mv).w :: c in s.w || IsNew(After(s, mv), c)
    ensures forall c <- After(s, mv).w :: c in s.w || mv == Manager(Open(c))
    ensures mv.Manager? && mv.a.Open? ==> mv.a.c !in s.w
    ensures !mv.Manager? ==> After(s, mv).m == s.m
  {
  }

  lemma MoveKeepsManager(s: Sys, mv: Move)
    requires Inv(s.m) && CanMove(s, mv)
    ensures Inv(After(s, mv).m)
  {
    if mv.Manager? {
      StepKeepsInv(s.m, mv.a);
    }
  }

  lemma NewLink(t: Table)
    ensures LinkOk(t, NEW_CONN, NEW_WORKER)
  {
    assert Texts(t, []) == [];
  }

  lemma MoveKeepsInv(s: Sys, mv: Move)
    requires SysInv(s) && CanMove(s, mv)
    ensures SysInv(After(s, mv))
  {
    var s' := After(s, mv);
    SameConnections(s, mv);
    forall c | c in s'.w ensures LinkOk(s'.m.t, s'.m.conns[c], s'.w[c]) {
      if c in s.w {
        MoveKeepsLink(s, mv, c);
      } else {
        NewLink(s'.m.t);
      }
    }
    MoveKeepsManager(s, mv);
  }

  lemma {:induction false} RunKeepsSysInv(s: Sys, moves: seq<Move>, s': Sys)
    requires SysInv(s) && RunsTo(s, moves, s')
    ensures SysInv(s')
    decreases |moves|
  {
    if moves != [] {
      MoveKeepsInv(s, moves[0]);
      RunKeepsSysInv(After(s, moves[0]), moves[1..], s');
    }
  }

  lemma TablesStayValid(s: Sys, mv: Move)
    requires ValidTable(s.m.t) && CanMove(s, mv)
    ensures ValidTable(After(s, mv).m.t)
  {
  }

  // ---------- connections on which nothing is lost between the processes ----------

  /** This move loses nothing of connection `c`: no question refused, no result failed, no event
      skipped. What befalls other connections does not matter. */
  predicate Clean(mv: Move, c: string) {
    !mv.Manager? && mv.c == c ==> !mv.Lag? && (mv.Deliver? ==> mv.up) && (mv.Result? ==> mv.ok)
  }

  ghost predicate CleanLink(x: Conn, w: Worker) {
    && w.asked == w.stdin && |w.events| == w.results && w.taken == |x.answers| <= |w.events|
    && (forall n :: 0 <= n < |w.events| ==> w.events[n].input == n)
    && (forall n :: 0 <= n < |x.answers| ==> x.answers[n] == w.events[n].text)
  }

  lemma MoveKeepsCleanLink(s: Sys, mv: Move, c: string)
    requires ValidTable(s.m.t) && CanMove(s, mv) && Clean(mv, c) && c in s.w && c in s.m.conns
    requires CleanLink(s.m.conns[c], s.w[c]) && !(mv.Manager? && mv.a.Open? && mv.a.c == c)
    ensures c in After(s, mv).w && c in After(s, mv).m.conns
    ensures CleanLink(After(s, mv).m.conns[c], After(s, mv).w[c])
  {
    if mv.Manager? && !Acts(mv.a, c) {
      BystandersKept(s.m, mv.a, c);
      EffectOnOthers(s, mv.a, c);
    }
  }

  lemma {:induction false} RunKeepsCleanLink(s: Sys, moves: seq<Move>, s': Sys, c: string)
    requires ValidTable(s.m.t) && s.w.Keys == s.m.conns.Keys
    requires RunsTo(s, moves, s') && (forall mv <- moves :: Clean(mv, c)) && c in s'.w
    requires c in s.w ==> CleanLink(s.m.conns[c], s.w[c])
    ensures c in s'.m.conns && CleanLink(s'.m.conns[c], s'.w[c])
    decreases |moves|
  {
    if moves != [] {
      assert moves[0] in moves;
      SameConnections(s, moves[0]);
      TablesStayValid(s, moves[0]);
      if c in s.w {
        MoveKeepsCleanLink(s, moves[0], c);
      }
      RunKeepsCleanLink(After(s, moves[0]), moves[1..], s', c);
    }
  }

  // ---------- whose submission an answer belongs to ----------

  lemma {:induction false} InputsPrefix(texts: seq<string>, q: nat)
    requires q <= |texts|
    ensures Inputs(texts[..q]) <= Inputs(texts) && Owners(texts[..q]) <= Owners(texts)
  {
    var m := |texts| - 1;
    if q <= m {
      InputsPrefix(texts[..m], q);
      assert texts[..m][..q] == texts[..q];
    } else {
      assert texts[..q] == texts;
    }
  }

  lemma {:induction false} InputsGrow(texts: seq<string>, q: nat, r: nat)
    requires q <= r <= |texts|
    ensures |Inputs(texts[..q])| <= |Inputs(texts[..r])|
  {
    InputsPrefix(texts[..r], q);
    assert texts[..r][..q] == texts[..q];
  }

  /** Input p falls to question q: the questions before q submit at most p inputs in all, and with
      q they submit more. */
  predicate FallsTo(texts: seq<string>, p: nat, q: nat) {
    q < |texts| && |Inputs(texts[..q])| <= p < |Inputs(texts[..q + 1])|
  }

  lemma FallsToOne(texts: seq<string>, p: nat, q: nat, r: nat)
    requires FallsTo(texts, p, q) && FallsTo(texts, p, r)
    ensures q == r
  {
    if q < r {
      InputsGrow(texts, q + 1, r);
    } else if r < q {
      InputsGrow(texts, r + 1, q);
    }
  }

  lemma FallsToEarlier(texts: seq<string>, m: nat, p: nat, q: nat)
    requires m <= |texts| && FallsTo(texts[..m], p, q)
    ensures FallsTo(texts, p, q)
  {
    assert texts[..m][..q] == texts[..q] && texts[..m][..q + 1] == texts[..q + 1];
  }

  lemma OwnerStep(texts: seq<string>, p: nat)
    requires texts != [] && p < |Inputs(texts)|
    ensures var m := |texts| - 1;
            var n := |Inputs(texts[..m])|;
      Owners(texts)[p] == if p < n then Owners(texts[..m])[p] else m
  {
  }

  lemma {:induction false} FallsToOwner(texts: seq<string>, p: nat)
    requires p < |Inputs(texts)|
    ensures FallsTo(texts, p, Owners(texts)[p])
  {
    var m := |texts| - 1;
    OwnerStep(texts, p);
    if p < |Inputs(texts[..m])| {
      FallsToOwner(texts[..m], p);
      FallsToEarlier(texts, m, p, Owners(texts[..m])[p]);
    } else {
      assert texts[..m + 1] == texts;
    }
  }

  /** The question an input comes from is the one it falls to. */
  lemma OwnerIff(texts: seq<string>, p: nat, q: nat)
    requires p < |Inputs(texts)|
    ensures Owners(texts)[p] == q <==> FallsTo(texts, p, q)
  {
    FallsToOwner(texts, p);
    if FallsTo(texts, p, q) {
      FallsToOne(texts, p, q, Owners(texts)[p]);
    }
  }

  // All that has been submitted so far is the start of all there is to submit.
  lemma AskedIsPrefix(texts: seq<string>, w: Worker)
    requires SessionOk(texts, w)
    ensures w.asked <= Inputs(texts)
  {
    var q := w.read / 2;
    if WithinQuestion(texts, w, q) {
      InputsPrefix(texts, q + 1);
      assert texts[..q + 1][..q] == texts[..q];
      assert Inputs(texts[..q + 1]) == Inputs(texts[..q]) + J.Submissions(texts[q]);
      assert J.Early(texts[q]) <= J.Submissions(texts[q]);
    } else {
      InputsPrefix(texts, q);
    }
  }

  /** Each input is one of the submissions of the question it comes from. */
  lemma {:induction false} OwnerSubmits(texts: seq<string>, n: nat)
    requires n < |Inputs(texts)|
    ensures Inputs(texts)[n] in J.Submissions(texts[Owners(texts)[n]])
  {
    var m := |texts| - 1;
    if n < |Inputs(texts[..m])| {
      OwnerSubmits(texts[..m], n);
    } else {
      assert Inputs(texts)[n] == J.Submissions(texts[m])[n - |Inputs(texts[..m])|];
    }
  }

  predicate Single(text: string) { |J.Submissions(text)| == 1 }

  predicate Once(texts: seq<string>) {
    forall i :: 0 <= i < |texts| ==> Single(texts[i])
  }

  ghost predicate Counts(o: seq<nat>, m: nat) {
    |o| == m && forall n :: 0 <= n < m ==> o[n] == n
  }

  ghost predicate OneEach(texts: seq<string>) {
    Counts(Owners(texts), |texts|)
  }

  lemma CountsExtended(before: seq<nat>, m: nat, k: nat)
    requires forall i :: 0 <= i < |before| ==> before[i] < m
    ensures var o := before + seq(k, _ => m);
            Counts(o, m + 1) <==> Counts(before, m) && k == 1
  {
    var o := before + seq(k, _ => m);
    if Counts(o, m + 1) {
      forall n | 0 <= n < |before| ensures before[n] == n && n < m {
        assert before[n] == o[n];
      }
      if before != [] {
        assert before[|before| - 1] == |before| - 1;
      }
      assert o[|before|] == m;
    }
  }

  lemma OnceExtended(texts: seq<string>, text: string)
    ensures Once(texts + [text]) <==> Once(texts) && Single(text)
  {
    if Once(texts + [text]) {
      assert forall i :: 0 <= i < |texts| ==> texts[i] == (texts + [text])[i];
      assert (texts + [text])[|texts|] == text;
    }
  }

  lemma OneEachExtended(texts: seq<string>, text: string)
    ensures OneEach(texts + [text]) <==> OneEach(texts) && Single(text)
  {
    assert (texts + [text])[..|texts|] == texts;
    CountsExtended(Owners(texts), |texts|, |J.Submissions(text)|);
  }

  /** Counting inputs counts questions exactly when every question submits exactly once. */
  lemma {:induction false} OneEachIffOnce(texts: seq<string>)
    ensures OneEach(texts) <==> Once(texts)
  {
    if texts != [] {
      var m := |texts| - 1;
      OneEachIffOnce(texts[..m]);
      OneEachExtended(texts[..m], texts[m]);
      OnceExtended(texts[..m], texts[m]);
      assert texts == texts[..m] + [texts[m]];
    }
  }

  lemma InputAdded(texts: seq<string>, text: string)
    requires J.Submissions(text) == [text] && Inputs(texts) == texts && OneEach(texts)
    ensures Inputs(texts + [text]) == texts + [text] && OneEach(texts + [text])
  {
    assert (texts + [text])[..|texts|] == texts;
    OneEachExtended(texts, text);
  }

  lemma {:induction false} VerbatimInputs(texts: seq<string>)
    requires forall i :: 0 <= i < |texts| ==> texts[i] != "" && J.CR !in texts[i]
    ensures Inputs(texts) == texts && OneEach(texts)
  {
    if texts != [] {
      var m := |texts| - 1;
      VerbatimInputs(texts[..m]);
      J.SubmittedVerbatimIff(texts[m]);
      InputAdded(texts[..m], texts[m]);
      assert texts == texts[..m] + [texts[m]];
    }
  }

  lemma CleanEnd(s0: Sys, moves: seq<Move>, s: Sys, c: string)
    requires Start(s0) && RunsTo(s0, moves, s) && (forall mv <- moves :: Clean(mv, c)) && c in s.w
    ensures SysInv(s) && CleanLink(s.m.conns[c], s.w[c]) && Reachable(s.m)
    ensures Increasing(s.m.conns[c].mine)
  {
    assert SysInv(s0);
    RunKeepsSysInv(s0, moves, s);
    RunKeepsCleanLink(s0, moves, s, c);
    ManagerRun(s0, moves, s);
    assert ConnOk(s.m.t, c, s.m.conns[c]);
  }

  /** If nothing of this connection is lost between the processes and its answers go to their own
      rows, frame n carries the id and key of question n and the result of input n. */
  lemma FrameCarriesResult(s0: Sys, moves: seq<Move>, s: Sys, c: string, n: nat)
    requires Start(s0) && RunsTo(s0, moves, s) && forall mv <- moves :: Clean(mv, c)
    requires c in s.w && c in s.m.conns && OwnRows(s.m.conns[c]) && n < |s.m.conns[c].frames|
    ensures var x, w, t := s.m.conns[c], s.w[c], s.m.t;
      && (forall k <- x.mine :: k in t.rows)
      && n < |x.mine| && n < |w.events| && n < |w.stdin|
      && w.events[n].input == n
      && x.frames[n] == AFrame(x.mine[n], t.rows[x.mine[n]].qid, w.events[n].text)
      && w.stdin <= Inputs(Texts(t, x.mine))
  {
    CleanEnd(s0, moves, s, c);
    var x, w := s.m.conns[c], s.w[c];
    assert LinkOk(s.m.t, x, w);
    FramesFollowQuestions(s.m, c, n);
    AskedIsPrefix(Texts(s.m.t, x.mine), w);
  }

  /** Then frame n names the question that input n comes from exactly when the questions before
      question n submit at most n inputs in all, and with question n more than n. */
  lemma FrameRightIff(s0: Sys, moves: seq<Move>, s: Sys, c: string, n: nat)
    requires Start(s0) && RunsTo(s0, moves, s) && forall mv <- moves :: Clean(mv, c)
    requires c in s.w && c in s.m.conns && OwnRows(s.m.conns[c]) && n < |s.m.conns[c].frames|
    ensures var x, w := s.m.conns[c], s.w[c];
      && (forall k <- x.mine :: k in s.m.t.rows)
      && var texts := Texts(s.m.t, x.mine);
         && n < |w.stdin| && n < |Owners(texts)|
         && w.stdin[n] in J.Submissions(texts[Owners(texts)[n]])
         && (x.frames[n].seqNo == x.mine[Owners(texts)[n]] <==> FallsTo(texts, n, n))
  {
    FrameCarriesResult(s0, moves, s, c, n);
    CleanEnd(s0, moves, s, c);
    var texts := Texts(s.m.t, s.m.conns[c].mine);
    OwnerSubmits(texts, n);
    OwnerIff(texts, n, n);
  }

  /** The manager's part of a run. */
  function ManagerPart(moves: seq<Move>): seq<Action> {
    if moves == [] then []
    else (if moves[0].Manager? then [moves[0].a] else []) + ManagerPart(moves[1..])
  }

  lemma {:induction false} ManagerRunFrom(s: Sys, moves: seq<Move>, s': Sys)
    requires RunsTo(s, moves, s')
    ensures Runs(s.m, ManagerPart(moves), s'.m)
    decreases |moves|
  {
    if moves != [] {
      var rest := ManagerPart(moves[1..]);
      ManagerRunFrom(After(s, moves[0]), moves[1..], s');
      if moves[0].Manager? {
        assert ManagerPart(moves)[1..] == rest;
      } else {
        assert ManagerPart(moves) == rest;
      }
    }
  }

  lemma ManagerRun(s0: Sys, moves: seq<Move>, s: Sys)
    requires Start(s0) && RunsTo(s0, moves, s)
    ensures Reachable(s.m)
  {
    ManagerRunFrom(s0, moves, s);
  }

  // ---------- the end-to-end promise ----------

  /** On a connection that loses nothing between the processes, whose answers are taken in time and
      whose questions are non-empty and free of "\r", and whatever befalls other connections:
      claude's n-th input is the text of the n-th accepted question, and the n-th `a` frame carries
      the id and key of that question together with claude's result for that input. */
  lemma EndToEndPairing(s0: Sys, moves: seq<Move>, s: Sys, c: string, n: nat)
    requires Start(s0) && RunsTo(s0, moves, s)
    requires (forall mv <- moves :: Clean(mv, c)) && TimelyRun(s0.m, ManagerPart(moves), c)
    requires c in s.w && c in s.m.conns && n < |s.m.conns[c].frames|
    requires forall k <- s.m.conns[c].mine ::
      k in s.m.t.rows ==> s.m.t.rows[k].text != "" && J.CR !in s.m.t.rows[k].text
    ensures var x, w, t := s.m.conns[c], s.w[c], s.m.t;
      && n < |x.mine| && n < |w.events| && n < |w.stdin| && x.mine[n] in t.rows
      && x.frames[n] == AFrame(x.mine[n], t.rows[x.mine[n]].qid, w.events[n].text)
      && w.events[n].input == n && w.stdin[n] == t.rows[x.mine[n]].text
  {
    ManagerRunFrom(s0, moves, s);
    AllOwnIffTimely(s0.m, ManagerPart(moves), s.m, c);
    FrameCarriesResult(s0, moves, s, c, n);
    var texts := Texts(s.m.t, s.m.conns[c].mine);
    forall i | 0 <= i < |texts| ensures texts[i] != "" && J.CR !in texts[i] {
      assert s.m.conns[c].mine[i] in s.m.conns[c].mine;
    }
    VerbatimInputs(texts);
  }

  // ---------- one question on its way ----------

  lemma {:induction false} RowStays(s: Sys, moves: seq<Move>, s': Sys, k: nat)
    requires SysInv(s) && RunsTo(s, moves, s') && k in s.m.t.rows
    ensures k in s'.m.t.rows && s'.m.t.rows[k].qid == s.m.t.rows[k].qid && s'.m.t.rows[k].text == s.m.t.rows[k].text
    decreases |moves|
  {
    if moves != [] {
      MoveKeepsInv(s, moves[0]);
      if moves[0].Manager? {
        RowAdvances(s.m, moves[0].a, k);
      }
      RowStays(After(s, moves[0]), moves[1..], s', k);
    }
  }

  lemma MineGrows(s: Sys, mv: Move, c: string)
    requires ValidTable(s.m.t) && CanMove(s, mv) && c in s.m.conns
    ensures c in After(s, mv).m.conns && s.m.conns[c].mine <= After(s, mv).m.conns[c].mine
  {
    if mv.Manager? && !Acts(mv.a, c) {
      BystandersKept(s.m, mv.a, c);
    }
  }

  lemma {:induction false} QuestionStays(s: Sys, moves: seq<Move>, s': Sys, c: string)
    requires RunsTo(s, moves, s') && c in s.m.conns
    ensures c in s'.m.conns && s.m.conns[c].mine <= s'.m.conns[c].mine
    decreases |moves|
  {
    if moves != [] {
      MineGrows(s, moves[0], c);
      QuestionStays(After(s, moves[0]), moves[1..], s', c);
    }
  }

  lemma {:induction false} RunsToSplit(s: Sys, before: seq<Move>, s1: Sys, mv: Move, after: seq<Move>, s': Sys)
    requires RunsTo(s, before, s1) && ValidTable(s1.m.t) && CanMove(s1, mv) && RunsTo(After(s1, mv), after, s')
    ensures RunsTo(s, before + [mv] + after, s')
    decreases |before|
  {
    var all := before + [mv] + after;
    if before == [] {
      assert all[0] == mv && all[1..] == after;
    } else {
      RunsToSplit(After(s, before[0]), before[1..], s1, mv, after, s');
      assert all[0] == before[0] && all[1..] == before[1..] + [mv] + after;
    }
  }

  // The accepted question is the next one of its connection.
  lemma QuestionPlaced(s1: Sys, c: string, k: nat, row: Row, after: seq<Move>, s: Sys)
    requires SysInv(s1) && CanMove(s1, Manager(Accept(c, k, row)))
    requires RunsTo(After(s1, Manager(Accept(c, k, row))), after, s)
    ensures var n := |s1.m.conns[c].mine|;
      && c in s.m.conns && n < |s.m.conns[c].mine| && s.m.conns[c].mine[n] == k && k in s.m.t.rows
      && s.m.t.rows[k].qid == row.qid && s.m.t.rows[k].text == row.text
  {
    var s2 := After(s1, Manager(Accept(c, k, row)));
    MoveKeepsInv(s1, Manager(Accept(c, k, row)));
    RowStays(s2, after, s, k);
    QuestionStays(s2, after, s, c);
    assert s2.m.conns[c].mine[|s1.m.conns[c].mine|] == k;
  }

  // As far as sent, frames 2n and 2n + 1 are this text and "\r".
  predicate TypedAt(frames: seq<string>, n: nat, text: string) {
    && (2 * n < |frames| ==> frames[2 * n] == text)
    && (2 * n + 1 < |frames| ==> frames[2 * n + 1] == "\r")
  }

  /** Whatever happens otherwise: a question that is accepted as the n-th of its connection is typed
      with its text in frame 2n, and with "\r" in the next. */
  lemma QuestionTyped(s0: Sys, before: seq<Move>, s1: Sys, c: string, k: nat, row: Row, after: seq<Move>, s: Sys)
    requires Start(s0) && RunsTo(s0, before, s1) && CanMove(s1, Manager(Accept(c, k, row)))
    requires ValidTable(s1.m.t) && RunsTo(After(s1, Manager(Accept(c, k, row))), after, s)
    ensures c in s.w && c in s1.m.conns
    ensures TypedAt(s.w[c].frames, |s1.m.conns[c].mine|, row.text)
  {
    assert SysInv(s0);
    RunKeepsSysInv(s0, before, s1);
    TypedAfter(s1, c, k, row, after, s);
  }

  lemma TypedAfter(s1: Sys, c: string, k: nat, row: Row, after: seq<Move>, s: Sys)
    requires SysInv(s1) && CanMove(s1, Manager(Accept(c, k, row)))
    requires RunsTo(After(s1, Manager(Accept(c, k, row))), after, s)
    ensures c in s.w
    ensures TypedAt(s.w[c].frames, |s1.m.conns[c].mine|, row.text)
  {
    var mv := Manager(Accept(c, k, row));
    MoveKeepsInv(s1, mv);
    RunKeepsSysInv(After(s1, mv), after, s);
    QuestionPlaced(s1, c, k, row, after, s);
    TypedFrames(s.m.t, s.m.conns[c], s.w[c], |s1.m.conns[c].mine|);
  }

  lemma TypedFrames(t: Table, x: Conn, w: Worker, n: nat)
    requires LinkOk(t, x, w) && n < |x.mine|
    ensures x.mine[n] in t.rows
    ensures TypedAt(w.frames, n, t.rows[x.mine[n]].text)
  {
    assert x.mine[n] in x.mine;
    assert (2 * n) % 2 == 0 && (2 * n) / 2 == n && (2 * n + 1) % 2 == 1;
    assert [J.CR] == "\r";
  }

  /** The whole way of one question: the client sends the id `qid` and the text `text`; on a
      connection as in EndToEndPairing claude is given exactly `text`, and the `a` frame with the
      result for it carries exactly `qid`, and the key of its row. */
  lemma QuestionAnswered(s0: Sys, before: seq<Move>, s1: Sys, c: string, k: nat, qid: string, text: string,
                         timeIn: string, user: Option<string>, charsIn: nat, files: nat, fileBytes: int,
                         after: seq<Move>, s: Sys)
    requires Start(s0) && RunsTo(s0, before, s1) && ValidTable(s1.m.t)
    requires var row := NewRow(c, qid, text, timeIn, user, charsIn, files, fileBytes);
             var mv := Manager(Accept(c, k, row));
      && CanMove(s1, mv) && RunsTo(After(s1, mv), after, s)
      && (forall m <- before + [mv] + after :: Clean(m, c))
      && TimelyRun(s0.m, ManagerPart(before + [mv] + after), c)
    requires c in s.w && c in s.m.conns && |s1.m.conns[c].mine| < |s.m.conns[c].frames|
    requires forall m <- s.m.conns[c].mine ::
      m in s.m.t.rows ==> s.m.t.rows[m].text != "" && J.CR !in s.m.t.rows[m].text
    ensures var n, w := |s1.m.conns[c].mine|, s.w[c];
      && n < |w.events| && n < |w.stdin| && w.events[n].input == n
      && w.stdin[n] == text && s.m.conns[c].frames[n] == AFrame(k, qid, w.events[n].text)
  {
    var mv := Manager(Accept(c, k, NewRow(c, qid, text, timeIn, user, charsIn, files, fileBytes)));
    assert SysInv(s0);
    RunKeepsSysInv(s0, before, s1);
    RunsToSplit(s0, before, s1, mv, after, s);
    QuestionPlaced(s1, c, k, mv.a.row, after, s);
    EndToEndPairing(s0, before + [mv] + after, s, c, |s1.m.conns[c].mine|);
  }

  /** A result in turn is published exactly if it succeeded, and counted as lost exactly if not; a
      lag skips the next event and counts its input as lost. */
  lemma ResultOrLag(s: Sys, mv: Move)
    requires ValidTable(s.m.t) && CanMove(s, mv) && (mv.Result? || mv.Lag?)
    ensures var w, w' := s.w[mv.c], After(s, mv).w[mv.c];
      && (mv.Result? ==>
            && w'.results == w.results + 1 && w'.taken == w.taken
            && w'.events == w.events + (if mv.ok then [Event(mv.text, w.results)] else [])
            && w'.lost == w.lost + (if mv.ok then {} else {w.results}))
      && (mv.Lag? ==>
            && w'.taken == w.taken + 1 && w'.lost == w.lost + {w.events[w.taken].input}
            && w'.events == w.events && w'.results == w.results)
      && w'.stdin == w.stdin && w'.asked == w.asked && w'.read == w.read && w'.origin == w.origin
    ensures After(s, mv).m == s.m
  {
  }

  /** What a delivery does: what the frame submits is asked, and claude is given it exactly if its
      stdin takes it. Nothing else of the connection moves. */
  lemma DeliverGives(s: Sys, c: string, up: bool)
    requires ValidTable(s.m.t) && CanMove(s, Deliver(c, up))
    ensures var w, w' := s.w[c], After(s, Deliver(c, up)).w[c];
            var asked := J.Write(w.buf, w.frames[w.read]).1;
      && w'.asked == w.asked + asked && w'.stdin == w.stdin + (if up then asked else [])
      && w'.read == w.read + 1 && w'.results == w.results && w'.events == w.events && w'.taken == w.taken
  {
  }
}
