/** Runs of both processes in which a row ends up with the answer to another question. */
module EndToEndRuns {
  import opened Wrappers
  import opened ChatTable
  import opened ChatMachine
  import opened ChatProperties
  import opened EndToEnd
  import opened Drift
  import J = JsonSession

  ghost predicate Possible(s: Sys) {
    exists s0, moves :: Start(s0) && RunsTo(s0, moves, s)
  }

  lemma {:induction false} RunsToThen(s0: Sys, moves: seq<Move>, s: Sys, mv: Move)
    requires RunsTo(s0, moves, s) && ValidTable(s.m.t) && CanMove(s, mv)
    ensures RunsTo(s0, moves + [mv], After(s, mv))
    decreases |moves|
  {
    if moves != [] {
      RunsToThen(After(s0, moves[0]), moves[1..], s, mv);
      assert (moves + [mv])[1..] == moves[1..] + [mv];
    } else {
      assert (moves + [mv])[1..] == [];
    }
  }

  lemma Then(s: Sys, mv: Move) returns (s': Sys)
    requires Possible(s) && ValidTable(s.m.t) && CanMove(s, mv)
    ensures s' == After(s, mv) && Possible(s') && ValidTable(s'.m.t)
  {
    var s0, moves :| Start(s0) && RunsTo(s0, moves, s);
    RunsToThen(s0, moves, s, mv);
    s' := After(s, mv);
    TablesStayValid(s, mv);
  }

  function QuestionRow(text: string): Row { NewRow("c", "id", text, "t", None, |text|, 0, 0) }

  // Connection "c" alone, between two questions, everything read and nothing refused.
  ghost predicate Ready(s: Sys) {
    && Possible(s) && ValidTable(s.m.t) && s.m.conns.Keys == {"c"} && s.w.Keys == {"c"}
    && s.m.conns["c"].reader.Idle? && s.m.conns["c"].qa.Waiting?
    && s.w["c"].buf == "" && s.w["c"].read == |s.w["c"].frames|
  }

  // What the worker holds after a question and its "\r".
  ghost predicate Heard(w: Worker, text: string, w': Worker) {
    && w'.buf == "" && w'.read == |w'.frames| && w'.stdin == w.stdin + J.Submissions(text)
    && w'.results == w.results && w'.events == w.events && w'.taken == w.taken
  }

  lemma WriteTwice(w: Worker, body: string, early: seq<string>, tail: string, last: seq<string>)
    requires J.Write(w.buf, body) == (tail, early) && J.Write(tail, [J.CR]) == ("", last)
    ensures var w' := Written(Written(w, body, true), [J.CR], true);
      && w'.buf == "" && w'.read == w.read + 2 && w'.stdin == w.stdin + early + last
      && w'.results == w.results && w'.events == w.events && w'.taken == w.taken && w'.frames == w.frames
  {
  }

  lemma HeardAll(w0: Worker, w: Worker, text: string)
    requires w0.buf == "" && w == w0.(frames := w0.frames + [text, [J.CR]]) && w0.read == |w0.frames|
    ensures Heard(w0, text, Written(Written(w, text, true), [J.CR], true))
  {
    var last := if J.Tail(text) == "" then [] else [J.Tail(text)];
    J.QuestionWrites(text);
    WriteTwice(w, text, J.Early(text), J.Tail(text), last);
    assert w.stdin + J.Early(text) + last == w.stdin + (J.Early(text) + last);
  }

  // The reader takes a question in and sends its text.
  lemma BodyFrameSent(s: Sys, k: nat, text: string) returns (s': Sys)
    requires Ready(s) && s.m.t.next <= k
    ensures Possible(s') && ValidTable(s'.m.t)
    ensures var x, w := s.m.conns["c"], s.w["c"];
      && s'.m == State(Insert(s.m.t, k, QuestionRow(text)),
                       s.m.conns["c" := x.(reader := BodySent(k), mine := x.mine + [k])])
      && s'.w == s.w["c" := w.(frames := w.frames + [text])]
  {
    s' := Then(s, Manager(Accept("c", k, QuestionRow(text))));
    s' := Then(s', Manager(SendBody("c", true, true)));
  }

  // And its "\r".
  lemma FramesSent(s: Sys, k: nat, text: string) returns (s': Sys)
    requires Ready(s) && s.m.t.next <= k
    ensures Possible(s') && ValidTable(s'.m.t)
    ensures var x, w := s.m.conns["c"], s.w["c"];
      && s'.m == State(Insert(s.m.t, k, QuestionRow(text)),
                       s.m.conns["c" := x.(reader := EnterSent(k), mine := x.mine + [k])])
      && s'.w == s.w["c" := w.(frames := w.frames + [text, [J.CR]])]
  {
    s' := BodyFrameSent(s, k, text);
    s' := Then(s', Manager(SendEnter("c", true, true)));
    assert s.w["c"].frames + [text] + [[J.CR]] == s.w["c"].frames + [text, [J.CR]];
  }

  // The manager's part of asking: row k goes from pending to 'sent'.
  lemma Typed(s: Sys, k: nat, text: string) returns (s': Sys)
    requires Ready(s) && s.m.t.next <= k
    ensures Possible(s') && ValidTable(s'.m.t)
    ensures var x, w := s.m.conns["c"], s.w["c"];
      && s'.m == State(SetStatus(Insert(s.m.t, k, QuestionRow(text)), k, Sent),
                       s.m.conns["c" := x.(mine := x.mine + [k], marked := x.marked + [k])])
      && s'.w == s.w["c" := w.(frames := w.frames + [text, [J.CR]])]
  {
    s' := FramesSent(s, k, text);
    s' := Then(s', Manager(MarkSent("c", true)));
  }

  // Both frames are read.
  lemma Read(s: Sys, w0: Worker, text: string) returns (s': Sys)
    requires Possible(s) && ValidTable(s.m.t) && "c" in s.w && w0.buf == "" && w0.read == |w0.frames|
    requires s.w["c"] == w0.(frames := w0.frames + [text, [J.CR]])
    ensures Possible(s') && s'.m == s.m && s'.w.Keys == s.w.Keys && Heard(w0, text, s'.w["c"])
  {
    assert s.w["c"].frames[w0.read] == text && s.w["c"].frames[w0.read + 1] == [J.CR];
    s' := Then(s, Deliver("c", true));
    s' := Then(s', Deliver("c", true));
    HeardAll(w0, s.w["c"], text);
  }

  // A question is asked, marked and read by the worker.
  lemma Asked(s: Sys, k: nat, text: string) returns (s': Sys)
    requires Ready(s) && s.m.t.next <= k
    ensures Ready(s') && Heard(s.w["c"], text, s'.w["c"])
    ensures var x := s.m.conns["c"];
      s'.m == State(SetStatus(Insert(s.m.t, k, QuestionRow(text)), k, Sent),
                    s.m.conns["c" := x.(mine := x.mine + [k], marked := x.marked + [k])])
  {
    s' := Typed(s, k, text);
    s' := Read(s', s.w["c"], text);
  }

  function SentRow(text: string): Row { QuestionRow(text).(status := Sent) }

  lemma Opened() returns (s: Sys)
    ensures Ready(s) && s.m.t == Table(map[], 0) && s.m.conns["c"] == NEW_CONN && s.w["c"] == NEW_WORKER
  {
    s := Sys(State(Table(map[], 0), map[]), map[]);
    assert RunsTo(s, [], s);
    s := Then(s, Manager(Open("c")));
  }

  lemma OneAsked(first: string) returns (s: Sys)
    ensures Ready(s) && s.m.t == Table(map[0 := SentRow(first)], 1) && s.m.conns["c"].mine == [0]
    ensures Heard(NEW_WORKER, first, s.w["c"])
  {
    s := Opened();
    s := Asked(s, 0, first);
    assert s.m.t.rows == map[0 := SentRow(first)];
    assert NEW_CONN.mine + [0] == [0];
  }

  // Two questions stand as rows 0 and 1, marked, and claude has been given both.
  lemma TwoAsked(first: string, second: string) returns (s: Sys)
    ensures Ready(s) && s.m.t == Table(map[0 := SentRow(first), 1 := SentRow(second)], 2)
    ensures s.m.conns["c"].mine == [0, 1]
    ensures var w := s.w["c"];
      && w.stdin == J.Submissions(first) + J.Submissions(second)
      && w.results == 0 && w.events == [] && w.taken == 0
  {
    s := OneAsked(first);
    var mine, stdin := s.m.conns["c"].mine, s.w["c"].stdin;
    s := Asked(s, 1, second);
    assert s.m.t.rows == map[0 := SentRow(first), 1 := SentRow(second)];
    assert mine + [1] == [0, 1] && [] + J.Submissions(first) == J.Submissions(first);
  }

  // Claude's next result arrives and is paired with the oldest row `k`.
  lemma Paired(s: Sys, text: string, k: nat) returns (s': Sys)
    requires Ready(s) && OldestSent(s.m.t, "c") == Some(k)
    requires var w := s.w["c"]; w.results < |w.stdin| && w.taken == |w.events|
    ensures Possible(s') && ValidTable(s'.m.t) && s'.m.t == s.m.t
    ensures s'.m.conns.Keys == {"c"} && s'.w.Keys == {"c"}
    ensures var x, x' := s.m.conns["c"], s'.m.conns["c"];
      x'.reader.Idle? && x'.mine == x.mine && x'.qa == Popped(k, text)
    ensures var w, w' := s.w["c"], s'.w["c"];
      && w'.stdin == w.stdin && w'.results == w.results + 1 && w'.taken == w.taken + 1
      && w'.events == w.events + [Event(text, w.results)]
      && w'.buf == w.buf && w'.read == w.read && w'.frames == w.frames
  {
    s' := Then(s, Result("c", true, text));
    s' := Then(s', Manager(Take("c", text, true)));
  }

  // And it is recorded and forwarded.
  lemma Resulted(s: Sys, text: string, k: nat) returns (s': Sys)
    requires Ready(s) && OldestSent(s.m.t, "c") == Some(k)
    requires var w := s.w["c"]; w.results < |w.stdin| && w.taken == |w.events|
    ensures Ready(s') && s'.m.t == MarkAnswered(s.m.t, k, text) && s'.m.conns["c"].mine == s.m.conns["c"].mine
    ensures var w, w' := s.w["c"], s'.w["c"];
      && w'.stdin == w.stdin && w'.results == w.results + 1 && w'.taken == w.taken + 1
      && w'.events == w.events + [Event(text, w.results)]
  {
    s' := Paired(s, text, k);
    s' := Then(s', Manager(Record("c", true)));
    s' := Then(s', Manager(Forward("c")));
  }

  predicate Plain(text: string) { text != "" && J.CR !in text }

  lemma FirstIsOldest(t: Table, k: nat)
    requires ValidTable(t) && IsSentOf(t, "c", k) && forall i: nat :: i < k ==> !IsSentOf(t, "c", i)
    ensures OldestSent(t, "c") == Some(k)
  {
  }

  /** For any two plain questions: if claude fails on the first, its row gets the answer to the
      second, whose own row waits. */
  lemma FailedResultShifts(first: string, second: string, answer: string) returns (s: Sys)
    requires Plain(first) && Plain(second)
    ensures Possible(s) && "c" in s.w && 0 in s.m.t.rows && 1 in s.m.t.rows
    ensures s.m.t.rows[0].text == first && s.m.t.rows[1].text == second
    ensures s.w["c"].stdin == [first, second] && s.w["c"].events == [Event(answer, 1)]
    ensures s.m.t.rows[0].answer == Some(answer) && s.m.t.rows[1].status == Sent
  {
    J.SubmittedVerbatimIff(first);
    J.SubmittedVerbatimIff(second);
    s := TwoAsked(first, second);
    s := Then(s, Result("c", false, ""));
    FirstIsOldest(s.m.t, 0);
    s := Resulted(s, answer, 0);
  }

  // The text and its "\r" are read, and claude's stdin takes nothing.
  lemma Refused(s: Sys, k: nat, text: string) returns (s': Sys)
    requires Ready(s) && s.m.t.next <= k && Plain(text)
    ensures Ready(s')
    ensures var x := s.m.conns["c"];
      s'.m == State(SetStatus(Insert(s.m.t, k, QuestionRow(text)), k, Sent),
                    s.m.conns["c" := x.(mine := x.mine + [k], marked := x.marked + [k])])
    ensures NotHeard(s.w["c"], s'.w["c"])
  {
    s' := Typed(s, k, text);
    s' := ReadInVain(s', s.w["c"], text);
  }

  lemma ReadInVain(s: Sys, w0: Worker, text: string) returns (s': Sys)
    requires Possible(s) && ValidTable(s.m.t) && "c" in s.w && w0.buf == "" && w0.read == |w0.frames|
    requires s.w["c"] == w0.(frames := w0.frames + [text, [J.CR]])
    ensures Possible(s') && s'.m == s.m && s'.w.Keys == s.w.Keys && NotHeard(w0, s'.w["c"])
  {
    assert s.w["c"].frames[w0.read] == text && s.w["c"].frames[w0.read + 1] == [J.CR];
    s' := Then(s, Deliver("c", false));
    s' := Then(s', Deliver("c", false));
    WrittenInVain(w0, s.w["c"], text);
  }

  ghost predicate NotHeard(w: Worker, w': Worker) {
    && w'.buf == "" && w'.read == |w'.frames| && w'.stdin == w.stdin
    && w'.results == w.results && w'.events == w.events && w'.taken == w.taken
  }

  lemma WrittenInVain(w0: Worker, w: Worker, text: string)
    requires w0.buf == "" && w == w0.(frames := w0.frames + [text, [J.CR]]) && w0.read == |w0.frames|
    ensures NotHeard(w0, Written(Written(w, text, false), [J.CR], false))
  {
    J.QuestionWrites(text);
  }

  /** For any two plain questions: if claude's stdin refuses the first, its row gets the answer to the
      second, whose own row waits. */
  lemma RefusedQuestionShifts(first: string, second: string, answer: string) returns (s: Sys)
    requires Plain(first) && Plain(second)
    ensures Possible(s) && "c" in s.w && 0 in s.m.t.rows && 1 in s.m.t.rows
    ensures s.m.t.rows[0].text == first && s.m.t.rows[1].text == second
    ensures s.w["c"].stdin == [second] && s.w["c"].events == [Event(answer, 0)]
    ensures s.m.t.rows[0].answer == Some(answer) && s.m.t.rows[1].status == Sent
  {
    J.SubmittedVerbatimIff(second);
    s := Opened();
    s := Refused(s, 0, first);
    assert s.m.t.rows == map[0 := SentRow(first)];
    s := Asked(s, 1, second);
    assert s.m.t.rows == map[0 := SentRow(first), 1 := SentRow(second)];
    FirstIsOldest(s.m.t, 0);
    s := Resulted(s, answer, 0);
  }

  /** For any two plain questions: if the first result is skipped by a lag, its row gets the answer to
      the second, whose own row waits. */
  lemma LagShifts(first: string, second: string, skipped: string, answer: string) returns (s: Sys)
    requires Plain(first) && Plain(second)
    ensures Possible(s) && "c" in s.w && 0 in s.m.t.rows && 1 in s.m.t.rows
    ensures s.m.t.rows[0].text == first && s.m.t.rows[1].text == second
    ensures s.w["c"].stdin == [first, second] && s.w["c"].events == [Event(skipped, 0), Event(answer, 1)]
    ensures s.m.t.rows[0].answer == Some(answer) && s.m.t.rows[1].status == Sent
  {
    J.SubmittedVerbatimIff(first);
    J.SubmittedVerbatimIff(second);
    s := TwoAsked(first, second);
    s := Then(s, Result("c", true, skipped));
    s := Then(s, Lag("c"));
    FirstIsOldest(s.m.t, 0);
    s := Resulted(s, answer, 0);
  }

  lemma SplitText(a: string, b: string)
    requires Plain(a) && Plain(b)
    ensures J.Submissions(a + [J.CR] + b) == [a, b]
  {
    J.TwoParts(a, b);
    J.OneNonEmpty(a);
  }

  /** A question with a "\r" inside is two inputs: the next row gets the result for its second
      part, and no row is left for the answer to that next question. */
  lemma ReturnShifts(a: string, b: string, second: string, toA: string, toB: string) returns (s: Sys)
    requires Plain(a) && Plain(b) && Plain(second)
    ensures Possible(s) && "c" in s.w && 0 in s.m.t.rows && 1 in s.m.t.rows
    ensures s.m.t.rows[0].text == a + [J.CR] + b && s.m.t.rows[1].text == second
    ensures s.w["c"].stdin == [a, b, second] && s.w["c"].events == [Event(toA, 0), Event(toB, 1)]
    ensures s.m.t.rows[1].answer == Some(toB) && forall k :: !IsSentOf(s.m.t, "c", k)
  {
    SplitText(a, b);
    J.SubmittedVerbatimIff(second);
    s := TwoAsked(a + [J.CR] + b, second);
    FirstIsOldest(s.m.t, 0);
    s := Resulted(s, toA, 0);
    FirstIsOldest(s.m.t, 1);
    s := Resulted(s, toB, 1);
  }
}
