/** The terminal scraper: questions and answers read off the rendered screen, again and again. */
module Scrape {
  import opened Paths
  import opened Wrappers

  // ---------- one answer from its screen rows ----------

  datatype Row = Row(text: string, full: bool)

  type Structural = string -> bool

  datatype Joining = Joining(out: string, prevFull: bool, prevStruct: bool, afterBreak: bool)

  function Separator(j: Joining, struct: bool): string {
    if j.out == "" then ""
    else if j.afterBreak || struct || j.prevStruct then "\n"
    else if j.prevFull then " " else "\n"
  }

  function Joined(j: Joining, r: Row, structural: Structural): Joining {
    if r.text == "" then
      if j.out == "" then j else Joining(j.out + "\n", false, false, true)
    else
      var struct := structural(r.text);
      Joining(j.out + Separator(j, struct) + r.text, r.full, struct, false)
  }

  function JoinedAll(rows: seq<Row>, structural: Structural): Joining {
    if rows == [] then Joining("", false, false, true)
    else Joined(JoinedAll(rows[..|rows| - 1], structural), rows[|rows| - 1], structural)
  }

  // Runs of three or more newlines become two; `run` of them were just kept.
  function Squeezed(s: string, run: nat): string {
    if s == "" then ""
    else if s[0] != '\n' then [s[0]] + Squeezed(s[1..], 0)
    else if run >= 2 then Squeezed(s[1..], run)
    else "\n" + Squeezed(s[1..], run + 1)
  }

  function AnswerText(rows: seq<Row>, structural: Structural): string {
    Trim(Squeezed(JoinedAll(rows, structural).out, 0))
  }

  /** Rows that fill the width are continued by a space, others by a newline; table and code rows
      keep their line; blank rows separate paragraphs. */
  method JoinAnswer(rows: seq<Row>, structural: Structural) returns (text: string)
    ensures text == AnswerText(rows, structural)
  {
    var out, prevFull, prevStruct, afterBreak := "", false, false, true;
    for i := 0 to |rows|
      invariant JoinedAll(rows[..i], structural) == Joining(out, prevFull, prevStruct, afterBreak)
    {
      var r := rows[i];
      assert rows[..i + 1][..i] == rows[..i];
      if r.text == "" {
        if out != "" {
          out := out + "\n";
          afterBreak, prevFull, prevStruct := true, false, false;
        }
        continue;
      }
      var struct := structural(r.text);
      if out == "" {
        out := r.text;
      } else if afterBreak {
        out := out + "\n" + r.text;
      } else if struct || prevStruct {
        out := out + "\n" + r.text;
      } else if prevFull {
        out := out + " " + r.text;
      } else {
        out := out + "\n" + r.text;
      }
      prevFull, prevStruct, afterBreak := r.full, struct, false;
    }
    assert rows[..|rows|] == rows;
    text := Trim(Squeezed(out, 0));
  }

  function Visible(s: string): string {
    if s == "" then "" else (if IsSpace(s[0]) then "" else [s[0]]) + Visible(s[1..])
  }

  function VisibleRows(rows: seq<Row>): string {
    if rows == [] then "" else VisibleRows(rows[..|rows| - 1]) + Visible(rows[|rows| - 1].text)
  }

  ghost predicate NoTripleNewline(s: string) {
    forall i :: 0 <= i && i + 2 < |s| ==> !(s[i] == '\n' && s[i + 1] == '\n' && s[i + 2] == '\n')
  }

  /** Visible text is all of a text but its white space. */
  lemma {:induction false} VisibleIsAll(s: string)
    ensures (forall i :: 0 <= i < |s| ==> s[i] !in " \t\n\r") ==> Visible(s) == s
    ensures forall c <- Visible(s) :: c in s && c !in " \t\n\r"
  {
    if s != "" {
      VisibleIsAll(s[1..]);
      assert s == [s[0]] + s[1..];
      if forall i :: 0 <= i < |s| ==> s[i] !in " \t\n\r" {
        assert forall i :: 0 <= i < |s[1..]| ==> s[1..][i] == s[i + 1];
      }
    }
  }

  lemma {:induction false} VisibleConcat(a: string, b: string)
    ensures Visible(a + b) == Visible(a) + Visible(b)
  {
    if a == "" {
      assert a + b == b;
    } else {
      assert (a + b)[1..] == a[1..] + b;
      VisibleConcat(a[1..], b);
    }
  }

  lemma {:induction false} VisibleSqueezed(s: string, run: nat)
    ensures Visible(Squeezed(s, run)) == Visible(s)
  {
    if s != "" {
      VisibleSqueezed(s[1..], if s[0] != '\n' then 0 else if run >= 2 then run else run + 1);
      if s[0] != '\n' {
        assert Squeezed(s, run)[1..] == Squeezed(s[1..], 0);
      } else if run < 2 {
        assert Squeezed(s, run)[1..] == Squeezed(s[1..], run + 1);
      }
    }
  }

  lemma {:induction false} VisibleTrimStart(s: string) returns (k: nat)
    ensures Visible(TrimStart(s)) == Visible(s) && k <= |s| && TrimStart(s) == s[k..]
  {
    if s != "" && IsSpace(s[0]) {
      k := VisibleTrimStart(s[1..]);
      assert s[1..][k..] == s[k + 1..];
      k := k + 1;
    } else {
      k := 0;
    }
  }

  lemma {:induction false} VisibleTrimEnd(s: string)
    ensures Visible(TrimEnd(s)) == Visible(s) && TrimEnd(s) <= s
  {
    if s != "" && IsSpace(s[|s| - 1]) {
      VisibleTrimEnd(s[..|s| - 1]);
      VisibleConcat(s[..|s| - 1], [s[|s| - 1]]);
      assert s == s[..|s| - 1] + [s[|s| - 1]];
      assert Visible([s[|s| - 1]]) == "" + Visible([s[|s| - 1]][1..]);
    }
  }

  lemma {:induction false} SqueezedNoTriple(s: string, run: nat)
    requires run <= 2
    ensures var t := Squeezed(s, run);
      && NoTripleNewline(t)
      && (run >= 1 ==> |t| < 2 || t[0] != '\n' || t[1] != '\n')
      && (run >= 2 ==> t == "" || t[0] != '\n')
  {
    if s != "" {
      if s[0] != '\n' {
        SqueezedNoTriple(s[1..], 0);
        Prepended(s[0], Squeezed(s[1..], 0));
      } else if run >= 2 {
        SqueezedNoTriple(s[1..], run);
      } else {
        SqueezedNoTriple(s[1..], run + 1);
        Prepended('\n', Squeezed(s[1..], run + 1));
      }
    }
  }

  lemma Prepended(c: char, t: string)
    requires NoTripleNewline(t) && (c != '\n' || |t| < 2 || t[0] != '\n' || t[1] != '\n')
    ensures NoTripleNewline([c] + t)
  {
    var s := [c] + t;
    forall i | 0 <= i && i + 2 < |s| ensures !(s[i] == '\n' && s[i + 1] == '\n' && s[i + 2] == '\n') {
      if i > 0 {
        assert s[i] == t[i - 1] && s[i + 1] == t[i - 1 + 1] && s[i + 2] == t[i - 1 + 2];
      }
    }
  }

  lemma SeparatorsInvisible()
    ensures Visible("\n") == "" && Visible(" ") == "" && Visible("") == ""
  {
    assert "\n"[1..] == "" && " "[1..] == "";
  }

  lemma VisibleStep(j: Joining, r: Row, structural: Structural)
    ensures Visible(Joined(j, r, structural).out) == Visible(j.out) + Visible(r.text)
  {
    var sep := Separator(j, structural(r.text));
    SeparatorsInvisible();
    VisibleConcat(j.out, "\n");
    VisibleConcat(j.out, sep);
    VisibleConcat(j.out + sep, r.text);
  }

  lemma {:induction false} VisibleJoined(rows: seq<Row>, structural: Structural)
    ensures Visible(JoinedAll(rows, structural).out) == VisibleRows(rows)
  {
    if rows != [] {
      VisibleJoined(rows[..|rows| - 1], structural);
      VisibleStep(JoinedAll(rows[..|rows| - 1], structural), rows[|rows| - 1], structural);
    }
  }

  lemma NoTripleWithin(s: string, k: nat, t: string)
    requires NoTripleNewline(s) && k <= |s| && t <= s[k..]
    ensures NoTripleNewline(t)
  {
    forall i | 0 <= i && i + 2 < |t| ensures !(t[i] == '\n' && t[i + 1] == '\n' && t[i + 2] == '\n') {
      assert t[i] == s[k + i] && t[i + 1] == s[k + i + 1] && t[i + 2] == s[k + i + 2];
    }
  }

  lemma TrimKeeps(s: string)
    requires NoTripleNewline(s)
    ensures Visible(Trim(s)) == Visible(s) && NoTripleNewline(Trim(s))
  {
    var k := VisibleTrimStart(s);
    VisibleTrimEnd(TrimStart(s));
    NoTripleWithin(s, k, Trim(s));
  }

  /** No visible character is lost, added or moved, whatever the rows, and paragraphs are at most
      one blank line apart. */
  lemma AnswerKeepsText(rows: seq<Row>, structural: Structural)
    ensures Visible(AnswerText(rows, structural)) == VisibleRows(rows)
    ensures NoTripleNewline(AnswerText(rows, structural))
  {
    var raw := JoinedAll(rows, structural).out;
    VisibleJoined(rows, structural);
    VisibleSqueezed(raw, 0);
    SqueezedNoTriple(raw, 0);
    TrimKeeps(Squeezed(raw, 0));
  }

  // ---------- how rows are joined, without the loop's state ----------

  lemma JoinedSnoc(rows: seq<Row>, r: Row, structural: Structural)
    ensures JoinedAll(rows + [r], structural) == Joined(JoinedAll(rows, structural), r, structural)
  {
    assert (rows + [r])[..|rows|] == rows;
  }

  lemma {:induction false} OutOfVisibleRow(rows: seq<Row>, r: Row, structural: Structural)
    requires r.text != ""
    ensures var j := JoinedAll(rows + [r], structural);
            j.out != "" && j.prevFull == r.full && j.prevStruct == structural(r.text) && !j.afterBreak
  {
    JoinedSnoc(rows, r, structural);
  }

  /** A row directly below another goes on after a space if the one above fills the width and
      neither is part of a table or of code; else it starts a new line. */
  lemma RowBelowRow(rows: seq<Row>, above: Row, r: Row, structural: Structural)
    requires above.text != "" && r.text != ""
    ensures JoinedAll(rows + [above] + [r], structural).out ==
            JoinedAll(rows + [above], structural).out +
            (if above.full && !structural(above.text) && !structural(r.text) then " " else "\n") + r.text
  {
    OutOfVisibleRow(rows, above, structural);
    JoinedSnoc(rows + [above], r, structural);
  }

  /** A row below blank rows, however many, starts a new paragraph; blank rows on top count nothing. */
  lemma RowBelowBlank(rows: seq<Row>, blank: Row, r: Row, structural: Structural)
    requires blank.text == "" && r.text != ""
    ensures var out := JoinedAll(rows, structural).out;
      && JoinedAll(rows + [blank], structural).out == (if out == "" then "" else out + "\n")
      && JoinedAll(rows + [blank] + [r], structural).out == (if out == "" then r.text else out + "\n" + "\n" + r.text)
  {
    JoinedSnoc(rows, blank, structural);
    JoinedSnoc(rows + [blank], r, structural);
  }

  lemma FirstRow(r: Row, structural: Structural)
    ensures JoinedAll([r], structural).out == r.text
  {
    assert [] + [r] == [r];
    JoinedSnoc([], r, structural);
  }

  function NewLines(k: nat): string { seq(k, _ => '\n') }

  lemma {:induction false} SqueezedNewLines(k: nat, rest: string, run: nat)
    requires run <= 2 && (rest == "" || rest[0] != '\n')
    ensures Squeezed(NewLines(k) + rest, run) == NewLines(if k <= 2 - run then k else 2 - run) + Squeezed(rest, 0)
  {
    if k == 0 {
      assert NewLines(0) + rest == rest;
    } else {
      assert (NewLines(k) + rest)[1..] == NewLines(k - 1) + rest;
      SqueezedNewLines(k - 1, rest, if run >= 2 then run else run + 1);
      if run < 2 {
        var m := if k <= 2 - run then k else 2 - run;
        assert "\n" + NewLines(m - 1) == NewLines(m);
      }
    }
  }

  lemma {:induction false} SqueezedConcat(a: string, b: string, run: nat)
    requires a != "" && a[|a| - 1] != '\n'
    ensures Squeezed(a + b, run) == Squeezed(a, run) + Squeezed(b, 0)
  {
    assert (a + b)[1..] == a[1..] + b;
    if |a| == 1 {
      assert a[1..] + b == b;
    } else {
      SqueezedConcat(a[1..], b, if a[0] != '\n' then 0 else if run >= 2 then run else run + 1);
    }
  }

  lemma {:induction false} SqueezedPlain(s: string)
    requires '\n' !in s
    ensures Squeezed(s, 0) == s
  {
    if s != "" {
      SqueezedPlain(s[1..]);
      assert s == [s[0]] + s[1..];
    }
  }

  /** Of a run of newlines between two texts exactly the first two are kept; all else is kept. */
  lemma RunsOfNewLines(a: string, k: nat, rest: string)
    requires a != "" && '\n' !in a && (rest == "" || rest[0] != '\n')
    ensures Squeezed(a + (NewLines(k) + rest), 0) == a + (NewLines(if k <= 2 then k else 2) + Squeezed(rest, 0))
  {
    LastIsNone(a);
    SqueezedConcat(a, NewLines(k) + rest, 0);
    SqueezedPlain(a);
    SqueezedNewLines(k, rest, 0);
  }

  lemma LastIsNone(a: string)
    requires a != "" && '\n' !in a
    ensures a[|a| - 1] != '\n'
  {
  }

  // ---------- questions and answers on one screen ----------

  /** A trimmed screen line as the scraper's patterns sort it. */
  datatype Line =
    | Blank
    | Question(q: string)
    | Prompt                                            // a prompt with nothing typed
    | Bullet(text: string, full: bool, chrome: bool)    // "● …"
    | Other(text: string, full: bool, chrome: bool)

  datatype Pair = Pair(q: string, a: string)

  datatype Reading = Reading(current: Option<string>, rows: seq<Row>, pairs: seq<Pair>)

  function Closed(s: Reading, structural: Structural): seq<Pair> {
    if s.current.Some? && s.rows != [] then s.pairs + [Pair(s.current.value, AnswerText(s.rows, structural))]
    else s.pairs
  }

  function Read(s: Reading, line: Line, structural: Structural): Reading {
    match line
    case Blank => if s.current.Some? && s.rows != [] then s.(rows := s.rows + [Row("", false)]) else s
    case Question(q) => Reading(Some(q), [], Closed(s, structural))
    case Prompt => s
    case Bullet(text, full, chrome) => if s.current.Some? && !chrome then s.(rows := s.rows + [Row(text, full)]) else s
    case Other(text, full, chrome) =>
      if s.rows != [] && s.current.Some? && !chrome then s.(rows := s.rows + [Row(text, full)]) else s
  }

  function ReadAll(s: Reading, lines: seq<Line>, structural: Structural): Reading {
    if lines == [] then s else Read(ReadAll(s, lines[..|lines| - 1], structural), lines[|lines| - 1], structural)
  }

  const NOTHING := Reading(None, [], [])

  function PairsOf(lines: seq<Line>, structural: Structural): seq<Pair> {
    Closed(ReadAll(NOTHING, lines, structural), structural)
  }

  lemma {:induction false} ReadOn(s: Reading, lines: seq<Line>, more: seq<Line>, structural: Structural)
    ensures ReadAll(s, lines + more, structural) == ReadAll(ReadAll(s, lines, structural), more, structural)
    ensures s.pairs <= ReadAll(s, more, structural).pairs
    decreases |more|
  {
    if more == [] {
      assert lines + more == lines;
    } else {
      var front := more[..|more| - 1];
      assert (lines + more)[..|lines + more| - 1] == lines + front;
      ReadOn(s, lines, front, structural);
    }
  }

  /** When the screen grows, pairs that a later question has closed stay as they are. */
  lemma ClosedPairsStay(lines: seq<Line>, more: seq<Line>, structural: Structural)
    ensures ReadAll(NOTHING, lines, structural).pairs <= PairsOf(lines + more, structural)
  {
    ReadOn(NOTHING, lines, more, structural);
    ReadOn(ReadAll(NOTHING, lines, structural), [], more, structural);
  }

  // ---------- the screen as questions with what stands below them ----------

  datatype Block = Block(q: string, below: seq<Line>)

  // A row that opens an answer.
  predicate Opens(line: Line) { line.Bullet? && !line.chrome }

  // The rows a line adds to an answer that is open.
  function RowsOf(line: Line): seq<Row> {
    match line
    case Blank => [Row("", false)]
    case Bullet(text, full, chrome) => if chrome then [] else [Row(text, full)]
    case Other(text, full, chrome) => if chrome then [] else [Row(text, full)]
    case _ => []
  }

  function AllRows(lines: seq<Line>): seq<Row> {
    if lines == [] then [] else RowsOf(lines[0]) + AllRows(lines[1..])
  }

  /** An answer is everything from the first bullet on, but for furniture. */
  function AnswerRows(lines: seq<Line>): seq<Row> {
    if lines == [] then [] else if Opens(lines[0]) then AllRows(lines) else AnswerRows(lines[1..])
  }

  function Laid(blocks: seq<Block>): seq<Line> {
    if blocks == [] then []
    else
      var last := blocks[|blocks| - 1];
      Laid(blocks[..|blocks| - 1]) + ([Question(last.q)] + last.below)
  }

  /** Each question with the answer below it, if there is one. */
  function Answered(blocks: seq<Block>, structural: Structural): seq<Pair> {
    if blocks == [] then []
    else
      var last := blocks[|blocks| - 1];
      var rows := AnswerRows(last.below);
      Answered(blocks[..|blocks| - 1], structural) +
      if rows == [] then [] else [Pair(last.q, AnswerText(rows, structural))]
  }

  lemma {:induction false} AllRowsSnoc(lines: seq<Line>, line: Line)
    ensures AllRows(lines + [line]) == AllRows(lines) + RowsOf(line)
  {
    if lines == [] {
      assert [line][1..] == [];
    } else {
      assert (lines + [line])[1..] == lines[1..] + [line];
      AllRowsSnoc(lines[1..], line);
    }
  }

  lemma {:induction false} AnswerRowsSnoc(lines: seq<Line>, line: Line)
    ensures AnswerRows(lines + [line]) ==
            if AnswerRows(lines) != [] then AnswerRows(lines) + RowsOf(line)
            else if Opens(line) then RowsOf(line) else []
  {
    if lines == [] {
      assert [line][1..] == [];
    } else {
      assert (lines + [line])[1..] == lines[1..] + [line];
      AllRowsSnoc(lines, line);
      AnswerRowsSnoc(lines[1..], line);
    }
  }

  lemma {:induction false} ReadBelow(q: string, pairs: seq<Pair>, lines: seq<Line>, structural: Structural)
    requires forall line <- lines :: !line.Question?
    ensures ReadAll(Reading(Some(q), [], pairs), lines, structural) == Reading(Some(q), AnswerRows(lines), pairs)
  {
    if lines != [] {
      var front, last := lines[..|lines| - 1], lines[|lines| - 1];
      ReadBelow(q, pairs, front, structural);
      AnswerRowsSnoc(front, last);
      assert lines == front + [last] && last in lines;
    }
  }

  lemma {:induction false} ReadAbove(lines: seq<Line>, structural: Structural)
    requires forall line <- lines :: !line.Question?
    ensures ReadAll(NOTHING, lines, structural) == NOTHING
  {
    if lines != [] {
      ReadAbove(lines[..|lines| - 1], structural);
      assert lines[|lines| - 1] in lines;
    }
  }

  ghost predicate BlocksOk(blocks: seq<Block>) {
    forall b <- blocks :: forall line <- b.below :: !line.Question?
  }

  lemma {:induction false} BlocksRead(blocks: seq<Block>, structural: Structural)
    requires BlocksOk(blocks)
    ensures Closed(ReadAll(NOTHING, Laid(blocks), structural), structural) == Answered(blocks, structural)
  {
    if blocks != [] {
      var front, last := blocks[..|blocks| - 1], blocks[|blocks| - 1];
      var s := ReadAll(NOTHING, Laid(front), structural);
      BlocksRead(front, structural);
      assert last in blocks;
      ReadOn(NOTHING, Laid(front), [Question(last.q)] + last.below, structural);
      ReadOn(s, [Question(last.q)], last.below, structural);
      QuestionRead(s, last.q, structural);
      ReadBelow(last.q, Closed(s, structural), last.below, structural);
    }
  }

  lemma QuestionRead(s: Reading, q: string, structural: Structural)
    ensures ReadAll(s, [Question(q)], structural) == Reading(Some(q), [], Closed(s, structural))
  {
    assert [Question(q)][..0] == [];
  }

  /** A screen is read as its questions, each with its own answer: what stands above the first
      question does not count, and a question without an answer below it gives no pair. */
  lemma PairsOfBlocks(above: seq<Line>, blocks: seq<Block>, structural: Structural)
    requires BlocksOk(blocks) && forall line <- above :: !line.Question?
    ensures PairsOf(above + Laid(blocks), structural) == Answered(blocks, structural)
  {
    ReadOn(NOTHING, above, Laid(blocks), structural);
    ReadAbove(above, structural);
    BlocksRead(blocks, structural);
  }

  // ---------- scan after scan ----------

  datatype Broadcast = Broadcast(num: nat, q: string, a: string, isNew: bool)

  datatype Saved = Saved(answers: map<string, string>, count: nat, sent: seq<Broadcast>)

  function KeyOf(q: string): string { if |q| <= 80 then q else q[..80] }

  function Save(s: Saved, p: Pair): Saved {
    var key := KeyOf(p.q);
    var isNew := key !in s.answers;
    if isNew || |p.a| > |s.answers[key]| then
      var count := if isNew then s.count + 1 else s.count;
      Saved(s.answers[key := p.a], count, s.sent + [Broadcast(count, p.q, p.a, isNew)])
    else s
  }

  function SaveAll(s: Saved, pairs: seq<Pair>): Saved {
    if pairs == [] then s else Save(SaveAll(s, pairs[..|pairs| - 1]), pairs[|pairs| - 1])
  }

  class Parser {
    var savedQuestions: map<string, string>
    var qaCount: nat
    ghost var sent: seq<Broadcast>
    var enabled: bool

    ghost function State(): Saved
      reads this
    {
      Saved(savedQuestions, qaCount, sent)
    }

    ghost function Watched(): Watching
      reads this
    {
      Watching(State(), enabled)
    }

    constructor ()
      ensures Watched() == Watching(NONE_SAVED, false)
    {
      savedQuestions, qaCount, sent, enabled := map[], 0, [], false;
    }

    method Start()
      modifies this
      ensures Watched() == Watching(NONE_SAVED, true)
    {
      savedQuestions, qaCount, sent, enabled := map[], 0, [], true;
    }

    /** The pairs on the screen, in order. */
    method Extract(lines: seq<Line>, structural: Structural) returns (pairs: seq<Pair>)
      ensures pairs == PairsOf(lines, structural)
    {
      var currentQ: Option<string>, rows: seq<Row> := None, [];
      pairs := [];
      for i := 0 to |lines|
        invariant ReadAll(NOTHING, lines[..i], structural) == Reading(currentQ, rows, pairs)
      {
        assert lines[..i + 1][..i] == lines[..i];
        match lines[i]
        case Blank =>
          if currentQ.Some? && rows != [] {
            rows := rows + [Row("", false)];
          }
        case Question(q) =>
          if currentQ.Some? && rows != [] {
            var a := JoinAnswer(rows, structural);
            pairs := pairs + [Pair(currentQ.value, a)];
          }
          currentQ, rows := Some(q), [];
        case Prompt =>
        case Bullet(text, full, chrome) =>
          if currentQ.Some? && !chrome {
            rows := rows + [Row(text, full)];
          }
        case Other(text, full, chrome) =>
          if rows != [] && currentQ.Some? && !chrome {
            rows := rows + [Row(text, full)];
          }
      }
      assert lines[..|lines|] == lines;
      if currentQ.Some? && rows != [] {
        var a := JoinAnswer(rows, structural);
        pairs := pairs + [Pair(currentQ.value, a)];
      }
    }

    // One pair is saved and broadcast if it is new or longer.
    method SavePair(p: Pair)
      modifies this
      ensures enabled == old(enabled) && State() == Save(old(State()), p)
    {
      var key := KeyOf(p.q);
      var isNew := key !in savedQuestions;
      if isNew || |p.a| > |savedQuestions[key]| {
        savedQuestions := savedQuestions[key := p.a];
        if isNew {
          qaCount := qaCount + 1;
        }
        sent := sent + [Broadcast(qaCount, p.q, p.a, isNew)];
      }
    }

    method Scan(lines: seq<Line>, structural: Structural)
      modifies this
      ensures Watched() == Next(old(Watched()), Shown(lines), structural)
    {
      if !enabled { return; }
      var pairs := Extract(lines, structural);
      ghost var before := State();
      for i := 0 to |pairs|
        invariant enabled && State() == SaveAll(before, pairs[..i])
      {
        SaveNext(before, pairs, i);
        SavePair(pairs[i]);
      }
      assert pairs[..|pairs|] == pairs;
    }

    /** One last scan of the screen as it is, then nothing more. */
    method Stop(lines: seq<Line>, structural: Structural)
      modifies this
      ensures Watched() == Next(old(Watched()), Stopped(lines), structural)
    {
      Scan(lines, structural);
      enabled := false;
    }
  }

  lemma SaveNext(s: Saved, pairs: seq<Pair>, i: nat)
    requires i < |pairs|
    ensures SaveAll(s, pairs[..i + 1]) == Save(SaveAll(s, pairs[..i]), pairs[i])
  {
    assert pairs[..i + 1][..i] == pairs[..i];
  }

  // ---------- whole runs of the scraper ----------

  /** What happens to the scraper: it is started afresh, shown a screen, or stopped on one. */
  datatype Event = Started | Shown(lines: seq<Line>) | Stopped(lines: seq<Line>)

  datatype Watching = Watching(saved: Saved, enabled: bool)

  function Scanned(w: Watching, lines: seq<Line>, structural: Structural): Watching {
    if w.enabled then w.(saved := SaveAll(w.saved, PairsOf(lines, structural))) else w
  }

  function Next(w: Watching, e: Event, structural: Structural): Watching {
    match e
    case Started => Watching(NONE_SAVED, true)
    case Shown(lines) => Scanned(w, lines, structural)
    case Stopped(lines) => Scanned(w, lines, structural).(enabled := false)
  }

  function After(events: seq<Event>, structural: Structural): Watching {
    if events == [] then Watching(NONE_SAVED, false)
    else Next(After(events[..|events| - 1], structural), events[|events| - 1], structural)
  }

  lemma AfterOneMore(events: seq<Event>, e: Event, structural: Structural)
    ensures After(events + [e], structural) == Next(After(events, structural), e, structural)
  {
    assert (events + [e])[..|events|] == events;
  }

  /** A stop scans once more; then the scraper is silent until it is started again, from nothing. */
  lemma {:induction false} StoppedIsSilent(events: seq<Event>, screen: seq<Line>, late: seq<Event>,
                                           structural: Structural)
    requires Started !in late
    ensures var w := After(events + [Stopped(screen)] + late, structural);
      && !w.enabled && w.saved == After(events + [Shown(screen)], structural).saved
      && After(events + [Stopped(screen)] + late + [Started], structural) == Watching(Saved(map[], 0, []), true)
    decreases |late|
  {
    var stopped := events + [Stopped(screen)];
    AfterOneMore(stopped + late, Started, structural);
    if late == [] {
      AfterOneMore(events, Stopped(screen), structural);
      AfterOneMore(events, Shown(screen), structural);
      assert stopped + late == stopped;
    } else {
      var front, last := late[..|late| - 1], late[|late| - 1];
      StoppedIsSilent(events, screen, front, structural);
      AfterOneMore(stopped + front, last, structural);
      assert stopped + late == stopped + front + [last] && last in late;
    }
  }

  /** The pairs found since the last start, in order. */
  function Extracted(events: seq<Event>, structural: Structural): seq<Pair> {
    if events == [] then []
    else
      var front, e := events[..|events| - 1], events[|events| - 1];
      if e.Started? then []
      else Extracted(front, structural) + if After(front, structural).enabled then PairsOf(e.lines, structural) else []
  }

  lemma {:induction false} RunSavesExtracted(events: seq<Event>, structural: Structural)
    ensures After(events, structural).saved == SaveAll(NONE_SAVED, Extracted(events, structural))
  {
    if events != [] {
      var front, e := events[..|events| - 1], events[|events| - 1];
      RunSavesExtracted(front, structural);
      if !e.Started? {
        SaveAllConcat(NONE_SAVED, Extracted(front, structural), PairsOf(e.lines, structural));
        assert Extracted(front, structural) + [] == Extracted(front, structural);
      }
    }
  }

  /** Every pair's key is saved, with an answer extracted for it that is as long as any. */
  ghost predicate Longest(answers: map<string, string>, pairs: seq<Pair>) {
    && (forall key <- answers :: exists p :: p in pairs && KeyOf(p.q) == key && p.a == answers[key])
    && (forall p <- pairs :: KeyOf(p.q) in answers && |p.a| <= |answers[KeyOf(p.q)]|)
  }

  lemma {:induction false} SaveAllConcat(s: Saved, a: seq<Pair>, b: seq<Pair>)
    ensures SaveAll(s, a + b) == SaveAll(SaveAll(s, a), b)
    decreases |b|
  {
    if b == [] {
      assert a + b == a;
    } else {
      assert (a + b)[..|a + b| - 1] == a + b[..|b| - 1];
      SaveAllConcat(s, a, b[..|b| - 1]);
    }
  }

  lemma LongestStep(s: Saved, pairs: seq<Pair>, p: Pair)
    requires Longest(s.answers, pairs)
    ensures Longest(Save(s, p).answers, pairs + [p])
  {
    var answers := Save(s, p).answers;
    forall key | key in answers ensures exists x :: x in pairs + [p] && KeyOf(x.q) == key && x.a == answers[key] {
      if key in s.answers && answers[key] == s.answers[key] {
        var x :| x in pairs && KeyOf(x.q) == key && x.a == s.answers[key];
        assert x in pairs + [p];
      } else {
        assert p in pairs + [p];
      }
    }
  }

  const NONE_SAVED := Saved(map[], 0, [])

  lemma SaveLast(s: Saved, pairs: seq<Pair>)
    requires pairs != []
    ensures SaveAll(s, pairs) == Save(SaveAll(s, pairs[..|pairs| - 1]), pairs[|pairs| - 1])
    ensures pairs == pairs[..|pairs| - 1] + [pairs[|pairs| - 1]]
  {
  }

  lemma CountStep(s: Saved, p: Pair)
    requires s.count == |s.answers|
    ensures Save(s, p).count == |Save(s, p).answers|
  {
    var key := KeyOf(p.q);
    assert s.answers[key := p.a].Keys == s.answers.Keys + {key};
    if key in s.answers {
      assert s.answers.Keys + {key} == s.answers.Keys;
    }
    assert |s.answers[key := p.a]| == |s.answers[key := p.a].Keys| && |s.answers| == |s.answers.Keys|;
  }

  lemma {:induction false} LongestOf(extracted: seq<Pair>)
    ensures Longest(SaveAll(NONE_SAVED, extracted).answers, extracted)
    ensures SaveAll(NONE_SAVED, extracted).count == |SaveAll(NONE_SAVED, extracted).answers|
  {
    if extracted != [] {
      var front, p := extracted[..|extracted| - 1], extracted[|extracted| - 1];
      LongestOf(front);
      SaveLast(NONE_SAVED, extracted);
      LongestStep(SaveAll(NONE_SAVED, front), front, p);
      CountStep(SaveAll(NONE_SAVED, front), p);
    }
  }

  lemma {:induction false} NothingNew(s: Saved, pairs: seq<Pair>)
    requires forall p <- pairs :: KeyOf(p.q) in s.answers && |p.a| <= |s.answers[KeyOf(p.q)]|
    ensures SaveAll(s, pairs) == s
  {
    if pairs != [] {
      NothingNew(s, pairs[..|pairs| - 1]);
      assert pairs[|pairs| - 1] in pairs;
    }
  }

  /** After any run, however started, stopped and shown screens, the saved answer of a question is
      the longest one found since the last start, and the count is the number of questions. */
  lemma LongestAnswerSaved(events: seq<Event>, structural: Structural)
    ensures var saved := After(events, structural).saved;
            Longest(saved.answers, Extracted(events, structural)) && saved.count == |saved.answers|
  {
    RunSavesExtracted(events, structural);
    LongestOf(Extracted(events, structural));
  }

  // ---------- what is broadcast ----------

  /** Questions that agree in their first 80 characters are one. */
  lemma SameKeyIff(p: string, q: string)
    ensures KeyOf(p) == KeyOf(q) <==> p == q || (|p| >= 80 && |q| >= 80 && p[..80] == q[..80])
  {
  }

  function News(sent: seq<Broadcast>): nat {
    if sent == [] then 0 else News(sent[..|sent| - 1]) + if sent[|sent| - 1].isNew then 1 else 0
  }

  // The i-th broadcast is of a question not broadcast before.
  ghost predicate IsFirst(sent: seq<Broadcast>, i: nat)
    requires i < |sent|
  {
    forall j :: 0 <= j < i ==> KeyOf(sent[j].q) != KeyOf(sent[i].q)
  }

  // The i-th broadcast is the last one of its question.
  ghost predicate IsLast(sent: seq<Broadcast>, i: nat)
    requires i < |sent|
  {
    forall j :: i < j < |sent| ==> KeyOf(sent[j].q) != KeyOf(sent[i].q)
  }

  /** Every broadcast is a pair that was found; it is marked new exactly when it is the first of its
      question, numbered with the questions broadcast so far, and the last one of a question holds
      its saved answer. */
  ghost predicate SentOk(s: Saved, pairs: seq<Pair>) {
    && (forall i: nat :: i < |s.sent| ==> BroadcastOk(s, pairs, i))
    && (forall key <- s.answers :: exists i: nat :: i < |s.sent| && KeyOf(s.sent[i].q) == key && IsLast(s.sent, i))
    && s.count == News(s.sent)
  }

  ghost predicate BroadcastOk(s: Saved, pairs: seq<Pair>, i: nat)
    requires i < |s.sent|
  {
    var b := s.sent[i];
    && Pair(b.q, b.a) in pairs && KeyOf(b.q) in s.answers
    && (b.isNew <==> IsFirst(s.sent, i)) && b.num == News(s.sent[..i + 1])
    && (IsLast(s.sent, i) ==> b.a == s.answers[KeyOf(b.q)])
  }

  lemma OldBroadcastOk(s: Saved, pairs: seq<Pair>, p: Pair, i: nat)
    requires SentOk(s, pairs) && i < |s.sent|
    ensures i < |Save(s, p).sent| && BroadcastOk(Save(s, p), pairs + [p], i)
  {
    var s' := Save(s, p);
    assert BroadcastOk(s, pairs, i);
    if s'.sent != s.sent {
      var b := s'.sent[|s.sent|];
      FirstKept(s.sent, b, i);
      LastKept(s.sent, b, i);
      MorePairs(pairs, p, Pair(s.sent[i].q, s.sent[i].a));
    }
  }

  lemma MorePairs(pairs: seq<Pair>, p: Pair, x: Pair)
    requires x in pairs
    ensures x in pairs + [p]
  {
  }

  lemma FirstKept(sent: seq<Broadcast>, b: Broadcast, i: nat)
    requires i < |sent|
    ensures (sent + [b])[i] == sent[i] && (sent + [b])[..i + 1] == sent[..i + 1]
    ensures IsFirst(sent + [b], i) <==> IsFirst(sent, i)
  {
  }

  lemma LastKept(sent: seq<Broadcast>, b: Broadcast, i: nat)
    requires i < |sent|
    ensures IsLast(sent + [b], i) <==> IsLast(sent, i) && KeyOf(b.q) != KeyOf(sent[i].q)
  {
    var more := sent + [b];
    assert more[|sent|] == b && forall j :: 0 <= j < |sent| ==> more[j] == sent[j];
  }

  lemma NewBroadcastOk(s: Saved, pairs: seq<Pair>, p: Pair)
    requires SentOk(s, pairs) && Save(s, p).sent != s.sent
    ensures |Save(s, p).sent| == |s.sent| + 1 && BroadcastOk(Save(s, p), pairs + [p], |s.sent|)
    ensures Save(s, p).count == News(Save(s, p).sent)
  {
    var s', n, key := Save(s, p), |s.sent|, KeyOf(p.q);
    assert s'.sent[..n] == s.sent && s'.sent[..n + 1] == s'.sent;
    assert p == Pair(p.q, p.a) && (pairs + [p])[|pairs|] == p;
    if key in s.answers {
      var i: nat :| i < n && KeyOf(s.sent[i].q) == key && IsLast(s.sent, i);
      assert s'.sent[i] == s.sent[i];
    } else {
      forall j | 0 <= j < n ensures KeyOf(s'.sent[j].q) != key {
        assert BroadcastOk(s, pairs, j) && s'.sent[j] == s.sent[j];
      }
    }
  }

  lemma SaveKeepsLast(s: Saved, pairs: seq<Pair>, p: Pair, key: string)
    requires SentOk(s, pairs) && key in Save(s, p).answers
    ensures var sent := Save(s, p).sent; exists i: nat :: i < |sent| && KeyOf(sent[i].q) == key && IsLast(sent, i)
  {
    var sent, n := Save(s, p).sent, |s.sent|;
    if sent != s.sent && key == KeyOf(p.q) {
      assert KeyOf(sent[n].q) == key && IsLast(sent, n);
    } else {
      var i: nat :| i < n && KeyOf(s.sent[i].q) == key && IsLast(s.sent, i);
      assert sent[i] == s.sent[i];
      forall j | i < j < |sent| ensures KeyOf(sent[j].q) != key {
        assert j < n ==> sent[j] == s.sent[j];
      }
      assert IsLast(sent, i);
    }
  }

  lemma SaveKeepsSent(s: Saved, pairs: seq<Pair>, p: Pair)
    requires SentOk(s, pairs)
    ensures SentOk(Save(s, p), pairs + [p])
  {
    var s' := Save(s, p);
    forall i: nat | i < |s'.sent| ensures BroadcastOk(s', pairs + [p], i) {
      if i < |s.sent| {
        OldBroadcastOk(s, pairs, p, i);
      } else {
        NewBroadcastOk(s, pairs, p);
      }
    }
    forall key | key in s'.answers
      ensures exists i: nat :: i < |s'.sent| && KeyOf(s'.sent[i].q) == key && IsLast(s'.sent, i)
    {
      SaveKeepsLast(s, pairs, p, key);
    }
    if s'.sent != s.sent { NewBroadcastOk(s, pairs, p); }
  }

  lemma {:induction false} AllSentOk(pairs: seq<Pair>)
    ensures SentOk(SaveAll(NONE_SAVED, pairs), pairs)
  {
    if pairs != [] {
      var front, p := pairs[..|pairs| - 1], pairs[|pairs| - 1];
      AllSentOk(front);
      SaveLast(NONE_SAVED, pairs);
      SaveKeepsSent(SaveAll(NONE_SAVED, front), front, p);
    }
  }

  /** That holds after any run of starts, scans and stops. */
  lemma BroadcastsTell(events: seq<Event>, structural: Structural)
    ensures SentOk(After(events, structural).saved, Extracted(events, structural))
  {
    RunSavesExtracted(events, structural);
    AllSentOk(Extracted(events, structural));
  }

  // Until the next start nothing that was found is forgotten.
  lemma {:induction false} FoundStays(early: seq<Event>, late: seq<Event>, structural: Structural, p: Pair)
    requires p in Extracted(early, structural) && Started !in late
    ensures p in Extracted(early + late, structural)
    decreases |late|
  {
    if late == [] {
      assert early + late == early;
    } else {
      var front := late[..|late| - 1];
      assert (early + late)[..|early + late| - 1] == early + front;
      assert late[|late| - 1] in late;
      FoundStays(early, front, structural, p);
    }
  }

  /** A screen that was scanned broadcasts and changes nothing when it is shown again, whatever was
      shown in between, until the scraper is started anew. */
  lemma SeenScreenIsSilent(early: seq<Event>, screen: seq<Line>, late: seq<Event>, structural: Structural)
    requires After(early, structural).enabled && Started !in late
    ensures var w := After(early + [Shown(screen)] + late, structural);
            Next(w, Shown(screen), structural) == w
  {
    var seen := early + [Shown(screen)];
    var pairs := PairsOf(screen, structural);
    assert seen[..|seen| - 1] == early && seen[|seen| - 1] == Shown(screen);
    forall p | p in pairs ensures p in Extracted(seen + late, structural) {
      FoundStays(seen, late, structural, p);
    }
    LongestAnswerSaved(seen + late, structural);
    NothingNew(After(seen + late, structural).saved, pairs);
  }
}
