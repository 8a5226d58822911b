/** The worker's stream-json session: bytes arrive in frames, "\r" submits what is buffered.
    A `string` stands for the bytes of UTF-8 text, one char per byte. */
module JsonSession {
  import opened Wrappers

  const CR := '\r'

  // ---------- the stream, cut at "\r" ----------

  /** The segments of `s` that end in "\r", without it. */
  function Completed(s: string): seq<string> {
    if s == "" then []
    else
      var rest, c := s[..|s| - 1], s[|s| - 1];
      if c == CR then Completed(rest) + [Tail(rest)] else Completed(rest)
  }

  /** What follows the last "\r". */
  function Tail(s: string): string {
    if s == "" then ""
    else
      var rest, c := s[..|s| - 1], s[|s| - 1];
      if c == CR then "" else Tail(rest) + [c]
  }

  function NonEmpty(segments: seq<string>): seq<string> {
    if segments == [] then []
    else
      var n := |segments| - 1;
      NonEmpty(segments[..n]) + (if segments[n] == "" then [] else [segments[n]])
  }

  /** The questions a stream asks: its non-empty completed segments. */
  function Asked(s: string): seq<string> {
    NonEmpty(Completed(s))
  }

  function LastOf(s: seq<string>): seq<string> {
    if s == [] then [] else [s[|s| - 1]]
  }

  lemma AskedStep(s: string, c: char)
    ensures Completed(s + [c]) == Completed(s) + (if c == CR then [Tail(s)] else [])
    ensures Tail(s + [c]) == if c == CR then "" else Tail(s) + [c]
    ensures Asked(s + [c]) == Asked(s) + (if c == CR && Tail(s) != "" then [Tail(s)] else [])
  {
    assert (s + [c])[..|s|] == s;
    var cut := Completed(s);
    assert (cut + [Tail(s)])[..|cut|] == cut;
  }

  lemma {:induction false} CutConcat(a: string, b: string)
    ensures Completed(a + b) == Completed(a) + Completed(Tail(a) + b)
    ensures Tail(a + b) == Tail(Tail(a) + b)
    decreases |b|
  {
    if b == "" {
      assert a + b == a && Tail(a) + b == Tail(a);
      TailHasNoCR(a);
      NoCRIsTail(Tail(a));
    } else {
      var n := |b| - 1;
      CutConcat(a, b[..n]);
      assert (a + b)[..|a + b| - 1] == a + b[..n];
      assert (Tail(a) + b)[..|Tail(a) + b| - 1] == Tail(a) + b[..n];
    }
  }

  lemma {:induction false} TailHasNoCR(s: string)
    ensures CR !in Tail(s)
  {
    if s != "" {
      TailHasNoCR(s[..|s| - 1]);
    }
  }

  lemma {:induction false} NoCRIsTail(s: string)
    requires CR !in s
    ensures Completed(s) == [] && Tail(s) == s
  {
    if s != "" {
      NoCRIsTail(s[..|s| - 1]);
    }
  }

  lemma {:induction false} NonEmptyConcat(a: seq<string>, b: seq<string>)
    ensures NonEmpty(a + b) == NonEmpty(a) + NonEmpty(b)
    decreases |b|
  {
    if b == [] {
      assert a + b == a;
    } else {
      var n := |b| - 1;
      assert (a + b)[..|a + b| - 1] == a + b[..n];
      NonEmptyConcat(a, b[..n]);
    }
  }

  // ---------- the session object ----------

  function AsSeq(o: Option<string>): seq<string> {
    match o case None => [] case Some(q) => [q]
  }

  /** One `write`: the new buffer, and what it submits (at most one question). */
  function Write(buf: string, chunk: string): (string, seq<string>) {
    (Tail(buf + chunk), LastOf(Asked(buf + chunk)))
  }

  lemma NextPrefix(start: string, s: string, i: nat)
    requires i < |s|
    ensures start + s[..i + 1] == start + s[..i] + [s[i]]
  {
  }

  lemma DrainStep(seen: string, b: char)
    ensures Tail(seen + [b]) == if b == CR then "" else Tail(seen) + [b]
    ensures LastOf(Asked(seen + [b])) == if b == CR && Tail(seen) != "" then [Tail(seen)] else LastOf(Asked(seen))
  {
    AskedStep(seen, b);
  }

  class Session {
    var buf: string
    var lastQ: string
    var stdin: seq<string>     // user messages written to the claude process

    ghost predicate Valid() reads this { CR !in buf }

    constructor ()
      ensures Valid() && buf == "" && stdin == []
    {
      buf, lastQ, stdin := "", "", [];
    }

    /** Buffers the bytes; a "\r" takes the buffered question, replacing one taken earlier in
        the same frame. */
    method Drain(bytes: string) returns (toSubmit: Option<string>)
      requires Valid()
      modifies this`buf
      ensures Valid() && buf == Tail(old(buf) + bytes)
      ensures AsSeq(toSubmit) == LastOf(Asked(old(buf) + bytes))
    {
      toSubmit := None;
      NoCRIsTail(buf);
      assert buf + bytes[..0] == buf;
      ghost var start := buf;
      ghost var seen := start;
      for i := 0 to |bytes|
        invariant seen == start + bytes[..i]
        invariant buf == Tail(seen)
        invariant AsSeq(toSubmit) == LastOf(Asked(seen))
      {
        DrainStep(seen, bytes[i]);
        NextPrefix(start, bytes, i);
        seen := seen + [bytes[i]];
        if bytes[i] == CR {
          if buf != "" {
            toSubmit := Some(buf);
            buf := "";
          }
        } else {
          buf := buf + [bytes[i]];
        }
      }
      assert seen == start + bytes;
      TailHasNoCR(seen);
    }

    /** `up`: the process still accepts input. A question that cannot be written is lost,
        for the buffer is already empty by then. */
    method WriteBytes(bytes: string, up: bool) returns (ok: bool)
      requires Valid()
      modifies this
      ensures Valid()
      ensures var (buf', asked) := Write(old(buf), bytes);
              && buf == buf'
              && ok == (up || asked == [])
              && stdin == old(stdin) + (if up then asked else [])
              && lastQ == (if asked == [] then old(lastQ) else asked[0])
    {
      var toSubmit := Drain(bytes);
      ok := true;
      if toSubmit.Some? {
        ok := Submit(toSubmit.value, up);
      }
    }

    method Submit(text: string, up: bool) returns (ok: bool)
      modifies this
      ensures buf == old(buf) && lastQ == text && ok == up
      ensures stdin == old(stdin) + (if up then [text] else [])
    {
      lastQ := text;
      if up {
        stdin := stdin + [text];
      }
      ok := up;
    }
  }

  // ---------- a stream delivered in chunks ----------

  function Flatten(chunks: seq<string>): string {
    if chunks == [] then "" else chunks[0] + Flatten(chunks[1..])
  }

  /** Successive successful writes. */
  function WriteAll(buf: string, chunks: seq<string>): (string, seq<string>)
    decreases |chunks|
  {
    if chunks == [] then (buf, [])
    else
      var (buf', asked) := Write(buf, chunks[0]);
      var (buf'', more) := WriteAll(buf', chunks[1..]);
      (buf'', asked + more)
  }

  /** No chunk completes two questions. */
  predicate OneAtATime(buf: string, chunks: seq<string>)
    decreases |chunks|
  {
    chunks != [] ==> |Asked(buf + chunks[0])| <= 1 && OneAtATime(Tail(buf + chunks[0]), chunks[1..])
  }

  /** The buffer always ends up with the unterminated tail of the stream. Its questions are all
      submitted, in order, exactly when no single chunk completes two of them; otherwise some
      are lost. */
  lemma {:induction false} ChunkingLosesNothingIff(buf: string, chunks: seq<string>)
    requires CR !in buf
    ensures WriteAll(buf, chunks).0 == Tail(buf + Flatten(chunks))
    ensures |WriteAll(buf, chunks).1| <= |Asked(buf + Flatten(chunks))|
    ensures WriteAll(buf, chunks).1 == Asked(buf + Flatten(chunks)) <==> OneAtATime(buf, chunks)
    ensures OneAtATime(buf, chunks) || |WriteAll(buf, chunks).1| < |Asked(buf + Flatten(chunks))|
    decreases |chunks|
  {
    if chunks == [] {
      NoCRIsTail(buf);
      assert buf + Flatten(chunks) == buf;
    } else {
      var head, rest := buf + chunks[0], Flatten(chunks[1..]);
      assert buf + Flatten(chunks) == head + rest;
      CutConcat(head, rest);
      NonEmptyConcat(Completed(head), Completed(Tail(head) + rest));
      TailHasNoCR(head);
      ChunkingLosesNothingIff(Tail(head), chunks[1..]);
      OneOfEach(Asked(head), Asked(Tail(head) + rest), WriteAll(Tail(head), chunks[1..]).1);
    }
  }

  lemma OneOfEach(now: seq<string>, later: seq<string>, more: seq<string>)
    requires |more| <= |later|
    ensures |LastOf(now) + more| <= |now + later|
    ensures |now| <= 1 ==> (LastOf(now) + more == now + later <==> more == later)
    ensures |now| > 1 || |more| < |later| ==> |LastOf(now) + more| < |now + later|
  {
    if |now| <= 1 {
      assert LastOf(now) == now;
      assert (now + more)[|now|..] == more && (now + later)[|now|..] == later;
    }
  }

  function Returns(s: string): nat {
    if s == "" then 0 else Returns(s[..|s| - 1]) + (if s[|s| - 1] == CR then 1 else 0)
  }

  lemma {:induction false} ReturnsBoundAsked(s: string)
    ensures |Completed(s)| == Returns(s) && |Asked(s)| <= Returns(s)
  {
    if s != "" {
      var rest := s[..|s| - 1];
      ReturnsBoundAsked(rest);
      assert s == rest + [s[|s| - 1]];
      AskedStep(rest, s[|s| - 1]);
    }
  }

  lemma {:induction false} ReturnsConcat(a: string, b: string)
    ensures Returns(a + b) == Returns(a) + Returns(b)
    decreases |b|
  {
    if b == "" {
      assert a + b == a;
    } else {
      assert (a + b)[..|a + b| - 1] == a + b[..|b| - 1];
      ReturnsConcat(a, b[..|b| - 1]);
    }
  }

  /** In particular it suffices that each chunk holds at most one "\r". */
  lemma {:induction false} OneReturnPerChunk(buf: string, chunks: seq<string>)
    requires CR !in buf && forall c <- chunks :: Returns(c) <= 1
    ensures WriteAll(buf, chunks) == (Tail(buf + Flatten(chunks)), Asked(buf + Flatten(chunks)))
  {
    OneReturnIsOneAtATime(buf, chunks);
    ChunkingLosesNothingIff(buf, chunks);
  }

  lemma {:induction false} OneReturnIsOneAtATime(buf: string, chunks: seq<string>)
    requires CR !in buf && forall c <- chunks :: Returns(c) <= 1
    ensures OneAtATime(buf, chunks)
    decreases |chunks|
  {
    if chunks != [] {
      var head := buf + chunks[0];
      NoCRIsTail(buf);
      ReturnsBoundAsked(buf);
      ReturnsConcat(buf, chunks[0]);
      ReturnsBoundAsked(head);
      TailHasNoCR(head);
      OneReturnIsOneAtATime(Tail(head), chunks[1..]);
    }
  }

  lemma PartEnded(a: string)
    requires CR !in a
    ensures Completed(a + [CR]) == [a] && Tail(a + [CR]) == ""
  {
    NoCRIsTail(a);
    AskedStep(a, CR);
  }

  lemma PartBegun(head: string, b: string)
    requires Tail(head) == "" && CR !in b
    ensures Completed(head + b) == Completed(head) && Tail(head + b) == b
  {
    CutConcat(head, b);
    assert Tail(head) + b == b;
    NoCRIsTail(b);
  }

  lemma TwoParts(a: string, b: string)
    requires CR !in a && CR !in b
    ensures Completed(a + [CR] + b) == [a] && Tail(a + [CR] + b) == b
  {
    PartEnded(a);
    PartBegun(a + [CR], b);
  }

  lemma AnotherEnded(head: string, a: string, b: string)
    requires Completed(head) == [a] && Tail(head) == b && a != "" && b != ""
    ensures Asked(head + [CR]) == [a, b] && Tail(head + [CR]) == ""
  {
    AskedStep(head, CR);
    OneNonEmpty(a);
  }

  lemma TwoEnded(a: string, b: string)
    requires a != "" && b != "" && CR !in a && CR !in b
    ensures Asked(a + [CR] + b + [CR]) == [a, b] && Tail(a + [CR] + b + [CR]) == ""
  {
    TwoParts(a, b);
    AnotherEnded(a + [CR] + b, a, b);
  }

  lemma OneNonEmpty(a: string)
    requires a != ""
    ensures NonEmpty([a]) == [a]
  {
    assert [a][..0] == [];
  }

  lemma WriteOne(buf: string, chunk: string)
    ensures WriteAll(buf, [chunk]) == Write(buf, chunk)
  {
    assert [chunk][1..] == [];
    assert Write(buf, chunk).1 + [] == Write(buf, chunk).1;
  }

  /** Two questions in one chunk: the first is lost. */
  lemma TwoInOneChunk(a: string, b: string)
    requires a != "" && b != "" && CR !in a && CR !in b
    ensures Asked(a + [CR] + b + [CR]) == [a, b]
    ensures WriteAll("", [a + [CR] + b + [CR]]) == ("", [b])
  {
    var chunk := a + [CR] + b + [CR];
    TwoEnded(a, b);
    WriteOne("", chunk);
    assert "" + chunk == chunk;
  }

  // ---------- one question of the manager: its text, then "\r" ----------

  /** What the body frame alone already submits. */
  function Early(text: string): seq<string> { LastOf(Asked(text)) }

  /** Everything one question submits. */
  function Submissions(text: string): seq<string> {
    Early(text) + (if Tail(text) == "" then [] else [Tail(text)])
  }

  lemma QuestionWrites(text: string)
    ensures Write("", text) == (Tail(text), Early(text))
    ensures Write(Tail(text), [CR]) == ("", if Tail(text) == "" then [] else [Tail(text)])
    ensures WriteAll("", [text, [CR]]) == ("", Submissions(text))
  {
    assert "" + text == text;
    TailHasNoCR(text);
    EnterWrites(Tail(text));
    WriteTwo("", text, [CR]);
  }

  lemma WriteTwo(buf: string, a: string, b: string)
    ensures var (buf', asked) := Write(buf, a);
            var (buf'', more) := Write(buf', b);
            WriteAll(buf, [a, b]) == (buf'', asked + more)
  {
    var (buf', asked) := Write(buf, a);
    var (buf'', more) := Write(buf', b);
    var chunks := [a, b];
    assert chunks[1..] == [b] && [b][1..] == [];
    assert WriteAll(buf'', []) == (buf'', []);
    assert more + [] == more;
    assert WriteAll(buf', [b]) == (buf'', more);
    assert WriteAll(buf, chunks) == (buf'', asked + more);
  }

  lemma EnterWrites(tail: string)
    requires CR !in tail
    ensures Write(tail, [CR]) == ("", if tail == "" then [] else [tail])
  {
    NoCRIsTail(tail);
    AskedStep(tail, CR);
  }

  /** A question is submitted as itself, once, exactly when it is non-empty and has no "\r". */
  lemma SubmittedVerbatimIff(text: string)
    ensures Submissions(text) == [text] <==> text != "" && CR !in text
  {
    TailHasNoCR(text);
    if CR !in text {
      NoCRIsTail(text);
    } else {
      AskedHasNoCR(text);
      assert Submissions(text) != [] ==> CR !in Submissions(text)[0];
    }
  }

  lemma {:induction false} AskedHasNoCR(s: string)
    ensures forall i :: 0 <= i < |Asked(s)| ==> CR !in Asked(s)[i]
  {
    if s != "" {
      var rest := s[..|s| - 1];
      AskedHasNoCR(rest);
      assert s == rest + [s[|s| - 1]];
      AskedStep(rest, s[|s| - 1]);
      TailHasNoCR(rest);
    }
  }
}
