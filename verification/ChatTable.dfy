/** The durable question queue: table `chat_question` as a map from its primary key
    `seq` to a row, one function per SQL statement, and the object that runs them.

    Each statement is one atomic step. Only `mark_confirmed` has a status guard; the
    other two UPDATEs overwrite whatever status the row has. */
module ChatTable {
  import opened Wrappers

  datatype Status = Pending | Sent | Answered | Confirmed | Error

  datatype Row = Row(
    conn: string,             // connection_id
    qid: string,              // the client's own opaque id
    text: string,             // what is typed into the session
    timeIn: string,
    user: Option<string>,     // NULL on rows older than per-user accounting
    charsIn: nat,
    files: nat,
    fileBytes: int,
    status: Status,
    answer: Option<string>,
    charsOut: nat)

  datatype Table = Table(rows: map<nat, Row>, next: nat)

  // AUTOINCREMENT never reuses a key: every key in use is below `next`.
  ghost predicate ValidTable(t: Table) {
    forall k :: k in t.rows ==> k < t.next
  }

  predicate IsDone(s: Status) {
    s == Answered || s == Confirmed
  }

  function NewRow(conn: string, qid: string, text: string, timeIn: string, user: Option<string>,
                  charsIn: nat, files: nat, fileBytes: int): Row
  {
    Row(conn, qid, text, timeIn, user, charsIn, files, fileBytes, Pending, None, 0)
  }

  /** INSERT of a 'pending' row. A sequence may skip values, so the key is any unused one. */
  function Insert(t: Table, k: nat, row: Row): Table
    requires t.next <= k
  {
    Table(t.rows[k := row], k + 1)
  }

  /** UPDATE ... SET status WHERE seq = k; no effect when the row is missing. */
  function SetStatus(t: Table, k: nat, status: Status): Table {
    if k in t.rows then t.(rows := t.rows[k := t.rows[k].(status := status)]) else t
  }

  function MarkAnswered(t: Table, k: nat, answer: string): Table {
    if k in t.rows
    then t.(rows := t.rows[k := t.rows[k].(status := Answered, answer := Some(answer), charsOut := |answer|)])
    else t
  }

  function MarkConfirmed(t: Table, k: nat): Table {
    if k in t.rows && t.rows[k].status == Answered then SetStatus(t, k, Confirmed) else t
  }

  predicate IsSentOf(t: Table, conn: string, k: nat) {
    k in t.rows && t.rows[k].conn == conn && t.rows[k].status == Sent
  }

  /** SELECT ... WHERE connection_id = conn AND status = 'sent' ORDER BY seq LIMIT 1. */
  function OldestSent(t: Table, conn: string): (r: Option<nat>)
    requires ValidTable(t)
    ensures r == None <==> forall k :: !IsSentOf(t, conn, k)
    ensures r.Some? ==> IsSentOf(t, conn, r.value) && forall k :: IsSentOf(t, conn, k) ==> r.value <= k
  {
    OldestSentFrom(t, conn, 0)
  }

  function OldestSentFrom(t: Table, conn: string, from: nat): (r: Option<nat>)
    requires ValidTable(t)
    ensures r == None <==> forall k :: from <= k ==> !IsSentOf(t, conn, k)
    ensures r.Some? ==> from <= r.value && IsSentOf(t, conn, r.value)
    ensures r.Some? ==> forall k :: from <= k && IsSentOf(t, conn, k) ==> r.value <= k
    decreases t.next - from
  {
    if from >= t.next then None
    else if IsSentOf(t, conn, from) then Some(from)
    else OldestSentFrom(t, conn, from + 1)
  }

  datatype AFrame = AFrame(seqNo: nat, qid: string, text: string)

  /** The open pool. Every method is one statement; `table` is what the database holds. */
  class ChatDb {
    var rows: map<nat, Row>
    var next: nat

    ghost function Contents(): Table reads this { Table(rows, next) }

    ghost predicate Valid() reads this { ValidTable(Contents()) }

    constructor ()
      ensures Valid() && Contents() == Table(map[], 0)
    {
      rows, next := map[], 0;
    }

    method InsertPending(conn: string, qid: string, text: string, timeIn: string, user: Option<string>,
                         charsIn: nat, files: nat, fileBytes: int)
      returns (k: nat)
      requires Valid()
      modifies this
      ensures Valid() && k == old(next) && k !in old(rows)
      ensures Contents() == Insert(old(Contents()), k, NewRow(conn, qid, text, timeIn, user, charsIn, files, fileBytes))
      ensures rows.Keys == old(rows).Keys + {k} && forall m <- old(rows) :: rows[m] == old(rows)[m]
      ensures rows[k].conn == conn && rows[k].qid == qid && rows[k].text == text
      ensures rows[k].timeIn == timeIn && rows[k].user == user
      ensures rows[k].charsIn == charsIn && rows[k].files == files && rows[k].fileBytes == fileBytes
      ensures rows[k].status == Pending && rows[k].answer == None && rows[k].charsOut == 0
    {
      k := next;
      rows := rows[k := NewRow(conn, qid, text, timeIn, user, charsIn, files, fileBytes)];
      next := next + 1;
    }

    method UpdateStatus(k: nat, status: Status)
      requires Valid()
      modifies this
      ensures Valid() && Contents() == SetStatus(old(Contents()), k, status)
      ensures rows.Keys == old(rows).Keys && forall m <- old(rows) :: m != k ==> rows[m] == old(rows)[m]
      ensures k in rows ==> rows[k].status == status && rows[k].(status := old(rows)[k].status) == old(rows)[k]
    {
      if k in rows {
        rows := rows[k := rows[k].(status := status)];
      }
    }

    method PopSent(conn: string) returns (r: Option<(nat, string, string)>)
      requires Valid()
      ensures r.None? <==> OldestSent(Contents(), conn) == None
      ensures r.Some? ==> OldestSent(Contents(), conn) == Some(r.value.0)
                          && r.value.1 == rows[r.value.0].qid && r.value.2 == rows[r.value.0].timeIn
    {
      match OldestSent(Table(rows, next), conn)
      case None => r := None;
      case Some(k) => r := Some((k, rows[k].qid, rows[k].timeIn));
    }

    method RecordAnswer(k: nat, answer: string)
      requires Valid()
      modifies this
      ensures Valid() && Contents() == MarkAnswered(old(Contents()), k, answer)
      ensures rows.Keys == old(rows).Keys && forall m <- old(rows) :: m != k ==> rows[m] == old(rows)[m]
      ensures k in rows ==>
        && rows[k].status == Answered && rows[k].answer == Some(answer) && rows[k].charsOut == |answer|
        && rows[k].qid == old(rows)[k].qid && rows[k].text == old(rows)[k].text && rows[k].conn == old(rows)[k].conn
    {
      if k in rows {
        rows := rows[k := rows[k].(status := Answered, answer := Some(answer), charsOut := |answer|)];
      }
    }

    method Confirm(k: nat) returns (done: bool)
      requires Valid()
      modifies this
      ensures Valid() && Contents() == MarkConfirmed(old(Contents()), k)
      ensures done <==> k in old(rows) && old(rows)[k].status == Answered
      ensures done ==> rows == old(rows)[k := old(rows)[k].(status := Confirmed)]
      ensures !done ==> rows == old(rows)
    {
      done := k in rows && rows[k].status == Answered;
      if done {
        rows := rows[k := rows[k].(status := Confirmed)];
      }
    }

    /** Pair one final answer with the oldest outstanding question. The answer is lost, and
        the table untouched, exactly when the connection has no 'sent' row. */
    method FlushAnswer(conn: string, answer: string) returns (frame: Option<AFrame>)
      requires Valid()
      modifies this
      ensures Valid()
      ensures frame.None? <==> forall k :: !IsSentOf(old(Contents()), conn, k)
      ensures frame.None? ==> Contents() == old(Contents())
      ensures frame.Some? ==>
        var k := frame.value.seqNo;
        && OldestSent(old(Contents()), conn) == Some(k)
        && Contents() == MarkAnswered(old(Contents()), k, answer)
        && frame == Some(AFrame(k, old(rows)[k].qid, answer))
    {
      var popped := PopSent(conn);
      match popped
      case None => frame := None;
      case Some(row) =>
        RecordAnswer(row.0, answer);
        frame := Some(AFrame(row.0, row.1, answer));
    }
  }
}
