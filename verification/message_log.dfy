/**
 * The `messages` table of the chat server: its rows, the two constraints its
 * schema declares (`id INTEGER PRIMARY KEY AUTOINCREMENT` and
 * `client_offset TEXT UNIQUE`), and the two statements the server runs
 * against it. The storage engine itself is abstract: what it may do beyond
 * what the table's contents decide is an explicit input.
 */
module MessageLog {
  import opened Optional

  /** SQLite's result code for a violated constraint. */
  const SQLITE_CONSTRAINT: int := 19

  /**
   * A result code the store may report for a reason other than the table's
   * constraints: I/O error, busy database, exhausted rowids, ...
   * The only constraint this schema can violate is the UNIQUE one.
   */
  type FaultCode = e: int | e != SQLITE_CONSTRAINT witness 1

  /** One row: `(id, client_offset, content, nickname)`. */
  datatype Row = Row(id: int, clientOffset: string, content: string, nickname: string)

  /** The table, in insertion order. */
  type Log = seq<Row>

  predicate IdsPositive(log: Log) {
    forall i :: 0 <= i < |log| ==> log[i].id > 0
  }

  predicate IdsIncreasing(log: Log) {
    forall i, j :: 0 <= i < j < |log| ==> log[i].id < log[j].id
  }

  predicate OffsetsDistinct(log: Log) {
    forall i, j :: 0 <= i < j < |log| ==> log[i].clientOffset != log[j].clientOffset
  }

  /** What the schema guarantees of every state of the table. */
  predicate Valid(log: Log) {
    IdsPositive(log) && IdsIncreasing(log) && OffsetsDistinct(log)
  }

  predicate HasOffset(log: Log, clientOffset: string) {
    exists i :: 0 <= i < |log| && log[i].clientOffset == clientOffset
  }

  /**
   * The largest id in the table, 0 when it is empty. The next id
   * AUTOINCREMENT hands out is `MaxId + 1 + skipped`, where `skipped` covers
   * ids it used up without storing a row.
   */
  function MaxId(log: Log): (m: int)
    ensures m >= 0
    ensures forall i :: 0 <= i < |log| ==> log[i].id <= m
    ensures m == 0 || exists i :: 0 <= i < |log| && log[i].id == m
  {
    if |log| == 0 then 0
    else
      var m := MaxId(log[..|log| - 1]);
      if log[|log| - 1].id > m then log[|log| - 1].id else m
  }

  /**
   * What the store does with one INSERT beyond what the table's contents
   * decide: a failure unrelated to the constraints, and how many ids
   * AUTOINCREMENT passes over (SQLite promises increasing ids, not
   * consecutive ones).
   */
  datatype StoreBehaviour = StoreBehaviour(fault: Option<FaultCode>, skipped: nat)

  /** `db.run(...)` resolves with `lastID`, or rejects with an `errno`. */
  datatype InsertResult = Inserted(log: Log, lastId: int) | Rejected(errno: int)

  /**
   * The chat handler's insert of one message: content, client offset and
   * nickname, with the id left to AUTOINCREMENT.
   */
  function Insert(log: Log, content: string, clientOffset: string, nickname: string,
                  store: StoreBehaviour): (r: InsertResult)
    // the three outcomes, decided by the fault and by the UNIQUE constraint
    ensures r.Inserted? <==> store.fault.None? && !HasOffset(log, clientOffset)
    ensures r.Rejected? && r.errno == SQLITE_CONSTRAINT <==>
              store.fault.None? && HasOffset(log, clientOffset)
    ensures store.fault.Some? ==> r == Rejected(store.fault.value)
    // a success appends exactly one row, with an id above every existing id
    ensures r.Inserted? ==>
              && |r.log| == |log| + 1
              && r.log[..|log|] == log
              && r.log[|log|] == Row(r.lastId, clientOffset, content, nickname)
              && forall i :: 0 <= i < |log| ==> log[i].id < r.lastId
    ensures r.Inserted? && Valid(log) ==> Valid(r.log)
  {
    if store.fault.Some? then
      Rejected(store.fault.value)
    else if HasOffset(log, clientOffset) then
      Rejected(SQLITE_CONSTRAINT)
    else
      var id := MaxId(log) + 1 + store.skipped;
      var log' := log + [Row(id, clientOffset, content, nickname)];
      assert Valid(log) ==> OffsetsDistinct(log') by {
        if Valid(log) {
          forall i, j | 0 <= i < j < |log'|
            ensures log'[i].clientOffset != log'[j].clientOffset
          {
            assert log'[i] == log[i];
            if j == |log| {
              assert log'[j].clientOffset == clientOffset;
              assert log[i].clientOffset != clientOffset;
            } else {
              assert log'[j] == log[j];
            }
          }
        }
      }
      Inserted(log', id)
  }

  /**
   * The replay query: the id, content and nickname of every row whose id is
   * above `bound`, the rows taken in the table's insertion order.
   */
  function SelectAfter(log: Log, bound: int): (rows: Log)
    ensures forall i :: 0 <= i < |log| && log[i].id > bound ==> log[i] in rows
    ensures forall row :: row in rows ==> row in log && row.id > bound
    ensures |rows| <= |log|
    ensures Valid(log) ==> Valid(rows)
  {
    if |log| == 0 then []
    else
      var rest := SelectAfter(log[1..], bound);
      assert forall i :: 0 < i < |log| ==> log[i] == log[1..][i - 1];
      assert forall row :: row in log[1..] ==> row in log;
      assert Valid(log) ==> Valid(log[1..]) by {
        if Valid(log) { ValidTail(log); }
      }
      if log[0].id > bound then
        assert Valid(log) ==> Valid([log[0]] + rest) by {
          if Valid(log) { ValidCons(log, rest); }
        }
        [log[0]] + rest
      else
        rest
  }

  lemma ValidTail(log: Log)
    requires Valid(log) && |log| > 0
    ensures Valid(log[1..])
  {
  }

  /** Putting a table's first row back in front of rows drawn from the rest keeps it valid. */
  lemma ValidCons(log: Log, rest: Log)
    requires Valid(log) && |log| > 0
    requires Valid(rest)
    requires forall row :: row in rest ==> row in log[1..]
    ensures Valid([log[0]] + rest)
  {
    var rows := [log[0]] + rest;
    forall k | 0 < k < |rows|
      ensures log[0].id < rows[k].id && log[0].clientOffset != rows[k].clientOffset
    {
      assert rows[k] == rest[k - 1];
      assert rest[k - 1] in log[1..];
      var j :| 0 <= j < |log[1..]| && log[1..][j] == rest[k - 1];
      assert log[j + 1] == rest[k - 1];
    }
  }
}
