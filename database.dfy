/** The `tracked_emails` table that every component reads and writes, as the
    schema in pages/Dashboard.tsx creates it. The hosted database is an
    external service: each call takes a `fault` argument standing for an
    error the service may report (network, policy, ...), and the table's own
    constraints are checked as Postgres checks them. */
module Database {
  import opened Wrappers
  import opened Types
  import opened Seqs

  /** One row, column by column (snake_case, as in the schema). The CHECK
      constraint on `status` is the type `Status`. */
  datatype Row = Row(
    id: string,
    tracking_id: string,
    recipient: string,
    subject: string,
    status: Status,
    created_at: Time,
    opened_at: Option<Time>)

  /** An error object returned by the service; `message` may be empty. */
  datatype DbError = DbError(message: string)

  const UniqueTrackingIdViolation := DbError("duplicate key value violates unique constraint \"tracked_emails_tracking_id_key\"")
  const PrimaryKeyViolation := DbError("duplicate key value violates unique constraint \"tracked_emails_pkey\"")

  /** The columns an UPDATE sets; `None` leaves a column as it is. No writer
      in the code base sets `id`, `tracking_id` or `created_at`. */
  datatype Patch = Patch(
    recipient: Option<string>,
    subject: Option<string>,
    status: Option<Status>,
    opened_at: Option<Option<Time>>)

  const NoChange := Patch(None, None, None, None)

  /** The update `{ status: 'opened', opened_at: now }` written by both the
      tracking endpoint and `markAsOpened`. */
  function OpenPatch(now: Time): (p: Patch)
    ensures p.recipient.None? && p.subject.None?
    ensures p.status == Some(Opened) && p.opened_at == Some(Some(now))
  {
    Patch(None, None, Some(Opened), Some(Some(now)))
  }

  /** One row after an UPDATE with patch `p`. */
  function ApplyPatch(r: Row, p: Patch): (r': Row)
    ensures r'.id == r.id && r'.tracking_id == r.tracking_id && r'.created_at == r.created_at
    ensures p == NoChange ==> r' == r
  {
    Row(r.id, r.tracking_id,
        p.recipient.GetOr(r.recipient), p.subject.GetOr(r.subject),
        p.status.GetOr(r.status), r.created_at, p.opened_at.GetOr(r.opened_at))
  }

  /** A patch that cannot break `OpenedIffStamped`: it leaves both columns
      alone, or sets both to a consistent pair. */
  predicate KeepsStamp(p: Patch) {
    || (p.status.None? && p.opened_at.None?)
    || (p.status.Some? && p.opened_at.Some? && OpenedIffStamped(p.status.value, p.opened_at.value))
  }

  /** `id` is the primary key and `tracking_id` is UNIQUE. */
  predicate UniqueKeys(rows: seq<Row>) {
    forall i, j :: 0 <= i < j < |rows| ==>
      rows[i].id != rows[j].id && rows[i].tracking_id != rows[j].tracking_id
  }

  /** Every row keeps the status/opened_at invariant. */
  predicate AllStamped(rows: seq<Row>) {
    forall r :: r in rows ==> OpenedIffStamped(r.status, r.opened_at)
  }

  predicate HasId(rows: seq<Row>, id: string) {
    exists r :: r in rows && r.id == id
  }

  predicate HasTrackingId(rows: seq<Row>, tid: string) {
    exists r :: r in rows && r.tracking_id == tid
  }

  /** The answer to an INSERT of `row`: the service's own fault first, then
      the UNIQUE constraint on `tracking_id`, then the primary key. */
  function InsertError(rows: seq<Row>, row: Row, fault: Option<DbError>): (err: Option<DbError>)
    ensures err.None? ==> fault.None? && !HasTrackingId(rows, row.tracking_id) && !HasId(rows, row.id)
    ensures err.None? && UniqueKeys(rows) ==> UniqueKeys(rows + [row])
    ensures fault.None? && !HasTrackingId(rows, row.tracking_id) && !HasId(rows, row.id) ==> err.None?
  {
    if fault.Some? then fault
    else if HasTrackingId(rows, row.tracking_id) then Some(UniqueTrackingIdViolation)
    else if HasId(rows, row.id) then Some(PrimaryKeyViolation)
    else None
  }

  /** `UPDATE ... SET p WHERE id = id`. */
  function UpdateWhereId(rows: seq<Row>, id: string, p: Patch): (r: seq<Row>)
    ensures |r| == |rows|
    ensures forall i :: 0 <= i < |rows| ==>
      r[i] == if rows[i].id == id then ApplyPatch(rows[i], p) else rows[i]
  {
    MapWhere(rows, (x: Row) => x.id == id, (x: Row) => ApplyPatch(x, p))
  }

  /** `DELETE ... WHERE id = id`. */
  function DeleteWhereId(rows: seq<Row>, id: string): (r: seq<Row>)
    ensures forall x :: x in r ==> x in rows && x.id != id
  {
    Filter(rows, (x: Row) => x.id != id)
  }

  /** An update never breaks the keys: it rewrites neither key column. */
  lemma UpdateKeepsKeys(rows: seq<Row>, id: string, p: Patch)
    requires UniqueKeys(rows)
    ensures UniqueKeys(UpdateWhereId(rows, id, p))
  {
  }

  /** An update with a patch that `KeepsStamp` preserves the invariant. */
  lemma UpdateKeepsStamp(rows: seq<Row>, id: string, p: Patch)
    requires AllStamped(rows) && KeepsStamp(p)
    ensures AllStamped(UpdateWhereId(rows, id, p))
  {
    var r := UpdateWhereId(rows, id, p);
    forall x | x in r ensures OpenedIffStamped(x.status, x.opened_at) {
      var i :| 0 <= i < |r| && r[i] == x;
      assert rows[i] in rows;
    }
  }

  /** An update with an empty patch changes nothing. */
  lemma {:induction false} EmptyUpdateIsNoOp(rows: seq<Row>, id: string)
    ensures UpdateWhereId(rows, id, NoChange) == rows
  {
    var r := UpdateWhereId(rows, id, NoChange);
    assert |r| == |rows|;
    forall i | 0 <= i < |rows| ensures r[i] == rows[i] {
      assert ApplyPatch(rows[i], NoChange) == rows[i];
    }
  }

  /** Deleting keeps the keys distinct. */
  lemma {:induction false} DeleteKeepsKeys(rows: seq<Row>, id: string)
    requires UniqueKeys(rows)
    ensures UniqueKeys(DeleteWhereId(rows, id))
  {
    if rows != [] {
      DeleteKeepsKeys(rows[1..], id);
      var tail := DeleteWhereId(rows[1..], id);
      if rows[0].id != id {
        var r := DeleteWhereId(rows, id);
        assert r == [rows[0]] + tail;
        forall i, j | 0 <= i < j < |r|
          ensures r[i].id != r[j].id && r[i].tracking_id != r[j].tracking_id
        {
          if i == 0 {
            assert r[j] == tail[j - 1] && tail[j - 1] in tail;
            var k :| 0 <= k < |rows[1..]| && rows[1..][k] == r[j];
            assert rows[k + 1] == r[j];
          } else {
            assert r[i] == tail[i - 1] && r[j] == tail[j - 1];
          }
        }
      }
    }
  }

  /** Deleting keeps the invariant of every remaining row. */
  lemma DeleteKeepsStamp(rows: seq<Row>, id: string)
    requires AllStamped(rows)
    ensures AllStamped(DeleteWhereId(rows, id))
  {
  }

  /** Exactly the rows with that id go; all others stay, in their order. */
  lemma DeleteSpec(rows: seq<Row>, id: string, x: Row)
    ensures x in DeleteWhereId(rows, id) <==> x in rows && x.id != id
    ensures IsSubsequence(DeleteWhereId(rows, id), rows)
  {
    FilterMembership(rows, (r: Row) => r.id != id, x);
    FilterIsSubsequence(rows, (r: Row) => r.id != id);
  }

  /** The first row whose `tracking_id` is `tid` (there is at most one). */
  function Lookup(rows: seq<Row>, tid: string): (r: Option<Row>)
    ensures r.Some? ==> r.value in rows && r.value.tracking_id == tid
    ensures r.None? ==> !HasTrackingId(rows, tid)
  {
    if rows == [] then None
    else if rows[0].tracking_id == tid then Some(rows[0])
    else Lookup(rows[1..], tid)
  }

  /** With unique keys the lookup finds the one row carrying `tid`. */
  lemma LookupUnique(rows: seq<Row>, tid: string, i: nat)
    requires UniqueKeys(rows) && i < |rows| && rows[i].tracking_id == tid
    ensures Lookup(rows, tid) == Some(rows[i])
  {
    var r := Lookup(rows, tid);
    var k :| 0 <= k < |rows| && rows[k] == r.value;
    assert k == i;
  }

  /** The table. Its rows are replaced by each INSERT, UPDATE and DELETE. */
  class Table {
    var rows: seq<Row>

    ghost predicate Valid()
      reads this
    {
      UniqueKeys(rows)
    }

    constructor ()
      ensures Valid() && rows == []
    {
      rows := [];
    }

    /** `select(...)` of every row (any order; ordering is applied by the caller's query). */
    method SelectAll(fault: Option<DbError>) returns (res: Result<seq<Row>, DbError>)
      ensures fault.Some? ==> res == Failure(fault.value)
      ensures fault.None? ==> res == Success(rows)
    {
      if fault.Some? {
        res := Failure(fault.value);
      } else {
        res := Success(rows);
      }
    }

    /** `select(...).eq('tracking_id', tid).single()`. */
    method FindByTrackingId(tid: string, fault: Option<DbError>) returns (res: Result<Option<Row>, DbError>)
      requires Valid()
      ensures fault.Some? ==> res == Failure(fault.value)
      ensures fault.None? ==> res.Success? && res.value == Lookup(rows, tid)
    {
      if fault.Some? {
        res := Failure(fault.value);
      } else {
        res := Success(Lookup(rows, tid));
      }
    }

    /** `insert([row])`. */
    method Insert(row: Row, fault: Option<DbError>) returns (err: Option<DbError>)
      requires Valid()
      modifies this
      ensures Valid()
      ensures err == InsertError(old(rows), row, fault)
      ensures rows == if err.None? then old(rows) + [row] else old(rows)
      ensures AllStamped(old(rows)) && OpenedIffStamped(row.status, row.opened_at) ==> AllStamped(rows)
    {
      err := InsertError(rows, row, fault);
      if err.None? {
        rows := rows + [row];
      }
    }

    /** `update(p).eq('id', id)`. */
    method Update(id: string, p: Patch, fault: Option<DbError>) returns (err: Option<DbError>)
      requires Valid()
      modifies this
      ensures Valid()
      ensures err == fault
      ensures rows == if fault.None? then UpdateWhereId(old(rows), id, p) else old(rows)
      ensures AllStamped(old(rows)) && KeepsStamp(p) ==> AllStamped(rows)
    {
      err := fault;
      if fault.None? {
        UpdateKeepsKeys(rows, id, p);
        if AllStamped(rows) && KeepsStamp(p) {
          UpdateKeepsStamp(rows, id, p);
        }
        rows := UpdateWhereId(rows, id, p);
      }
    }

    /** `delete().eq('id', id)`. */
    method Delete(id: string, fault: Option<DbError>) returns (err: Option<DbError>)
      requires Valid()
      modifies this
      ensures Valid()
      ensures err == fault
      ensures rows == if fault.None? then DeleteWhereId(old(rows), id) else old(rows)
      ensures AllStamped(old(rows)) ==> AllStamped(rows)
    {
      err := fault;
      if fault.None? {
        DeleteKeepsKeys(rows, id);
        rows := DeleteWhereId(rows, id);
      }
    }
  }
}
