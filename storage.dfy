/** services/storageService.ts: the client's query and mutation surface over
    the `tracked_emails` table. Every operation takes the table handle, and
    the service's possible error as `fault`. */
module Storage {
  import opened Wrappers
  import opened Types
  import opened Seqs
  import opened Database

  /** `mapToTrackedEmail`: each column becomes the field of the same meaning. */
  function MapToTrackedEmail(row: Row): (e: TrackedEmail)
    ensures InsertedRow(e, row.id) == row
  {
    TrackedEmail(row.id, row.recipient, row.subject, row.created_at,
                 row.opened_at, row.status, row.tracking_id)
  }

  /** The row `saveEmail` inserts for `email`: every field but `id`, which the
      database assigns (here `newId`). */
  function InsertedRow(email: TrackedEmail, newId: string): (row: Row)
    ensures row.id == newId && row.tracking_id == email.trackingId
  {
    Row(newId, email.trackingId, email.recipient, email.subject,
        email.status, email.createdAt, email.openedAt)
  }

  /** A saved record reads back as itself, with the id the database gave it. */
  lemma SavedReadsBack(email: TrackedEmail, newId: string)
    ensures MapToTrackedEmail(InsertedRow(email, newId)) == email.(id := newId)
  {
  }

  function MapRows(rows: seq<Row>): (es: seq<TrackedEmail>)
    ensures |es| == |rows|
  {
    Map(rows, MapToTrackedEmail)
  }

  /** Newest first: ordered by `createdAt`, descending. */
  predicate NewestFirst(es: seq<TrackedEmail>) {
    forall i, j :: 0 <= i < j < |es| ==> es[i].createdAt >= es[j].createdAt
  }

  /** Places `e` into a newest-first list. */
  function InsertNewestFirst(e: TrackedEmail, es: seq<TrackedEmail>): (r: seq<TrackedEmail>)
    requires NewestFirst(es)
    ensures NewestFirst(r)
    ensures multiset(r) == multiset(es) + multiset{e}
    ensures |r| == |es| + 1 && (r[0] == e || (es != [] && r[0] == es[0]))
  {
    if es == [] || e.createdAt >= es[0].createdAt then [e] + es
    else
      assert es == [es[0]] + es[1..];
      [es[0]] + InsertNewestFirst(e, es[1..])
  }

  /** `order('created_at', { ascending: false })`, which Postgres applies
      before the rows reach the client. Rows with equal `created_at` may come
      in any order; this is one of them. */
  function SortNewestFirst(es: seq<TrackedEmail>): (r: seq<TrackedEmail>)
    ensures NewestFirst(r)
    ensures multiset(r) == multiset(es)
  {
    if es == [] then []
    else
      assert es == [es[0]] + es[1..];
      InsertNewestFirst(es[0], SortNewestFirst(es[1..]))
  }

  /** `getEmails`: every row mapped, newest first; `[]` when the service fails. */
  method GetEmails(db: Table, fault: Option<DbError>) returns (emails: seq<TrackedEmail>)
    ensures fault.Some? ==> emails == []
    ensures fault.None? ==> NewestFirst(emails) && multiset(emails) == multiset(MapRows(db.rows))
  {
    var res := db.SelectAll(fault);
    if res.Failure? {
      return [];
    }
    emails := SortNewestFirst(MapRows(res.value));
  }

  /** The answer of `saveEmail`. */
  datatype SaveResult = SaveResult(success: bool, error: Option<string>)

  /** `error.message || 'Unknown database error'`. */
  function ErrorText(e: DbError): (text: string)
    ensures text != ""
    ensures e.message != "" ==> text == e.message
    ensures e.message == "" ==> text == "Unknown database error"
  {
    if e.message != "" then e.message else "Unknown database error"
  }

  /** `saveEmail`: insert every field except `id`; report a failure with its message. */
  method SaveEmail(db: Table, email: TrackedEmail, newId: string, fault: Option<DbError>)
    returns (res: SaveResult)
    requires db.Valid()
    modifies db
    ensures db.Valid()
    ensures var err := InsertError(old(db.rows), InsertedRow(email, newId), fault);
      && res.success == err.None?
      && (err.None? ==> res.error.None? && db.rows == old(db.rows) + [InsertedRow(email, newId)])
      && (err.Some? ==> res.error == Some(ErrorText(err.value)) && db.rows == old(db.rows))
    ensures AllStamped(old(db.rows)) && OpenedIffStamped(email.status, email.openedAt) ==> AllStamped(db.rows)
  {
    var err := db.Insert(InsertedRow(email, newId), fault);
    if err.Some? {
      return SaveResult(false, Some(ErrorText(err.value)));
    }
    res := SaveResult(true, None);
  }

  /** `Partial<TrackedEmail>`: any subset of the fields. */
  datatype PartialEmail = PartialEmail(
    id: Option<string>,
    recipient: Option<string>,
    subject: Option<string>,
    createdAt: Option<Time>,
    openedAt: Option<Option<Time>>,
    status: Option<Status>,
    trackingId: Option<string>)

  /** The `dbUpdates` object `updateEmail` builds: `recipient` and `subject`
      when present and non-empty, nothing else. */
  function EditPatch(u: PartialEmail): (p: Patch)
    ensures p.status.None? && p.opened_at.None?
    ensures p.recipient.Some? <==> u.recipient.Some? && u.recipient.value != ""
    ensures p.subject.Some? <==> u.subject.Some? && u.subject.value != ""
    ensures p.recipient.Some? ==> p.recipient == u.recipient
    ensures p.subject.Some? ==> p.subject == u.subject
  {
    Patch(if u.recipient.Some? && u.recipient.value != "" then u.recipient else None,
          if u.subject.Some? && u.subject.value != "" then u.subject else None,
          None, None)
  }

  /** `updateEmail`: build the update field by field and send it. Failures
      are only logged. */
  method UpdateEmail(db: Table, id: string, updates: PartialEmail, fault: Option<DbError>)
    requires db.Valid()
    modifies db
    ensures db.Valid()
    ensures db.rows == if fault.None? then UpdateWhereId(old(db.rows), id, EditPatch(updates)) else old(db.rows)
    ensures AllStamped(old(db.rows)) ==> AllStamped(db.rows)
  {
    var dbUpdates := NoChange;
    if updates.recipient.Some? && updates.recipient.value != "" {
      dbUpdates := dbUpdates.(recipient := updates.recipient);
    }
    if updates.subject.Some? && updates.subject.value != "" {
      dbUpdates := dbUpdates.(subject := updates.subject);
    }
    var _ := db.Update(id, dbUpdates, fault);
  }

  /** What an edit does to each row: only `recipient` and `subject` of the
      row with that id can change, and only to non-empty values from the
      patch; status, timestamps and both identifiers never change. */
  lemma EditOnlyTouchesText(rows: seq<Row>, id: string, u: PartialEmail, i: nat)
    requires i < |rows|
    ensures var r := UpdateWhereId(rows, id, EditPatch(u))[i];
      && r.id == rows[i].id && r.tracking_id == rows[i].tracking_id
      && r.status == rows[i].status && r.created_at == rows[i].created_at
      && r.opened_at == rows[i].opened_at
      && r.recipient == (if rows[i].id == id && u.recipient.Some? && u.recipient.value != ""
                         then u.recipient.value else rows[i].recipient)
      && r.subject == (if rows[i].id == id && u.subject.Some? && u.subject.value != ""
                       then u.subject.value else rows[i].subject)
  {
  }

  /** An update with no non-empty text field leaves the table as it was. */
  lemma EmptyEditIsNoOp(rows: seq<Row>, id: string, u: PartialEmail)
    requires u.recipient.None? || u.recipient.value == ""
    requires u.subject.None? || u.subject.value == ""
    ensures UpdateWhereId(rows, id, EditPatch(u)) == rows
  {
    assert EditPatch(u) == NoChange;
    EmptyUpdateIsNoOp(rows, id);
  }

  /** `markAsOpened`: set `opened` and `opened_at = now` on the row with that
      id, whatever its status was; `null` on success, the message otherwise. */
  method MarkAsOpened(db: Table, id: string, now: Time, fault: Option<DbError>)
    returns (err: Option<string>)
    requires db.Valid()
    modifies db
    ensures db.Valid()
    ensures err == if fault.Some? then Some(fault.value.message) else None
    ensures db.rows == if fault.None? then UpdateWhereId(old(db.rows), id, OpenPatch(now)) else old(db.rows)
    ensures AllStamped(old(db.rows)) ==> AllStamped(db.rows)
  {
    var e := db.Update(id, OpenPatch(now), fault);
    if e.Some? {
      return Some(e.value.message);
    }
    err := None;
  }

  /** Unlike the tracking endpoint, `markAsOpened` does not check the prior
      status: a row already opened at `t0` gets its `opened_at` replaced. */
  lemma MarkAsOpenedOverwrites(rows: seq<Row>, i: nat, now: Time)
    requires i < |rows| && rows[i].status == Opened
    ensures UpdateWhereId(rows, rows[i].id, OpenPatch(now))[i].opened_at == Some(now)
    ensures rows[i].opened_at != Some(now) ==>
      UpdateWhereId(rows, rows[i].id, OpenPatch(now))[i] != rows[i]
  {
  }

  /** `deleteEmail`: remove the row with that id; failures are only logged. */
  method DeleteEmail(db: Table, id: string, fault: Option<DbError>)
    requires db.Valid()
    modifies db
    ensures db.Valid()
    ensures db.rows == if fault.None? then DeleteWhereId(old(db.rows), id) else old(db.rows)
    ensures AllStamped(old(db.rows)) ==> AllStamped(db.rows)
  {
    var _ := db.Delete(id, fault);
  }

  /** `Math.round(opened / sent * 100)`, or 0 when nothing was sent, in
      integer arithmetic: the integer nearest to 100·opened/sent, halves up. */
  function OpenRate(openedCount: nat, sentCount: nat): (rate: nat)
    requires openedCount <= sentCount
    ensures sentCount == 0 ==> rate == 0
    ensures sentCount > 0 ==> 2 * sentCount * rate <= 200 * openedCount + sentCount < 2 * sentCount * (rate + 1)
    ensures rate <= 100
  {
    if sentCount == 0 then 0
    else
      var q := (200 * openedCount + sentCount) / (2 * sentCount);
      assert 2 * sentCount * q <= 200 * openedCount + sentCount < 2 * sentCount * (q + 1);
      assert 2 * sentCount * q <= 201 * sentCount;
      q
  }

  predicate IsOpenedRow(r: Row) { r.status == Opened }

  /** The fold in `getStats`: the row count, the count of opened rows, and the rate. */
  function StatsOf(rows: seq<Row>): (s: Stats)
    ensures s.totalSent == |rows|
    ensures s.totalOpened == |Filter(rows, IsOpenedRow)|
    ensures s.totalOpened <= s.totalSent && s.openRate <= 100
    ensures s.totalSent == 0 ==> s.openRate == 0
    ensures s.openRate == OpenRate(s.totalOpened, s.totalSent)
  {
    var openedCount := |Filter(rows, IsOpenedRow)|;
    Stats(|rows|, openedCount, OpenRate(openedCount, |rows|))
  }

  /** `getStats`: the fold over all rows, or all zeros when the service fails. */
  method GetStats(db: Table, fault: Option<DbError>) returns (stats: Stats)
    ensures fault.Some? ==> stats == Stats(0, 0, 0)
    ensures fault.None? ==> stats == StatsOf(db.rows)
  {
    var res := db.SelectAll(fault);
    if res.Failure? {
      return Stats(0, 0, 0);
    }
    stats := StatsOf(res.value);
  }

  /** No records: all zeros. */
  lemma StatsOfEmpty()
    ensures StatsOf([]) == Stats(0, 0, 0)
  {
  }

  /** Four records with one opened: 4 sent, 1 opened, 25 percent. */
  lemma StatsOfFourOneOpened(a: Row, b: Row, c: Row, d: Row)
    requires a.status == Opened && b.status == Sent && c.status == Sent && d.status == Sent
    ensures StatsOf([a, b, c, d]) == Stats(4, 1, 25)
  {
    var rows := [a, b, c, d];
    assert rows[1..] == [b, c, d] && [b, c, d][1..] == [c, d] && [c, d][1..] == [d] && [d][1..] == [];
    assert Filter([d], IsOpenedRow) == [];
    assert Filter([c, d], IsOpenedRow) == [];
    assert Filter([b, c, d], IsOpenedRow) == [];
    assert Filter(rows, IsOpenedRow) == [a];
  }
}
