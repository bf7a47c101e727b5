/** pages/EmailList.tsx: the list page. It keeps a local copy of the records,
    applies deletes, simulated opens and edits to that copy at once
    (optimistically), sends the matching write to the service, and filters
    the copy by a search term. */
module EmailList {
  import opened Wrappers
  import opened Types
  import opened Seqs
  import opened Database
  import opened Storage

  /** The two text inputs of the inline editor. */
  datatype EditForm = EditForm(recipient: string, subject: string)

  /** The optimistic delete: `prev.filter(e => e.id !== id)`. */
  function RemoveById(emails: seq<TrackedEmail>, id: string): (r: seq<TrackedEmail>)
    ensures forall e :: e in r ==> e in emails && e.id != id
  {
    Filter(emails, (e: TrackedEmail) => e.id != id)
  }

  /** Every entry with another id stays, in the original order. */
  lemma RemoveByIdKeepsOthers(emails: seq<TrackedEmail>, id: string, e: TrackedEmail)
    ensures e in RemoveById(emails, id) <==> e in emails && e.id != id
    ensures IsSubsequence(RemoveById(emails, id), emails)
  {
    FilterMembership(emails, (x: TrackedEmail) => x.id != id, e);
    FilterIsSubsequence(emails, (x: TrackedEmail) => x.id != id);
  }

  /** The optimistic open: the entries with that id become opened at `now`. */
  function OpenById(emails: seq<TrackedEmail>, id: string, now: Time): (r: seq<TrackedEmail>)
    ensures |r| == |emails|
    ensures forall i :: 0 <= i < |emails| && emails[i].id != id ==> r[i] == emails[i]
    ensures forall i :: 0 <= i < |emails| && emails[i].id == id ==>
      r[i].status == Opened && r[i].openedAt == Some(now) &&
      r[i] == emails[i].(status := Opened, openedAt := Some(now))
    ensures (forall i :: 0 <= i < |emails| ==> OpenedIffStamped(emails[i].status, emails[i].openedAt)) ==>
      forall i :: 0 <= i < |r| ==> OpenedIffStamped(r[i].status, r[i].openedAt)
  {
    MapWhere(emails, (e: TrackedEmail) => e.id == id,
             (e: TrackedEmail) => e.(status := Opened, openedAt := Some(now)))
  }

  /** The optimistic edit: the form's text goes into the entries with that id. */
  function EditById(emails: seq<TrackedEmail>, id: string, form: EditForm): (r: seq<TrackedEmail>)
    ensures |r| == |emails|
    ensures forall i :: 0 <= i < |emails| && emails[i].id != id ==> r[i] == emails[i]
    ensures forall i :: 0 <= i < |emails| && emails[i].id == id ==>
      r[i].recipient == form.recipient && r[i].subject == form.subject &&
      r[i] == emails[i].(recipient := form.recipient, subject := form.subject)
  {
    MapWhere(emails, (e: TrackedEmail) => e.id == id,
             (e: TrackedEmail) => e.(recipient := form.recipient, subject := form.subject))
  }

  /** The object `saveEditing` hands to `updateEmail`. */
  function FormUpdates(form: EditForm): (u: PartialEmail)
    ensures u.recipient == Some(form.recipient) && u.subject == Some(form.subject)
    ensures u.status.None? && u.openedAt.None? && u.trackingId.None?
  {
    PartialEmail(None, Some(form.recipient), Some(form.subject), None, None, None, None)
  }

  /** The optimistic delete shows what the service's delete leaves. */
  lemma DeleteAgrees(rows: seq<Row>, id: string)
    ensures RemoveById(MapRows(rows), id) == MapRows(DeleteWhereId(rows, id))
  {
    FilterMap(rows, MapToTrackedEmail, (e: TrackedEmail) => e.id != id, (r: Row) => r.id != id);
  }

  /** The optimistic open shows what `markAsOpened` writes, when both read
      the same clock value. */
  lemma OpenAgrees(rows: seq<Row>, id: string, now: Time)
    ensures OpenById(MapRows(rows), id, now) == MapRows(UpdateWhereId(rows, id, OpenPatch(now)))
  {
  }

  /** With both fields filled in, the optimistic edit shows what `updateEmail` writes. */
  lemma EditAgrees(rows: seq<Row>, id: string, form: EditForm)
    requires form.recipient != "" && form.subject != ""
    ensures EditById(MapRows(rows), id, form) == MapRows(UpdateWhereId(rows, id, EditPatch(FormUpdates(form))))
  {
  }

  /** With a field left empty they disagree: the list shows the empty text
      while `updateEmail` skips the field and the row keeps its old value. */
  lemma EditDiverges(rows: seq<Row>, id: string, form: EditForm, i: nat)
    requires i < |rows| && rows[i].id == id
    requires form.recipient == "" && rows[i].recipient != ""
    ensures EditById(MapRows(rows), id, form)[i].recipient == ""
    ensures UpdateWhereId(rows, id, EditPatch(FormUpdates(form)))[i].recipient == rows[i].recipient
    ensures EditById(MapRows(rows), id, form) != MapRows(UpdateWhereId(rows, id, EditPatch(FormUpdates(form))))
  {
    var local := EditById(MapRows(rows), id, form);
    var remote := MapRows(UpdateWhereId(rows, id, EditPatch(FormUpdates(form))));
    assert local[i].recipient != remote[i].recipient;
  }

  /** ASCII `toLowerCase` of one character. */
  function LowerChar(c: char): (d: char)
    ensures !('A' <= d <= 'Z')
    ensures !('A' <= c <= 'Z') ==> d == c
    ensures 'A' <= c <= 'Z' ==> d as int == c as int + 32
  {
    if 'A' <= c <= 'Z' then (c as int + 32) as char else c
  }

  function Lower(s: string): (t: string)
    ensures |t| == |s|
    ensures forall i :: 0 <= i < |s| ==> t[i] == LowerChar(s[i])
  {
    Map(s, LowerChar)
  }

  /** `s.includes(t)`: `t` starts at some position of `s`. */
  predicate Includes(s: string, t: string) {
    t <= s || (s != [] && Includes(s[1..], t))
  }

  /** `t` occurs in `s` starting at position `k`. */
  predicate OccursAt(s: string, t: string, k: nat) {
    k + |t| <= |s| && s[k..k + |t|] == t
  }

  lemma {:induction false} IncludesAt(s: string, t: string, k: nat)
    requires OccursAt(s, t, k)
    ensures Includes(s, t)
  {
    if k > 0 {
      assert s[1..][k - 1..k - 1 + |t|] == s[k..k + |t|];
      IncludesAt(s[1..], t, k - 1);
    } else {
      assert t <= s;
    }
  }

  lemma {:induction false} IncludesWitness(s: string, t: string) returns (k: nat)
    requires Includes(s, t)
    ensures OccursAt(s, t, k)
  {
    if t <= s {
      k := 0;
    } else {
      var k' := IncludesWitness(s[1..], t);
      k := k' + 1;
      assert s[1..][k'..k' + |t|] == s[k..k + |t|];
    }
  }

  /** `Includes` holds exactly when `t` occurs somewhere in `s`. */
  lemma IncludesIffOccurs(s: string, t: string)
    ensures Includes(s, t) <==> exists k: nat :: OccursAt(s, t, k)
  {
    if Includes(s, t) {
      var k := IncludesWitness(s, t);
    }
    if exists k: nat :: OccursAt(s, t, k) {
      var k: nat :| OccursAt(s, t, k);
      IncludesAt(s, t, k);
    }
  }

  /** The search test of one entry. */
  predicate Matches(e: TrackedEmail, term: string) {
    Includes(Lower(e.recipient), Lower(term)) || Includes(Lower(e.subject), Lower(term))
  }

  /** `filteredEmails`. */
  function FilteredEmails(emails: seq<TrackedEmail>, term: string): (r: seq<TrackedEmail>)
    ensures forall e :: e in r ==> e in emails && Matches(e, term)
  {
    Filter(emails, (e: TrackedEmail) => Matches(e, term))
  }

  /** The search keeps an entry iff it matches, keeps the order, and an
      empty term keeps everything. */
  lemma SearchSpec(emails: seq<TrackedEmail>, term: string, e: TrackedEmail)
    ensures e in FilteredEmails(emails, term) <==> e in emails && Matches(e, term)
    ensures IsSubsequence(FilteredEmails(emails, term), emails)
    ensures term == "" ==> FilteredEmails(emails, term) == emails
  {
    var p := (x: TrackedEmail) => Matches(x, term);
    FilterMembership(emails, p, e);
    FilterIsSubsequence(emails, p);
    if term == "" {
      forall x | x in emails ensures p(x) {
        assert Lower(term) == [] && [] <= Lower(x.recipient);
      }
      FilterAll(emails, p);
    }
  }

  /** The simulate-open button is offered only for entries not yet opened. */
  function CanSimulateOpen(e: TrackedEmail): (offered: bool)
    ensures offered <==> e.status == Sent
  {
    e.status != Opened
  }

  /** The component's state. */
  class EmailListView {
    var emails: seq<TrackedEmail>
    var searchTerm: string
    var loading: bool
    var editingId: Option<string>
    var editForm: EditForm

    constructor ()
      ensures emails == [] && searchTerm == "" && loading
      ensures editingId == None && editForm == EditForm("", "")
    {
      emails := [];
      searchTerm := "";
      loading := true;
      editingId := None;
      editForm := EditForm("", "");
    }

    /** The rows the table shows. */
    function Visible(): seq<TrackedEmail>
      reads this
    {
      FilteredEmails(emails, searchTerm)
    }

    /** `loadEmails`: replace the local list by a fresh `getEmails` read. */
    method LoadEmails(db: Table, fault: Option<DbError>, showLoading: bool)
      modifies this
      ensures fault.Some? ==> emails == []
      ensures fault.None? ==> NewestFirst(emails) && multiset(emails) == multiset(MapRows(db.rows))
      ensures loading == if showLoading then false else old(loading)
      ensures searchTerm == old(searchTerm) && editingId == old(editingId) && editForm == old(editForm)
    {
      if showLoading {
        loading := true;
      }
      var data := GetEmails(db, fault);
      emails := data;
      if showLoading {
        loading := false;
      }
    }

    /** The change-feed callback: any insert, update or delete on the table
        triggers a full, silent reload. */
    method OnTableChange(db: Table, fault: Option<DbError>)
      modifies this
      ensures fault.Some? ==> emails == []
      ensures fault.None? ==> NewestFirst(emails) && multiset(emails) == multiset(MapRows(db.rows))
      ensures loading == old(loading) && searchTerm == old(searchTerm)
      ensures editingId == old(editingId) && editForm == old(editForm)
    {
      LoadEmails(db, fault, false);
    }

    /** `handleDelete`, after the user answered the confirmation. */
    method HandleDelete(db: Table, id: string, confirmed: bool, fault: Option<DbError>)
      requires db.Valid()
      modifies this, db
      ensures db.Valid()
      ensures emails == if confirmed then RemoveById(old(emails), id) else old(emails)
      ensures db.rows == if confirmed && fault.None? then DeleteWhereId(old(db.rows), id) else old(db.rows)
      ensures searchTerm == old(searchTerm) && loading == old(loading)
      ensures editingId == old(editingId) && editForm == old(editForm)
    {
      if confirmed {
        emails := RemoveById(emails, id);
        DeleteEmail(db, id, fault);
      }
    }

    /** `handleSimulateOpen`: open the entry locally at `now`, ask the service
        to mark it opened (its own clock reads `dbNow`), and reload the list
        when the service reports a non-empty error. */
    method HandleSimulateOpen(db: Table, id: string, now: Time, dbNow: Time,
                              fault: Option<DbError>, reloadFault: Option<DbError>)
      requires db.Valid()
      modifies this, db
      ensures db.Valid()
      ensures db.rows == if fault.None? then UpdateWhereId(old(db.rows), id, OpenPatch(dbNow)) else old(db.rows)
      ensures !(fault.Some? && fault.value.message != "") ==> emails == OpenById(old(emails), id, now)
      ensures fault.Some? && fault.value.message != "" && reloadFault.Some? ==> emails == []
      ensures fault.Some? && fault.value.message != "" && reloadFault.None? ==>
        NewestFirst(emails) && multiset(emails) == multiset(MapRows(db.rows))
      ensures loading == old(loading) && searchTerm == old(searchTerm)
      ensures editingId == old(editingId) && editForm == old(editForm)
    {
      emails := OpenById(emails, id, now);
      var error := MarkAsOpened(db, id, dbNow, fault);
      if error.Some? && error.value != "" {
        LoadEmails(db, reloadFault, false);
      }
    }

    /** `startEditing`: open the editor on `email` with its current text. */
    method StartEditing(email: TrackedEmail)
      modifies this
      ensures editingId == Some(email.id)
      ensures editForm == EditForm(email.recipient, email.subject)
      ensures emails == old(emails) && searchTerm == old(searchTerm) && loading == old(loading)
    {
      editingId := Some(email.id);
      editForm := EditForm(email.recipient, email.subject);
    }

    /** `cancelEditing`: close the editor and clear the form. */
    method CancelEditing()
      modifies this
      ensures editingId == None && editForm == EditForm("", "")
      ensures emails == old(emails) && searchTerm == old(searchTerm) && loading == old(loading)
    {
      editingId := None;
      editForm := EditForm("", "");
    }

    /** `saveEditing`: copy the form into the entry locally, close the editor,
        and send the form to `updateEmail`. */
    method SaveEditing(db: Table, id: string, fault: Option<DbError>)
      requires db.Valid()
      modifies this, db
      ensures db.Valid()
      ensures emails == EditById(old(emails), id, old(editForm))
      ensures editingId == None && editForm == old(editForm)
      ensures db.rows ==
        if fault.None? then UpdateWhereId(old(db.rows), id, EditPatch(FormUpdates(old(editForm))))
        else old(db.rows)
      ensures AllStamped(old(db.rows)) ==> AllStamped(db.rows)
      ensures searchTerm == old(searchTerm) && loading == old(loading)
    {
      emails := EditById(emails, id, editForm);
      editingId := None;
      UpdateEmail(db, id, FormUpdates(editForm), fault);
    }

    /** The search box's `onChange`. */
    method SetSearchTerm(term: string)
      modifies this
      ensures searchTerm == term && Visible() == FilteredEmails(emails, term)
      ensures emails == old(emails) && loading == old(loading)
      ensures editingId == old(editingId) && editForm == old(editForm)
    {
      searchTerm := term;
    }
  }
}
