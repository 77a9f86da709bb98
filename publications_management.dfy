/** The admin panel for publications: a list fetched newest first (drafts
    included) with a refresh button, a dialog form whose fields are written
    to the table exactly as typed, and delete after confirmation. */
module PublicationsManagement {
  import opened Wrappers
  import opened Strings
  import opened Table
  import opened Toasts
  import opened Fields
  import Seqs

  /** The editable columns of a stored publication; `None` is a null column. */
  datatype Publication = Publication(
    titleBg: string,
    titleEn: Option<string>,
    descriptionBg: Option<string>,
    descriptionEn: Option<string>,
    contentBg: Option<string>,
    contentEn: Option<string>,
    publicationType: string,
    documentUrl: Option<string>,
    published: bool,
    featured: bool)

  datatype Form = Form(
    titleBg: string,
    titleEn: string,
    descriptionBg: string,
    descriptionEn: string,
    contentBg: string,
    contentEn: string,
    publicationType: string,
    documentUrl: string,
    published: bool,
    featured: bool)

  /** The first entry of the type select. */
  const DefaultType := "публикация"

  /** The form after `resetForm`. */
  const EmptyForm := Form("", "", "", "", "", "", DefaultType, "", false, false)

  /** `handleEdit`: the form filled from a stored publication, null columns
      as empty fields. */
  function FormOf(n: Publication): Form {
    Form(n.titleBg, OrEmpty(n.titleEn), OrEmpty(n.descriptionBg), OrEmpty(n.descriptionEn),
         OrEmpty(n.contentBg), OrEmpty(n.contentEn), n.publicationType, OrEmpty(n.documentUrl),
         n.published, n.featured)
  }

  /** `update(formData)` / `insert([formData])`: the form is written as it
      is, so an empty input is stored as an empty text, never as null. */
  function Payload(f: Form): Publication {
    Publication(f.titleBg, Some(f.titleEn), Some(f.descriptionBg), Some(f.descriptionEn),
                Some(f.contentBg), Some(f.contentEn), f.publicationType, Some(f.documentUrl),
                f.published, f.featured)
  }

  /** The client-side check: the Bulgarian title is not blank. */
  predicate CanSubmit(f: Form) {
    Trim(f.titleBg) != ""
  }

  /** No optional column is null. */
  predicate AllSet(n: Publication) {
    n.titleEn.Some? && n.descriptionBg.Some? && n.descriptionEn.Some? && n.contentBg.Some?
    && n.contentEn.Some? && n.documentUrl.Some?
  }

  /** Saving a form and opening the saved publication for edit gives the same form. */
  lemma {:induction false} FormOfPayload(f: Form)
    ensures FormOf(Payload(f)) == f
  {
  }

  /** Opening a publication for edit and saving it untouched writes back the same
      columns, except that null optional columns become empty texts. */
  lemma {:induction false} SaveUntouchedEdit(n: Publication)
    ensures AllSet(n) <==> Payload(FormOf(n)) == n
    ensures Payload(FormOf(n)).titleEn == (if n.titleEn.None? then Some("") else n.titleEn)
    ensures AllSet(Payload(FormOf(n)))
  {
    SomeOrEmpty(n.titleEn);
    SomeOrEmpty(n.descriptionBg);
    SomeOrEmpty(n.descriptionEn);
    SomeOrEmpty(n.contentBg);
    SomeOrEmpty(n.contentEn);
    SomeOrEmpty(n.documentUrl);
  }

  // ---------------------------------------------------------------------------
  // The panel's state and its transitions
  // ---------------------------------------------------------------------------

  /** The remote `publications` table with the key its next insert gets, the fetched
      list, the loading flag, the publication being edited, the dialog and the form. */
  datatype State = State(
    table: seq<Row<Publication>>,
    nextId: nat,
    publications: seq<Row<Publication>>,
    loading: bool,
    editing: Option<Row<Publication>>,
    dialogOpen: bool,
    form: Form)

  predicate Consistent(s: State) {
    UniqueIds(s.table) && IdBound(s.table) <= s.nextId
  }

  /** `fetchPublications`: on success the list is the whole table newest first; on
      failure it stays as it was; either way loading ends. */
  function Fetch(s: State, ok: bool): (State, seq<Toast>) {
    if ok then (s.(publications := ByNewest(s.table), loading := false), [])
    else (s.(loading := false), [LoadFailed])
  }

  /** `resetForm`: the empty form, and no publication being edited. */
  function Reset(s: State): State {
    s.(form := EmptyForm, editing := None)
  }

  /** The add button: it resets the form and, as the dialog's trigger, opens it. */
  function OpenCreate(s: State): State {
    Reset(s).(dialogOpen := true)
  }

  /** `handleEdit(publication)`. */
  function OpenEdit(s: State, publication: Row<Publication>): State {
    s.(editing := Some(publication), form := FormOf(publication.data), dialogOpen := true)
  }

  /** The table after a successful save of the form. */
  function Save(s: State, now: nat): State {
    var p := Payload(s.form);
    if s.editing.Some? then s.(table := Replace(s.table, s.editing.value.id, p))
    else s.(table := Insert(s.table, s.nextId, now, p), nextId := s.nextId + 1)
  }

  /** Opening a stored row for edit and saving the form untouched leaves the
      table as it was, when the row holds no value the form cannot show. */
  lemma {:induction false} EditUntouchedKeepsTable(s: State, publication: Row<Publication>, now: nat)
    requires Consistent(s) && publication in s.table && AllSet(publication.data)
    ensures Save(OpenEdit(s, publication), now).table == s.table
    ensures Save(OpenEdit(s, publication), now).nextId == s.nextId
  {
    SaveUntouchedEdit(publication.data);
    ReplaceWithSame(s.table, publication);
  }

  /** The three calls that follow a successful save: the form is reset, the
      dialog closes and the list is refetched. */
  function Closed(s: State, fetchOk: bool): (State, seq<Toast>) {
    Fetch(Reset(s).(dialogOpen := false), fetchOk)
  }

  /** What `handleSubmit` does once the form has passed its check and the
      insert or update has gone through: the save, the reset of the form,
      the closing of the dialog and the refetch. */
  function Saved(s: State, fetchOk: bool, now: nat): (State, seq<Toast>) {
    var closed := Closed(Save(s, now), fetchOk);
    (closed.0, [if s.editing.Some? then Updated else Created] + closed.1)
  }

  /** `handleSubmit`, with the outcome of the insert or update and of the
      refetch after it; `now` is the creation stamp a new row gets. */
  function Submit(s: State, remoteOk: bool, fetchOk: bool, now: nat): (State, seq<Toast>) {
    if !CanSubmit(s.form) then (s, [MissingFields])
    else if !remoteOk then (s, [SaveFailed])
    else Saved(s, fetchOk, now)
  }

  /** `handleDelete(id)`. */
  function Delete(s: State, id: nat, confirmed: bool, remoteOk: bool, fetchOk: bool): (State, seq<Toast>) {
    if !confirmed then (s, [])
    else if !remoteOk then (s, [DeleteFailed])
    else
      var fetched := Fetch(s.(table := Remove(s.table, id)), fetchOk);
      (fetched.0, [Deleted] + fetched.1)
  }

  // ---------------------------------------------------------------------------
  // Properties of the transitions
  // ---------------------------------------------------------------------------

  /** A submit is turned away, with no request, exactly when the Bulgarian
      title is blank, whatever the other fields hold; then nothing changes. */
  lemma {:induction false} RequiredFields(s: State, remoteOk: bool, fetchOk: bool, now: nat)
    ensures Submit(s, remoteOk, fetchOk, now).1 == [MissingFields] <==> Trim(s.form.titleBg) == ""
    ensures !CanSubmit(s.form) ==> Submit(s, remoteOk, fetchOk, now).0 == s
  {
    if CanSubmit(s.form) && remoteOk {
      var t := Submit(s, remoteOk, fetchOk, now).1;
      assert t[0] != MissingFields;
    }
  }

  /** `resetForm` restores the defaults and is idempotent. */
  lemma {:induction false} ResetDefaults(s: State)
    ensures var f := Reset(s).form;
      && f.titleBg == "" && f.titleEn == "" && f.descriptionBg == "" && f.descriptionEn == ""
      && f.contentBg == "" && f.contentEn == "" && f.documentUrl == ""
      && f.publicationType == "публикация" && !f.published && !f.featured
    ensures Reset(s).editing.None?
    ensures Reset(Reset(s)) == Reset(s)
  {
  }

  /** Saving an edit overwrites only the row with the edited key, with the
      form as typed, then resets the form, closes the dialog and refetches. */
  lemma {:induction false} SaveEditTouchesOneRow(s: State, fetchOk: bool, now: nat)
    requires CanSubmit(s.form) && s.editing.Some?
    ensures var t := Submit(s, true, fetchOk, now).0;
      && |t.table| == |s.table|
      && (forall i :: 0 <= i < |s.table| && s.table[i].id != s.editing.value.id ==> t.table[i] == s.table[i])
      && (forall i :: 0 <= i < |s.table| && s.table[i].id == s.editing.value.id ==>
            t.table[i] == s.table[i].(data := Payload(s.form)))
      && !t.dialogOpen && t.form == EmptyForm && t.editing.None? && !t.loading
      && (fetchOk ==> t.publications == ByNewest(t.table))
  {
  }

  /** Saving a new publication adds exactly one row, under a fresh key, holding the form. */
  lemma {:induction false} SaveNewAddsOneRow(s: State, fetchOk: bool, now: nat)
    requires Consistent(s) && CanSubmit(s.form) && s.editing.None?
    ensures var t := Submit(s, true, fetchOk, now).0;
      && t.table == s.table + [Row(s.nextId, now, Payload(s.form))]
      && Find(t.table, s.nextId) == Some(Row(s.nextId, now, Payload(s.form)))
      && FormOf(Find(t.table, s.nextId).value.data) == s.form
      && !t.dialogOpen && t.form == EmptyForm && t.editing.None?
  {
    InsertFresh(s.table, s.nextId, now, Payload(s.form));
    FormOfPayload(s.form);
  }

  /** A refused save leaves the form, the publication being edited and the dialog
      as they were. */
  lemma {:induction false} FailedSaveKeepsForm(s: State, fetchOk: bool, now: nat)
    ensures Submit(s, false, fetchOk, now).0 == s
  {
  }

  /** Without confirmation nothing happens; with it, the row with that key
      goes and every other row stays, in order. */
  lemma {:induction false} DeleteOnlyThatRow(s: State, id: nat, remoteOk: bool, fetchOk: bool)
    ensures Delete(s, id, false, remoteOk, fetchOk) == (s, [])
    ensures remoteOk ==> forall row :: row in Delete(s, id, true, remoteOk, fetchOk).0.table <==> row in s.table && row.id != id
    ensures remoteOk ==> Seqs.IsSubsequence(Delete(s, id, true, remoteOk, fetchOk).0.table, s.table)
  {
    if remoteOk {
      RemoveKeepsOrder(s.table, id);
      forall row ensures row in Delete(s, id, true, remoteOk, fetchOk).0.table <==> row in s.table && row.id != id {
        RemoveMembership(s.table, id, row);
      }
    }
  }

  /** The refresh button refetches and leaves the form, the publication being
      edited, the dialog and the table alone. */
  lemma {:induction false} RefreshKeepsForm(s: State, ok: bool)
    ensures var t := Fetch(s, ok).0;
      t.form == s.form && t.editing == s.editing && t.dialogOpen == s.dialogOpen
      && t.table == s.table && t.nextId == s.nextId
  {
  }

  /** The admin list holds every row of the table, published or not, newest first. */
  lemma {:induction false} FetchListsEveryRow(s: State)
    ensures multiset(Fetch(s, true).0.publications) == multiset(s.table)
    ensures var l := Fetch(s, true).0.publications;
      forall i, j :: 0 <= i < j < |l| ==> l[i].createdAt >= l[j].createdAt
  {
    ByNewestSorted(s.table);
  }

  lemma {:induction false} DialogKeepsConsistent(s: State, ok: bool, publication: Row<Publication>)
    requires Consistent(s)
    ensures Consistent(Fetch(s, ok).0)
    ensures Consistent(Reset(s)) && Consistent(OpenCreate(s)) && Consistent(OpenEdit(s, publication))
  {
  }

  /** A successful save keeps the table's keys unique and the next key unused. */
  lemma {:induction false} SaveKeepsConsistent(s: State, now: nat)
    requires Consistent(s)
    ensures Consistent(Save(s, now))
  {
    var p, saved := Payload(s.form), Save(s, now);
    if s.editing.Some? {
      ReplaceKeepsKeys(s.table, s.editing.value.id, p);
      assert saved.table == Replace(s.table, s.editing.value.id, p) && saved.nextId == s.nextId;
    } else {
      InsertFresh(s.table, s.nextId, now, p);
      assert saved.table == Insert(s.table, s.nextId, now, p) && saved.nextId == s.nextId + 1;
    }
  }

  /** A submit keeps the table's keys unique and the next key unused. */
  lemma {:induction false} SubmitKeepsConsistent(s: State, remoteOk: bool, fetchOk: bool, now: nat)
    requires Consistent(s)
    ensures Consistent(Submit(s, remoteOk, fetchOk, now).0)
  {
    SaveKeepsConsistent(s, now);
    var saved := Save(s, now);
    var r := Submit(s, remoteOk, fetchOk, now).0;
    assert (r.table, r.nextId) == (saved.table, saved.nextId) || (r.table, r.nextId) == (s.table, s.nextId);
  }

  lemma {:induction false} DeleteKeepsConsistent(s: State, id: nat, confirmed: bool, remoteOk: bool, fetchOk: bool)
    requires Consistent(s)
    ensures Consistent(Delete(s, id, confirmed, remoteOk, fetchOk).0)
  {
    RemoveKeepsKeys(s.table, id);
  }

  // ---------------------------------------------------------------------------
  // The component
  // ---------------------------------------------------------------------------

  class Panel {
    var table: seq<Row<Publication>>
    var nextId: nat
    var publications: seq<Row<Publication>>
    var loading: bool
    var editing: Option<Row<Publication>>
    var dialogOpen: bool
    var form: Form

    function Snapshot(): State
      reads this
    {
      State(table, nextId, publications, loading, editing, dialogOpen, form)
    }

    /** `Consistent` of the current state, stated on the two fields it reads. */
    predicate Valid()
      reads this
    {
      UniqueIds(table) && IdBound(table) <= nextId
    }

    constructor (initial: seq<Row<Publication>>)
      requires UniqueIds(initial)
      ensures Valid()
      ensures Snapshot() == State(initial, IdBound(initial), [], true, None, false, EmptyForm)
      ensures ShowsLoading()
    {
      table := initial;
      nextId := IdBound(initial);
      publications := [];
      loading := true;
      editing := None;
      dialogOpen := false;
      form := EmptyForm;
    }

    /** Only the loading text shows until the first fetch ends. */
    predicate ShowsLoading()
      reads this
    {
      loading
    }

    method FetchPublications(ok: bool) returns (toasts: seq<Toast>)
      requires Valid()
      modifies this
      ensures Valid()
      ensures (Snapshot(), toasts) == Fetch(old(Snapshot()), ok)
      ensures !ShowsLoading()
    {
      if ok {
        publications := ByNewest(table);
        toasts := [];
      } else {
        toasts := [LoadFailed];
      }
      loading := false;
    }

    /** The refresh button. */
    method RefreshClicked(ok: bool) returns (toasts: seq<Toast>)
      requires Valid()
      modifies this
      ensures Valid()
      ensures (Snapshot(), toasts) == Fetch(old(Snapshot()), ok)
    {
      toasts := FetchPublications(ok);
    }

    method ResetForm()
      requires Valid()
      modifies this
      ensures Valid()
      ensures Snapshot() == Reset(old(Snapshot()))
    {
      form := EmptyForm;
      editing := None;
    }

    /** The add button. */
    method AddClicked()
      requires Valid()
      modifies this
      ensures Valid()
      ensures Snapshot() == OpenCreate(old(Snapshot()))
    {
      ResetForm();
      dialogOpen := true;
    }

    method HandleEdit(publication: Row<Publication>)
      requires Valid()
      modifies this
      ensures Valid()
      ensures Snapshot() == OpenEdit(old(Snapshot()), publication)
    {
      editing := Some(publication);
      form := FormOf(publication.data);
      dialogOpen := true;
    }

    /** A change in one of the form's inputs. */
    method SetForm(f: Form)
      requires Valid()
      modifies this
      ensures Valid()
      ensures Snapshot() == old(Snapshot()).(form := f)
    {
      form := f;
    }

    /** `onOpenChange` of the dialog, the cancel button (`false`) and the
        empty-list button (`true`, without a reset). */
    method SetDialogOpen(open: bool)
      requires Valid()
      modifies this
      ensures Valid()
      ensures Snapshot() == old(Snapshot()).(dialogOpen := open)
    {
      dialogOpen := open;
    }

    /** The insert or update of `handleSubmit`, once the form has passed its
        check: the edited row is rewritten, or a new row is added under the
        next key, and the keys stay unique. */
    method SaveForm(now: nat) returns (toast: Toast)
      requires Valid()
      modifies this
      ensures Valid()
      ensures Snapshot() == Save(old(Snapshot()), now)
      ensures toast == if old(editing).Some? then Updated else Created
    {
      ghost var s0 := Snapshot();
      SaveKeepsConsistent(s0, now);
      var p := Payload(form);
      if editing.Some? {
        table := Replace(table, editing.value.id, p);
        toast := Updated;
      } else {
        table := Insert(table, nextId, now, p);
        nextId := nextId + 1;
        toast := Created;
      }
      assert Snapshot() == Save(s0, now);
    }

    /** `resetForm(); setIsDialogOpen(false); fetchPublications();` after a save. */
    method CloseAndRefresh(fetchOk: bool) returns (toasts: seq<Toast>)
      requires Valid()
      modifies this
      ensures Valid()
      ensures (Snapshot(), toasts) == Closed(old(Snapshot()), fetchOk)
    {
      ResetForm();
      dialogOpen := false;
      toasts := FetchPublications(fetchOk);
    }

    /** The success path of `handleSubmit`, as `Saved` describes it. */
    method SaveAndRefresh(fetchOk: bool, now: nat) returns (toasts: seq<Toast>)
      requires Valid()
      modifies this
      ensures Valid()
      ensures (Snapshot(), toasts) == Saved(old(Snapshot()), fetchOk, now)
    {
      var saved := SaveForm(now);
      var more := CloseAndRefresh(fetchOk);
      toasts := [saved] + more;
    }

    method HandleSubmit(remoteOk: bool, fetchOk: bool, now: nat) returns (toasts: seq<Toast>)
      requires Valid()
      modifies this
      ensures Valid()
      ensures (Snapshot(), toasts) == Submit(old(Snapshot()), remoteOk, fetchOk, now)
    {
      if Trim(form.titleBg) == "" {
        return [MissingFields];
      }
      if !remoteOk {
        return [SaveFailed];
      }
      toasts := SaveAndRefresh(fetchOk, now);
    }

    method HandleDelete(id: nat, confirmed: bool, remoteOk: bool, fetchOk: bool) returns (toasts: seq<Toast>)
      requires Valid()
      modifies this
      ensures Valid()
      ensures (Snapshot(), toasts) == Delete(old(Snapshot()), id, confirmed, remoteOk, fetchOk)
    {
      if !confirmed {
        return [];
      }
      if !remoteOk {
        return [DeleteFailed];
      }
      RemoveKeepsKeys(table, id);
      table := Remove(table, id);
      var more := FetchPublications(fetchOk);
      toasts := [Deleted] + more;
    }
  }
}
