/** The admin panel for reports: a list fetched newest first, a dialog form
    for creating and editing a report (with keyword lists typed as
    comma-separated text), delete after confirmation, and a switch that
    publishes or hides a report. */
module ReportsManagement {
  import opened Wrappers
  import opened Strings
  import opened Table
  import Keywords
  import Seqs
  import opened Toasts
  import opened Fields

  /** The editable columns of a stored report; `None` is a null column. */
  datatype Report = Report(
    titleBg: string,
    titleEn: Option<string>,
    descriptionBg: Option<string>,
    descriptionEn: Option<string>,
    reportType: string,
    keywordsBg: Option<seq<string>>,
    keywordsEn: Option<seq<string>>,
    documentUrl: Option<string>,
    published: bool)

  /** The dialog's form: every text column as a text field, the keyword
      lists as comma-separated text. */
  datatype Form = Form(
    titleBg: string,
    titleEn: string,
    descriptionBg: string,
    descriptionEn: string,
    reportType: string,
    keywordsBg: string,
    keywordsEn: string,
    documentUrl: string,
    published: bool)

  /** The first entry of the report-type select. */
  const DefaultType := "Доклад"

  /** The form after `resetForm`: empty texts, the default type, a draft. */
  const EmptyForm := Form("", "", "", "", DefaultType, "", "", "", false)

  /** `openEditDialog`: the form filled from a stored report, null columns
      as empty fields and keyword lists joined with ", ". */
  function FormOf(r: Report): Form {
    Form(r.titleBg, OrEmpty(r.titleEn), OrEmpty(r.descriptionBg), OrEmpty(r.descriptionEn),
         r.reportType, Keywords.Show(r.keywordsBg), Keywords.Show(r.keywordsEn),
         OrEmpty(r.documentUrl), r.published)
  }

  /** The submit-time payload: empty optional fields become null, keyword
      text is parsed into a list, the rest is copied. */
  function Payload(f: Form): (r: Report)
    ensures r.titleBg == f.titleBg && r.reportType == f.reportType && r.published == f.published
    ensures r.titleEn.None? <==> f.titleEn == ""
    ensures r.descriptionBg.None? <==> f.descriptionBg == ""
    ensures r.descriptionEn.None? <==> f.descriptionEn == ""
    ensures r.documentUrl.None? <==> f.documentUrl == ""
    ensures r.keywordsBg.None? <==> f.keywordsBg == ""
    ensures r.keywordsEn.None? <==> f.keywordsEn == ""
    ensures f.titleEn != "" ==> r.titleEn == Some(f.titleEn)
    ensures f.descriptionBg != "" ==> r.descriptionBg == Some(f.descriptionBg)
    ensures f.descriptionEn != "" ==> r.descriptionEn == Some(f.descriptionEn)
    ensures f.documentUrl != "" ==> r.documentUrl == Some(f.documentUrl)
    ensures r.keywordsBg == Keywords.Parse(f.keywordsBg) && r.keywordsEn == Keywords.Parse(f.keywordsEn)
  {
    Report(f.titleBg, OrNull(f.titleEn), OrNull(f.descriptionBg), OrNull(f.descriptionEn),
           f.reportType, Keywords.Parse(f.keywordsBg), Keywords.Parse(f.keywordsEn),
           OrNull(f.documentUrl), f.published)
  }

  /** The client-side check: the Bulgarian title is not blank. */
  predicate CanSubmit(f: Form) {
    Trim(f.titleBg) != ""
  }

  /** A report that survives an edit-and-save without changes. */
  predicate IsCanonical(r: Report) {
    IsCanonicalText(r.titleEn) && IsCanonicalText(r.descriptionBg) && IsCanonicalText(r.descriptionEn)
    && IsCanonicalText(r.documentUrl)
    && Keywords.IsCanonical(r.keywordsBg) && Keywords.IsCanonical(r.keywordsEn)
  }

  /** Opening a report for edit and saving it untouched writes back the same
      columns when the report is canonical; otherwise only empty texts and
      empty keyword lists turn into nulls. */
  lemma {:induction false} SaveUntouchedEdit(r: Report)
    ensures IsCanonical(r) ==> Payload(FormOf(r)) == r
    ensures Payload(FormOf(r)).titleEn == (if r.titleEn == Some("") then None else r.titleEn)
    ensures r.keywordsBg == Some([]) ==> Payload(FormOf(r)).keywordsBg.None?
  {
    Keywords.EditRoundTrip(r.keywordsBg);
    Keywords.EditRoundTrip(r.keywordsEn);
    OrNullOrEmpty(r.titleEn);
    OrNullOrEmpty(r.descriptionBg);
    OrNullOrEmpty(r.descriptionEn);
    OrNullOrEmpty(r.documentUrl);
  }

  // ---------------------------------------------------------------------------
  // The panel's state and its transitions
  // ---------------------------------------------------------------------------

  /** Everything the panel holds: the remote `reports` table with the key its
      next insert gets, the fetched list, the loading flag, the report being
      edited, whether the dialog is open, and the form. */
  datatype State = State(
    table: seq<Row<Report>>,
    nextId: nat,
    reports: seq<Row<Report>>,
    loading: bool,
    editing: Option<Row<Report>>,
    dialogOpen: bool,
    form: Form)

  /** The remote table has a primary key, and the next key is unused. */
  predicate Consistent(s: State) {
    UniqueIds(s.table) && IdBound(s.table) <= s.nextId
  }

  /** `fetchReports`: on success the list is the table newest first; on
      failure it stays as it was; either way loading ends. */
  function Fetch(s: State, ok: bool): (State, seq<Toast>) {
    if ok then (s.(reports := ByNewest(s.table), loading := false), [])
    else (s.(loading := false), [LoadFailed])
  }

  /** `resetForm`: the empty form, and no report being edited. */
  function Reset(s: State): State {
    s.(form := EmptyForm, editing := None)
  }

  /** `openCreateDialog`. */
  function OpenCreate(s: State): State {
    Reset(s).(dialogOpen := true)
  }

  /** `openEditDialog(report)`. */
  function OpenEdit(s: State, report: Row<Report>): State {
    s.(editing := Some(report), form := FormOf(report.data), dialogOpen := true)
  }

  /** The table after a successful save of the form: the edited row
      rewritten, or a new row under the next key. */
  function Save(s: State, now: nat): State {
    var p := Payload(s.form);
    if s.editing.Some? then s.(table := Replace(s.table, s.editing.value.id, p))
    else s.(table := Insert(s.table, s.nextId, now, p), nextId := s.nextId + 1)
  }

  /** Opening a stored row for edit and saving the form untouched leaves the
      table as it was, when the row holds no value the form cannot show. */
  lemma {:induction false} EditUntouchedKeepsTable(s: State, report: Row<Report>, now: nat)
    requires Consistent(s) && report in s.table && IsCanonical(report.data)
    ensures Save(OpenEdit(s, report), now).table == s.table
    ensures Save(OpenEdit(s, report), now).nextId == s.nextId
  {
    SaveUntouchedEdit(report.data);
    ReplaceWithSame(s.table, report);
  }

  /** The three calls that follow a successful save: the dialog closes, the
      form is reset and the list is refetched. */
  function Closed(s: State, fetchOk: bool): (State, seq<Toast>) {
    Fetch(Reset(s.(dialogOpen := false)), fetchOk)
  }

  /** What `handleSubmit` does once the form has passed its check and the
      insert or update has gone through: the save, the reset of the form,
      the closing of the dialog and the refetch. */
  function Saved(s: State, fetchOk: bool, now: nat): (State, seq<Toast>) {
    var closed := Closed(Save(s, now), fetchOk);
    (closed.0, [if s.editing.Some? then Updated else Created] + closed.1)
  }

  /** `handleSubmit`, with the outcome of the insert or update and of the
      refetch after it; `now` is the creation stamp a new row gets. */
  function Submit(s: State, remoteOk: bool, fetchOk: bool, now: nat): (State, seq<Toast>) {
    if !CanSubmit(s.form) then (s, [MissingFields])
    else if !remoteOk then (s, [SaveFailed])
    else Saved(s, fetchOk, now)
  }

  /** `handleDelete(id)`, with the answer to the confirmation and the outcome
      of the delete and of the refetch. */
  function Delete(s: State, id: nat, confirmed: bool, remoteOk: bool, fetchOk: bool): (State, seq<Toast>) {
    if !confirmed then (s, [])
    else if !remoteOk then (s, [DeleteFailed])
    else
      var (fetched, more) := Fetch(s.(table := Remove(s.table, id)), fetchOk);
      (fetched, [Deleted] + more)
  }

  /** The column change of `update({ published: !published })`. */
  function SetPublished(value: bool): Report -> Report {
    (r: Report) => r.(published := value)
  }

  /** `togglePublished(id, published)`: the row gets the opposite of the
      `published` value the list showed. */
  function Toggle(s: State, id: nat, published: bool, remoteOk: bool, fetchOk: bool): (State, seq<Toast>) {
    if !remoteOk then (s, [StatusFailed])
    else
      var (fetched, more) := Fetch(s.(table := Update(s.table, id, SetPublished(!published))), fetchOk);
      (fetched, [if !published then Published else Hidden] + more)
  }

  // ---------------------------------------------------------------------------
  // Properties of the transitions
  // ---------------------------------------------------------------------------

  /** A submit whose Bulgarian title is blank changes nothing: no request,
      and the form, the dialog and the table stay as they were. */
  lemma {:induction false} BlankTitleChangesNothing(s: State, remoteOk: bool, fetchOk: bool, now: nat)
    requires Trim(s.form.titleBg) == ""
    ensures Submit(s, remoteOk, fetchOk, now) == (s, [MissingFields])
  {
  }

  /** A refused save keeps the form, the report being edited and the open
      dialog, so the user can retry. */
  lemma {:induction false} FailedSaveKeepsForm(s: State, fetchOk: bool, now: nat)
    ensures Submit(s, false, fetchOk, now).0 == s
  {
  }

  /** Saving an edit rewrites only the row with the edited key, with the
      payload of the form; then the dialog closes, the form resets and the
      list is refetched. */
  lemma {:induction false} SaveEditTouchesOneRow(s: State, fetchOk: bool, now: nat)
    requires CanSubmit(s.form) && s.editing.Some?
    ensures var t := Submit(s, true, fetchOk, now).0;
      && |t.table| == |s.table|
      && (forall i :: 0 <= i < |s.table| && s.table[i].id != s.editing.value.id ==> t.table[i] == s.table[i])
      && (forall i :: 0 <= i < |s.table| && s.table[i].id == s.editing.value.id ==>
            t.table[i] == s.table[i].(data := Payload(s.form)))
      && !t.dialogOpen && t.form == EmptyForm && t.editing.None? && !t.loading
      && (fetchOk ==> t.reports == ByNewest(t.table))
  {
  }

  /** Saving a new report adds exactly one row, under a fresh key, holding
      the payload of the form. */
  lemma {:induction false} SaveNewAddsOneRow(s: State, fetchOk: bool, now: nat)
    requires Consistent(s) && CanSubmit(s.form) && s.editing.None?
    ensures var t := Submit(s, true, fetchOk, now).0;
      && t.table == s.table + [Row(s.nextId, now, Payload(s.form))]
      && Find(t.table, s.nextId) == Some(Row(s.nextId, now, Payload(s.form)))
      && !t.dialogOpen && t.form == EmptyForm && t.editing.None?
  {
    InsertFresh(s.table, s.nextId, now, Payload(s.form));
  }

  /** Without confirmation nothing happens; with it, the row with that key
      goes and every other row stays, in order. */
  lemma {:induction false} DeleteOnlyThatRow(s: State, id: nat, remoteOk: bool, fetchOk: bool)
    ensures Delete(s, id, false, remoteOk, fetchOk) == (s, [])
    ensures remoteOk ==> forall row :: row in Delete(s, id, true, remoteOk, fetchOk).0.table <==> row in s.table && row.id != id
    ensures remoteOk ==> Seqs.IsSubsequence(Delete(s, id, true, remoteOk, fetchOk).0.table, s.table)
  {
    if remoteOk {
      RemoveKeepsOrder(s.table, id);
      forall row ensures row in Delete(s, id, true, remoteOk, fetchOk).0.table <==> row in s.table && row.id != id {
        RemoveMembership(s.table, id, row);
      }
    }
  }

  /** The publish switch changes only the `published` column of the row with
      that key, to the opposite of the value shown. */
  lemma {:induction false} ToggleOnlyPublished(s: State, id: nat, published: bool, fetchOk: bool)
    ensures var t := Toggle(s, id, published, true, fetchOk).0;
      && |t.table| == |s.table|
      && (forall i :: 0 <= i < |s.table| && s.table[i].id != id ==> t.table[i] == s.table[i])
      && (forall i :: 0 <= i < |s.table| && s.table[i].id == id ==>
            t.table[i] == s.table[i].(data := s.table[i].data.(published := !published)))
      && t.form == s.form && t.editing == s.editing && t.dialogOpen == s.dialogOpen
  {
  }

  /** `resetForm` empties every text field, selects the first report type,
      makes the form a draft and ends editing; resetting twice is resetting
      once. */
  lemma {:induction false} ResetDefaults(s: State)
    ensures var f := Reset(s).form;
      && f.titleBg == "" && f.titleEn == "" && f.descriptionBg == "" && f.descriptionEn == ""
      && f.keywordsBg == "" && f.keywordsEn == "" && f.documentUrl == ""
      && f.reportType == "Доклад" && !f.published
    ensures Reset(s).editing.None?
    ensures Reset(Reset(s)) == Reset(s)
  {
  }

  /** A fetch lists every row of the table once, drafts included, newest first. */
  lemma {:induction false} FetchListsEveryRow(s: State)
    ensures multiset(Fetch(s, true).0.reports) == multiset(s.table)
    ensures var l := Fetch(s, true).0.reports;
      forall i, j :: 0 <= i < j < |l| ==> l[i].createdAt >= l[j].createdAt
  {
    ByNewestSorted(s.table);
  }

  /** Fetching, resetting and opening the dialog leave the table alone. */
  lemma {:induction false} DialogKeepsConsistent(s: State, ok: bool, report: Row<Report>)
    requires Consistent(s)
    ensures Consistent(Fetch(s, ok).0)
    ensures Consistent(Reset(s)) && Consistent(OpenCreate(s)) && Consistent(OpenEdit(s, report))
  {
  }

  /** A successful save keeps the table's keys unique and the next key unused. */
  lemma {:induction false} SaveKeepsConsistent(s: State, now: nat)
    requires Consistent(s)
    ensures Consistent(Save(s, now))
  {
    var p, saved := Payload(s.form), Save(s, now);
    if s.editing.Some? {
      ReplaceKeepsKeys(s.table, s.editing.value.id, p);
      assert saved.table == Replace(s.table, s.editing.value.id, p) && saved.nextId == s.nextId;
    } else {
      InsertFresh(s.table, s.nextId, now, p);
      assert saved.table == Insert(s.table, s.nextId, now, p) && saved.nextId == s.nextId + 1;
    }
  }

  /** A submit keeps the table's keys unique and the next key unused. */
  lemma {:induction false} SubmitKeepsConsistent(s: State, remoteOk: bool, fetchOk: bool, now: nat)
    requires Consistent(s)
    ensures Consistent(Submit(s, remoteOk, fetchOk, now).0)
  {
    SaveKeepsConsistent(s, now);
    var saved := Save(s, now);
    var r := Submit(s, remoteOk, fetchOk, now).0;
    assert (r.table, r.nextId) == (saved.table, saved.nextId) || (r.table, r.nextId) == (s.table, s.nextId);
  }

  /** A delete and a publish toggle keep the table's keys unique and the next
      key unused. */
  lemma {:induction false} DeleteToggleKeepConsistent(s: State, id: nat, b: bool, remoteOk: bool, fetchOk: bool)
    requires Consistent(s)
    ensures Consistent(Delete(s, id, b, remoteOk, fetchOk).0)
    ensures Consistent(Toggle(s, id, b, remoteOk, fetchOk).0)
  {
    RemoveKeepsKeys(s.table, id);
    UpdateKeepsKeys(s.table, id, SetPublished(!b));
  }

  // ---------------------------------------------------------------------------
  // The component
  // ---------------------------------------------------------------------------

  /** The mounted panel, its state cells updated by its handlers. */
  class Panel {
    var table: seq<Row<Report>>
    var nextId: nat
    var reports: seq<Row<Report>>
    var loading: bool
    var editing: Option<Row<Report>>
    var dialogOpen: bool
    var form: Form

    function Snapshot(): State
      reads this
    {
      State(table, nextId, reports, loading, editing, dialogOpen, form)
    }

    /** `Consistent` of the current state, stated on the two fields it reads. */
    predicate Valid()
      reads this
    {
      UniqueIds(table) && IdBound(table) <= nextId
    }

    /** The first render, before the mount-time fetch: an empty list, the
        loading view and a closed dialog with an empty form. */
    constructor (initial: seq<Row<Report>>)
      requires UniqueIds(initial)
      ensures Valid()
      ensures Snapshot() == State(initial, IdBound(initial), [], true, None, false, EmptyForm)
      ensures ShowsLoading()
    {
      table := initial;
      nextId := IdBound(initial);
      reports := [];
      loading := true;
      editing := None;
      dialogOpen := false;
      form := EmptyForm;
    }

    /** The panel shows only the loading text until the first fetch ends. */
    predicate ShowsLoading()
      reads this
    {
      loading
    }

    method FetchReports(ok: bool) returns (toasts: seq<Toast>)
      requires Valid()
      modifies this
      ensures Valid()
      ensures (Snapshot(), toasts) == Fetch(old(Snapshot()), ok)
      ensures !ShowsLoading()
    {
      if ok {
        reports := ByNewest(table);
        toasts := [];
      } else {
        toasts := [LoadFailed];
      }
      loading := false;
    }

    method ResetForm()
      requires Valid()
      modifies this
      ensures Valid()
      ensures Snapshot() == Reset(old(Snapshot()))
    {
      form := EmptyForm;
      editing := None;
    }

    method OpenCreateDialog()
      requires Valid()
      modifies this
      ensures Valid()
      ensures Snapshot() == OpenCreate(old(Snapshot()))
    {
      ResetForm();
      dialogOpen := true;
    }

    method OpenEditDialog(report: Row<Report>)
      requires Valid()
      modifies this
      ensures Valid()
      ensures Snapshot() == OpenEdit(old(Snapshot()), report)
    {
      editing := Some(report);
      form := FormOf(report.data);
      dialogOpen := true;
    }

    /** A change in one of the form's inputs: the form becomes the edited copy. */
    method SetForm(f: Form)
      requires Valid()
      modifies this
      ensures Valid()
      ensures Snapshot() == old(Snapshot()).(form := f)
    {
      form := f;
    }

    /** `onOpenChange` of the dialog, and the cancel button with `false`. */
    method SetDialogOpen(open: bool)
      requires Valid()
      modifies this
      ensures Valid()
      ensures Snapshot() == old(Snapshot()).(dialogOpen := open)
    {
      dialogOpen := open;
    }

    /** The insert or update of `handleSubmit`, once the form has passed its
        check: the edited row is rewritten, or a new row is added under the
        next key, and the keys stay unique. */
    method SaveForm(now: nat) returns (toast: Toast)
      requires Valid()
      modifies this
      ensures Valid()
      ensures Snapshot() == Save(old(Snapshot()), now)
      ensures toast == if old(editing).Some? then Updated else Created
    {
      if editing.Some? {
        UpdateRow();
        toast := Updated;
      } else {
        InsertRow(now);
        toast := Created;
      }
    }

    /** `update(reportData).eq('id', editingReport.id)`. */
    method UpdateRow()
      requires Valid() && editing.Some?
      modifies this
      ensures Valid()
      ensures Snapshot() == old(Snapshot()).(table := Replace(old(table), old(editing).value.id, Payload(old(form))))
    {
      var p := Payload(form);
      ReplaceKeepsKeys(table, editing.value.id, p);
      table := Replace(table, editing.value.id, p);
    }

    /** `insert([reportData])`, the new row getting the next key. */
    method InsertRow(now: nat)
      requires Valid()
      modifies this
      ensures Valid()
      ensures Snapshot() == old(Snapshot()).(table := Insert(old(table), old(nextId), now, Payload(old(form))), nextId := old(nextId) + 1)
    {
      var p := Payload(form);
      InsertKeepsKeys(table, nextId, now, p);
      table := Insert(table, nextId, now, p);
      nextId := nextId + 1;
    }

    /** `setIsDialogOpen(false); resetForm(); fetchReports();` after a save. */
    method CloseAndRefresh(fetchOk: bool) returns (toasts: seq<Toast>)
      requires Valid()
      modifies this
      ensures Valid()
      ensures (Snapshot(), toasts) == Closed(old(Snapshot()), fetchOk)
    {
      dialogOpen := false;
      ResetForm();
      toasts := FetchReports(fetchOk);
    }

    /** The success path of `handleSubmit`, as `Saved` describes it. */
    method SaveAndRefresh(fetchOk: bool, now: nat) returns (toasts: seq<Toast>)
      requires Valid()
      modifies this
      ensures Valid()
      ensures (Snapshot(), toasts) == Saved(old(Snapshot()), fetchOk, now)
    {
      var saved := SaveForm(now);
      var more := CloseAndRefresh(fetchOk);
      toasts := [saved] + more;
    }

    method HandleSubmit(remoteOk: bool, fetchOk: bool, now: nat) returns (toasts: seq<Toast>)
      requires Valid()
      modifies this
      ensures Valid()
      ensures (Snapshot(), toasts) == Submit(old(Snapshot()), remoteOk, fetchOk, now)
    {
      if Trim(form.titleBg) == "" {
        return [MissingFields];
      }
      if !remoteOk {
        return [SaveFailed];
      }
      toasts := SaveAndRefresh(fetchOk, now);
    }

    method HandleDelete(id: nat, confirmed: bool, remoteOk: bool, fetchOk: bool) returns (toasts: seq<Toast>)
      requires Valid()
      modifies this
      ensures Valid()
      ensures (Snapshot(), toasts) == Delete(old(Snapshot()), id, confirmed, remoteOk, fetchOk)
    {
      if !confirmed {
        return [];
      }
      if !remoteOk {
        return [DeleteFailed];
      }
      RemoveKeepsKeys(table, id);
      table := Remove(table, id);
      var more := FetchReports(fetchOk);
      toasts := [Deleted] + more;
    }

    method TogglePublished(id: nat, published: bool, remoteOk: bool, fetchOk: bool) returns (toasts: seq<Toast>)
      requires Valid()
      modifies this
      ensures Valid()
      ensures (Snapshot(), toasts) == Toggle(old(Snapshot()), id, published, remoteOk, fetchOk)
    {
      if !remoteOk {
        return [StatusFailed];
      }
      UpdateKeepsKeys(table, id, SetPublished(!published));
      table := Update(table, id, SetPublished(!published));
      var more := FetchReports(fetchOk);
      toasts := [if !published then Published else Hidden] + more;
    }
  }
}
