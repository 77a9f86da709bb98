/** The admin panel for the council's members and experts: one fetch ordered
    by category and position, split into the two lists; a dialog form with
    no client-side check; delete after confirmation. */
module MembersManagement {
  import opened Wrappers
  import opened Strings
  import opened Table
  import opened Toasts
  import opened Fields
  import Seqs
  import Sorting

  /** The editable columns of a stored member; `None` is a null column. */
  datatype Member = Member(
    nameBg: string,
    nameEn: Option<string>,
    positionBg: string,
    positionEn: Option<string>,
    biographyBg: Option<string>,
    biographyEn: Option<string>,
    photoUrl: Option<string>,
    category: string,
    orderIndex: int,
    active: bool)

  datatype Form = Form(
    nameBg: string,
    nameEn: string,
    positionBg: string,
    positionEn: string,
    biographyBg: string,
    biographyEn: string,
    photoUrl: string,
    category: string,
    orderIndex: int,
    active: bool)

  /** The form after `resetForm`: a council member, first position, active. */
  const EmptyForm := Form("", "", "", "", "", "", "", "member", 1, true)

  /** `handleEdit`: the form filled from a stored member, null columns as
      empty fields, position and activity as stored. */
  function FormOf(m: Member): Form {
    Form(m.nameBg, OrEmpty(m.nameEn), m.positionBg, OrEmpty(m.positionEn),
         OrEmpty(m.biographyBg), OrEmpty(m.biographyEn), OrEmpty(m.photoUrl),
         m.category, m.orderIndex, m.active)
  }

  /** `update(formData)` / `insert([formData])`: the form as it is. */
  function Payload(f: Form): Member {
    Member(f.nameBg, Some(f.nameEn), f.positionBg, Some(f.positionEn),
           Some(f.biographyBg), Some(f.biographyEn), Some(f.photoUrl),
           f.category, f.orderIndex, f.active)
  }

  /** No optional column is null. */
  predicate AllSet(m: Member) {
    m.nameEn.Some? && m.positionEn.Some? && m.biographyBg.Some? && m.biographyEn.Some? && m.photoUrl.Some?
  }

  /** The position input: `parseInt(text) || 1`, so a text that is not a
      number, and a zero, give 1. */
  function OrderIndexInput(text: string): (n: int)
    ensures n != 0
    ensures ParseInt(text).None? ==> n == 1
    ensures ParseInt(text).Some? && ParseInt(text).value != 0 ==> n == ParseInt(text).value
  {
    match ParseInt(text)
    case None => 1
    case Some(v) => if v == 0 then 1 else v
  }

  /** Saving a form and opening the saved member for edit gives the same form. */
  lemma {:induction false} FormOfPayload(f: Form)
    ensures FormOf(Payload(f)) == f
  {
  }

  /** Opening a member for edit and saving it untouched writes back the same
      columns, position and activity included, except that null optional
      columns become empty texts. */
  lemma {:induction false} SaveUntouchedEdit(m: Member)
    ensures AllSet(m) <==> Payload(FormOf(m)) == m
    ensures Payload(FormOf(m)).orderIndex == m.orderIndex && Payload(FormOf(m)).active == m.active
    ensures Payload(FormOf(m)).nameEn == (if m.nameEn.None? then Some("") else m.nameEn)
  {
    SomeOrEmpty(m.nameEn);
    SomeOrEmpty(m.positionEn);
    SomeOrEmpty(m.biographyBg);
    SomeOrEmpty(m.biographyEn);
    SomeOrEmpty(m.photoUrl);
  }

  /** A text with no digit in it, the empty text included, gives position 1. */
  lemma {:induction false} OrderIndexNoDigits(text: string)
    requires forall i :: 0 <= i < |text| ==> !IsDigit(text[i])
    ensures OrderIndexInput(text) == 1
  {
    ParseIntNoDigits(text);
  }

  /** A typed zero also gives position 1. */
  lemma {:induction false} OrderIndexZero()
    ensures OrderIndexInput("0") == 1
  {
    ParseIntOfDigits("0");
  }

  /** A typed positive position is kept as typed. */
  lemma {:induction false} OrderIndexOfNumeral(n: nat)
    requires n >= 1
    ensures OrderIndexInput(NatToString(n)) == n
  {
    ParseIntOfNumeral(n);
  }

  // ---------------------------------------------------------------------------
  // Fetch order and the two lists
  // ---------------------------------------------------------------------------

  /** `.order('category').order('order_index')`: by category, then by position. */
  predicate CategoryThenPosition(a: Row<Member>, b: Row<Member>) {
    if a.data.category == b.data.category then a.data.orderIndex <= b.data.orderIndex
    else LexLe(a.data.category, b.data.category)
  }

  function ByCategoryThenPosition(t: seq<Row<Member>>): seq<Row<Member>> {
    Sorting.SortBy(t, CategoryThenPosition)
  }

  /** `m => m.category === c`. */
  function InCategory(c: string): Row<Member> -> bool {
    (r: Row<Member>) => r.data.category == c
  }

  /** The fetched rows of category `c`, in fetch order. */
  function CategoryList(t: seq<Row<Member>>, c: string): seq<Row<Member>> {
    Seqs.Filter(ByCategoryThenPosition(t), InCategory(c))
  }

  lemma {:induction false} CategoryThenPositionIsOrder()
    ensures Sorting.Total(CategoryThenPosition) && Sorting.Transitive(CategoryThenPosition)
  {
    forall a: Row<Member>, b: Row<Member> ensures CategoryThenPosition(a, b) || CategoryThenPosition(b, a) {
      LexLeTotal(a.data.category, b.data.category);
    }
    forall a: Row<Member>, b: Row<Member>, c: Row<Member> | CategoryThenPosition(a, b) && CategoryThenPosition(b, c)
      ensures CategoryThenPosition(a, c)
    {
      var x, y, z := a.data.category, b.data.category, c.data.category;
      if x != y && y != z {
        LexLeTransitive(x, y, z);
        if x == z { LexLeAntisymmetric(x, y); }
      }
    }
  }

  /** A list taken from the fetched rows by one category is ordered by position. */
  lemma {:induction false} CategoryListOrdered(t: seq<Row<Member>>, c: string)
    ensures var l := Seqs.Filter(ByCategoryThenPosition(t), InCategory(c));
      forall i, j :: 0 <= i < j < |l| ==> l[i].data.orderIndex <= l[j].data.orderIndex
  {
    CategoryThenPositionIsOrder();
    var sorted := ByCategoryThenPosition(t);
    Sorting.SortBySorted(t, CategoryThenPosition);
    Sorting.FilterSorted(sorted, InCategory(c), CategoryThenPosition);
    var l := Seqs.Filter(sorted, InCategory(c));
    forall i, j | 0 <= i < j < |l| ensures l[i].data.orderIndex <= l[j].data.orderIndex {
      assert l[i] in l && l[j] in l;
      assert CategoryThenPosition(l[i], l[j]);
    }
  }

  /** A row is in the list of a category exactly when it is a stored row of
      that category. */
  lemma {:induction false} CategoryListMembership(t: seq<Row<Member>>, c: string, row: Row<Member>)
    ensures row in Seqs.Filter(ByCategoryThenPosition(t), InCategory(c)) <==> row in t && row.data.category == c
  {
    var sorted := ByCategoryThenPosition(t);
    Sorting.SortByPermutes(t, CategoryThenPosition);
    Seqs.FilterMembership(sorted, InCategory(c), row);
    assert row in sorted <==> row in t by {
      assert row in sorted <==> row in multiset(sorted);
      assert row in t <==> row in multiset(t);
    }
  }

  // ---------------------------------------------------------------------------
  // The panel's state and its transitions
  // ---------------------------------------------------------------------------

  /** The remote `members` table with the key its next insert gets, the two
      fetched lists, the loading flag, the member being edited, the dialog
      and the form. */
  datatype State = State(
    table: seq<Row<Member>>,
    nextId: nat,
    members: seq<Row<Member>>,
    experts: seq<Row<Member>>,
    loading: bool,
    editing: Option<Row<Member>>,
    dialogOpen: bool,
    form: Form)

  predicate Consistent(s: State) {
    UniqueIds(s.table) && IdBound(s.table) <= s.nextId
  }

  /** `fetchMembers`: on success the ordered rows are split into the council
      members and the experts; on failure the lists stay; either way loading
      ends. */
  function Fetch(s: State, ok: bool): (State, seq<Toast>) {
    if ok then (s.(members := CategoryList(s.table, "member"), experts := CategoryList(s.table, "expert"), loading := false), [])
    else (s.(loading := false), [LoadFailed])
  }

  /** `resetForm`: the default form, and no member being edited. */
  function Reset(s: State): State {
    s.(form := EmptyForm, editing := None)
  }

  /** The add button: it resets the form and, as the dialog's trigger, opens it. */
  function OpenCreate(s: State): State {
    Reset(s).(dialogOpen := true)
  }

  /** `handleEdit(member)`. */
  function OpenEdit(s: State, member: Row<Member>): State {
    s.(editing := Some(member), form := FormOf(member.data), dialogOpen := true)
  }

  /** The table after a successful save of the form. */
  function Save(s: State, now: nat): State {
    var p := Payload(s.form);
    if s.editing.Some? then s.(table := Replace(s.table, s.editing.value.id, p))
    else s.(table := Insert(s.table, s.nextId, now, p), nextId := s.nextId + 1)
  }

  /** Opening a stored row for edit and saving the form untouched leaves the
      table as it was, when the row holds no value the form cannot show. */
  lemma {:induction false} EditUntouchedKeepsTable(s: State, member: Row<Member>, now: nat)
    requires Consistent(s) && member in s.table && AllSet(member.data)
    ensures Save(OpenEdit(s, member), now).table == s.table
    ensures Save(OpenEdit(s, member), now).nextId == s.nextId
  {
    SaveUntouchedEdit(member.data);
    ReplaceWithSame(s.table, member);
  }

  /** The three calls that follow a successful save: the dialog closes, the
      form is reset and the list is refetched. */
  function Closed(s: State, fetchOk: bool): (State, seq<Toast>) {
    Fetch(Reset(s.(dialogOpen := false)), fetchOk)
  }

  /** What `handleSubmit` does once the insert or update has gone through:
      the save, the closing of the dialog, the reset of the form, the refetch
      and the end of loading. */
  function Saved(s: State, fetchOk: bool, now: nat): (State, seq<Toast>) {
    var closed := Closed(Save(s, now), fetchOk);
    (closed.0.(loading := false), [if s.editing.Some? then Updated else Created] + closed.1)
  }

  /** The loading text replaces the panel while loading with both lists
      empty. */
  predicate LoadingShown(s: State) {
    s.loading && s.members == [] && s.experts == []
  }

  /** The first step of `handleSubmit`: loading is raised for the request. */
  function BeginSubmit(s: State): State {
    s.(loading := true)
  }

  /** The rest of `handleSubmit`, once the request is answered: loading is
      lowered whatever the outcome. */
  function EndSubmit(s: State, remoteOk: bool, fetchOk: bool, now: nat): (State, seq<Toast>) {
    if !remoteOk then (s.(loading := false), [SaveFailed])
    else Saved(s, fetchOk, now)
  }

  /** `handleSubmit`: no field is checked; loading is raised for the request
      and lowered when it ends. */
  function Submit(s: State, remoteOk: bool, fetchOk: bool, now: nat): (State, seq<Toast>) {
    EndSubmit(BeginSubmit(s), remoteOk, fetchOk, now)
  }

  /** `handleDelete(id)`. */
  function Delete(s: State, id: nat, confirmed: bool, remoteOk: bool, fetchOk: bool): (State, seq<Toast>) {
    if !confirmed then (s, [])
    else if !remoteOk then (s, [DeleteFailed])
    else
      var fetched := Fetch(s.(table := Remove(s.table, id)), fetchOk);
      (fetched.0, [Deleted] + fetched.1)
  }

  // ---------------------------------------------------------------------------
  // Properties of the transitions
  // ---------------------------------------------------------------------------

  /** After a fetch the council list holds exactly the stored rows of
      category "member" and the expert list exactly those of category
      "expert", each ordered by position; rows of any other category are in
      neither. */
  lemma {:induction false} FetchSplitsByCategory(s: State, row: Row<Member>)
    ensures var t := Fetch(s, true).0;
      && (row in t.members <==> row in s.table && row.data.category == "member")
      && (row in t.experts <==> row in s.table && row.data.category == "expert")
    ensures var t := Fetch(s, true).0;
      && (forall i, j :: 0 <= i < j < |t.members| ==> t.members[i].data.orderIndex <= t.members[j].data.orderIndex)
      && (forall i, j :: 0 <= i < j < |t.experts| ==> t.experts[i].data.orderIndex <= t.experts[j].data.orderIndex)
    ensures var t := Fetch(s, true).0;
      && Seqs.IsSubsequence(t.members, ByCategoryThenPosition(s.table))
      && Seqs.IsSubsequence(t.experts, ByCategoryThenPosition(s.table))
  {
    Seqs.FilterIsSubsequence(ByCategoryThenPosition(s.table), InCategory("member"));
    Seqs.FilterIsSubsequence(ByCategoryThenPosition(s.table), InCategory("expert"));
    CategoryListMembership(s.table, "member", row);
    CategoryListMembership(s.table, "expert", row);
    CategoryListOrdered(s.table, "member");
    CategoryListOrdered(s.table, "expert");
  }

  /** The submit checks no field: with the request accepted, every form is
      saved, even one whose required inputs are blank. */
  lemma {:induction false} NoFieldCheck(s: State, fetchOk: bool, now: nat)
    ensures Submit(s, true, fetchOk, now).0.table == Save(s, now).table
    ensures s.editing.None? ==> Submit(s, true, fetchOk, now).0.table == s.table + [Row(s.nextId, now, Payload(s.form))]
  {
  }

  /** Loading is off when a submit ends, whether it succeeded or failed, and
      a refused save keeps the form, the member being edited and the dialog. */
  lemma {:induction false} SubmitEndsLoading(s: State, remoteOk: bool, fetchOk: bool, now: nat)
    ensures !Submit(s, remoteOk, fetchOk, now).0.loading
    ensures Submit(s, false, fetchOk, now).0 == s.(loading := false)
  {
  }

  /** While the request is in flight, loading is on, so the submit button is
      disabled; the loading text replaces the panel exactly when both lists
      are empty; and nothing else has changed yet. */
  lemma {:induction false} SubmitInFlight(s: State)
    ensures BeginSubmit(s).loading
    ensures LoadingShown(BeginSubmit(s)) <==> s.members == [] && s.experts == []
    ensures BeginSubmit(s).(loading := s.loading) == s
  {
  }

  /** `resetForm` restores the defaults and is idempotent. */
  lemma {:induction false} ResetDefaults(s: State)
    ensures var f := Reset(s).form;
      && f.nameBg == "" && f.nameEn == "" && f.positionBg == "" && f.positionEn == ""
      && f.biographyBg == "" && f.biographyEn == "" && f.photoUrl == ""
      && f.category == "member" && f.orderIndex == 1 && f.active
    ensures Reset(s).editing.None?
    ensures Reset(Reset(s)) == Reset(s)
  {
  }

  /** Saving an edit overwrites only the row with the edited key. */
  lemma {:induction false} SaveEditTouchesOneRow(s: State, fetchOk: bool, now: nat)
    requires s.editing.Some?
    ensures var t := Submit(s, true, fetchOk, now).0;
      && |t.table| == |s.table|
      && (forall i :: 0 <= i < |s.table| && s.table[i].id != s.editing.value.id ==> t.table[i] == s.table[i])
      && (forall i :: 0 <= i < |s.table| && s.table[i].id == s.editing.value.id ==>
            t.table[i] == s.table[i].(data := Payload(s.form)))
      && !t.dialogOpen && t.form == EmptyForm && t.editing.None?
  {
  }

  /** Without confirmation nothing happens; with it, the row with that key
      goes and every other row stays, in order. */
  lemma {:induction false} DeleteOnlyThatRow(s: State, id: nat, remoteOk: bool, fetchOk: bool)
    ensures Delete(s, id, false, remoteOk, fetchOk) == (s, [])
    ensures remoteOk ==> forall row :: row in Delete(s, id, true, remoteOk, fetchOk).0.table <==> row in s.table && row.id != id
    ensures remoteOk ==> Seqs.IsSubsequence(Delete(s, id, true, remoteOk, fetchOk).0.table, s.table)
  {
    if remoteOk {
      RemoveKeepsOrder(s.table, id);
      forall row ensures row in Delete(s, id, true, remoteOk, fetchOk).0.table <==> row in s.table && row.id != id {
        RemoveMembership(s.table, id, row);
      }
    }
  }

  lemma {:induction false} DialogKeepsConsistent(s: State, ok: bool, member: Row<Member>)
    requires Consistent(s)
    ensures Consistent(Fetch(s, ok).0)
    ensures Consistent(Reset(s)) && Consistent(OpenCreate(s)) && Consistent(OpenEdit(s, member))
  {
  }

  /** A successful save keeps the table's keys unique and the next key unused. */
  lemma {:induction false} SaveKeepsConsistent(s: State, now: nat)
    requires Consistent(s)
    ensures Consistent(Save(s, now))
  {
    var p, saved := Payload(s.form), Save(s, now);
    if s.editing.Some? {
      ReplaceKeepsKeys(s.table, s.editing.value.id, p);
      assert saved.table == Replace(s.table, s.editing.value.id, p) && saved.nextId == s.nextId;
    } else {
      InsertFresh(s.table, s.nextId, now, p);
      assert saved.table == Insert(s.table, s.nextId, now, p) && saved.nextId == s.nextId + 1;
    }
  }

  /** A submit keeps the table's keys unique and the next key unused. */
  lemma {:induction false} SubmitKeepsConsistent(s: State, remoteOk: bool, fetchOk: bool, now: nat)
    requires Consistent(s)
    ensures Consistent(Submit(s, remoteOk, fetchOk, now).0)
  {
    SaveKeepsConsistent(s, now);
    var saved := Save(s, now);
    var r := Submit(s, remoteOk, fetchOk, now).0;
    assert (r.table, r.nextId) == (saved.table, saved.nextId) || (r.table, r.nextId) == (s.table, s.nextId);
  }

  lemma {:induction false} DeleteKeepsConsistent(s: State, id: nat, confirmed: bool, remoteOk: bool, fetchOk: bool)
    requires Consistent(s)
    ensures Consistent(Delete(s, id, confirmed, remoteOk, fetchOk).0)
  {
    RemoveKeepsKeys(s.table, id);
  }

  // ---------------------------------------------------------------------------
  // The component
  // ---------------------------------------------------------------------------

  class Panel {
    var table: seq<Row<Member>>
    var nextId: nat
    var members: seq<Row<Member>>
    var experts: seq<Row<Member>>
    var loading: bool
    var editing: Option<Row<Member>>
    var dialogOpen: bool
    var form: Form

    function Snapshot(): State
      reads this
    {
      State(table, nextId, members, experts, loading, editing, dialogOpen, form)
    }

    /** `Consistent` of the current state, stated on the two fields it reads. */
    predicate Valid()
      reads this
    {
      UniqueIds(table) && IdBound(table) <= nextId
    }

    constructor (initial: seq<Row<Member>>)
      requires UniqueIds(initial)
      ensures Valid()
      ensures Snapshot() == State(initial, IdBound(initial), [], [], true, None, false, EmptyForm)
      ensures ShowsLoading()
    {
      table := initial;
      nextId := IdBound(initial);
      members := [];
      experts := [];
      loading := true;
      editing := None;
      dialogOpen := false;
      form := EmptyForm;
    }

    /** The loading gate of the panel. */
    predicate ShowsLoading()
      reads this
    {
      LoadingShown(Snapshot())
    }

    method FetchMembers(ok: bool) returns (toasts: seq<Toast>)
      requires Valid()
      modifies this
      ensures Valid()
      ensures (Snapshot(), toasts) == Fetch(old(Snapshot()), ok)
      ensures !ShowsLoading()
    {
      if ok {
        members := CategoryList(table, "member");
        experts := CategoryList(table, "expert");
        toasts := [];
      } else {
        toasts := [LoadFailed];
      }
      loading := false;
    }

    method ResetForm()
      requires Valid()
      modifies this
      ensures Valid()
      ensures Snapshot() == Reset(old(Snapshot()))
    {
      form := EmptyForm;
      editing := None;
    }

    /** The add button. */
    method AddClicked()
      requires Valid()
      modifies this
      ensures Valid()
      ensures Snapshot() == OpenCreate(old(Snapshot()))
    {
      ResetForm();
      dialogOpen := true;
    }

    method HandleEdit(member: Row<Member>)
      requires Valid()
      modifies this
      ensures Valid()
      ensures Snapshot() == OpenEdit(old(Snapshot()), member)
    {
      editing := Some(member);
      form := FormOf(member.data);
      dialogOpen := true;
    }

    /** A change in one of the text inputs, the category select or the
        activity box. */
    method SetForm(f: Form)
      requires Valid()
      modifies this
      ensures Valid()
      ensures Snapshot() == old(Snapshot()).(form := f)
    {
      form := f;
    }

    /** A change in the position input. */
    method SetOrderIndex(text: string)
      requires Valid()
      modifies this
      ensures Valid()
      ensures Snapshot() == old(Snapshot()).(form := old(form).(orderIndex := OrderIndexInput(text)))
    {
      form := form.(orderIndex := OrderIndexInput(text));
    }

    /** `onOpenChange` of the dialog, and the cancel button with `false`. */
    method SetDialogOpen(open: bool)
      requires Valid()
      modifies this
      ensures Valid()
      ensures Snapshot() == old(Snapshot()).(dialogOpen := open)
    {
      dialogOpen := open;
    }

    /** The insert or update of `handleSubmit`: the edited row is rewritten, or a new row is added under the
        next key, and the keys stay unique. */
    method SaveForm(now: nat) returns (toast: Toast)
      requires Valid()
      modifies this
      ensures Valid()
      ensures Snapshot() == Save(old(Snapshot()), now)
      ensures toast == if old(editing).Some? then Updated else Created
    {
      ghost var s0 := Snapshot();
      SaveKeepsConsistent(s0, now);
      var p := Payload(form);
      if editing.Some? {
        table := Replace(table, editing.value.id, p);
        toast := Updated;
      } else {
        table := Insert(table, nextId, now, p);
        nextId := nextId + 1;
        toast := Created;
      }
      assert Snapshot() == Save(s0, now);
    }

    /** `setIsDialogOpen(false); resetForm(); fetchMembers();` after a save. */
    method CloseAndRefresh(fetchOk: bool) returns (toasts: seq<Toast>)
      requires Valid()
      modifies this
      ensures Valid()
      ensures (Snapshot(), toasts) == Closed(old(Snapshot()), fetchOk)
    {
      dialogOpen := false;
      ResetForm();
      toasts := FetchMembers(fetchOk);
    }

    /** What `handleSubmit` does once the insert or update has gone through. */
    method SaveAndRefresh(fetchOk: bool, now: nat) returns (toasts: seq<Toast>)
      requires Valid()
      modifies this
      ensures Valid()
      ensures (Snapshot(), toasts) == Saved(old(Snapshot()), fetchOk, now)
    {
      toasts := SaveAndClose(fetchOk, now);
      loading := false;
    }

    /** The save followed by the three calls after it, before loading ends. */
    method SaveAndClose(fetchOk: bool, now: nat) returns (toasts: seq<Toast>)
      requires Valid()
      modifies this
      ensures Valid()
      ensures Snapshot() == Closed(Save(old(Snapshot()), now), fetchOk).0
      ensures toasts == [if old(editing).Some? then Updated else Created] + Closed(Save(old(Snapshot()), now), fetchOk).1
    {
      var saved := SaveForm(now);
      var more := CloseAndRefresh(fetchOk);
      toasts := [saved] + more;
    }

    /** `setLoading(true)` at the start of `handleSubmit`. */
    method StartSubmit()
      requires Valid()
      modifies this
      ensures Valid()
      ensures Snapshot() == BeginSubmit(old(Snapshot()))
      ensures loading
    {
      loading := true;
    }

    /** The rest of `handleSubmit`, entered with the request in flight. */
    method FinishSubmit(remoteOk: bool, fetchOk: bool, now: nat) returns (toasts: seq<Toast>)
      requires Valid() && loading
      modifies this
      ensures Valid()
      ensures (Snapshot(), toasts) == EndSubmit(old(Snapshot()), remoteOk, fetchOk, now)
    {
      if !remoteOk {
        loading := false;
        return [SaveFailed];
      }
      toasts := SaveAndRefresh(fetchOk, now);
    }

    method HandleSubmit(remoteOk: bool, fetchOk: bool, now: nat) returns (toasts: seq<Toast>)
      requires Valid()
      modifies this
      ensures Valid()
      ensures (Snapshot(), toasts) == Submit(old(Snapshot()), remoteOk, fetchOk, now)
    {
      StartSubmit();
      toasts := FinishSubmit(remoteOk, fetchOk, now);
    }

    method HandleDelete(id: nat, confirmed: bool, remoteOk: bool, fetchOk: bool) returns (toasts: seq<Toast>)
      requires Valid()
      modifies this
      ensures Valid()
      ensures (Snapshot(), toasts) == Delete(old(Snapshot()), id, confirmed, remoteOk, fetchOk)
    {
      if !confirmed {
        return [];
      }
      if !remoteOk {
        return [DeleteFailed];
      }
      RemoveKeepsKeys(table, id);
      table := Remove(table, id);
      var more := FetchMembers(fetchOk);
      toasts := [Deleted] + more;
    }
  }
}
