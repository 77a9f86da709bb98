/** An in-memory stand-in for one table of the hosted database, with the
    four requests the admin panels send it: `select` ordered by creation
    time, `insert([row])`, `update(patch).eq('id', id)` and
    `delete().eq('id', id)`. */
module Table {
  import opened Wrappers
  import Seqs
  import Sorting

  /** One stored row: the key the database assigns, its creation stamp
      (`created_at`, as a number that grows with time) and the editable
      columns. */
  datatype Row<R> = Row(id: nat, createdAt: nat, data: R)

  /** The key of the row at position `i`. */
  function KeyAt<R>(t: seq<Row<R>>, i: int): nat
    requires 0 <= i < |t|
  {
    t[i].id
  }

  /** No two rows share a key (the table's primary key). The positions are
      compared through `KeyAt`, so that the property is only unfolded for the
      positions a proof names. */
  predicate UniqueIds<R>(t: seq<Row<R>>) {
    forall i, j {:trigger KeyAt(t, i), KeyAt(t, j)} :: 0 <= i < j < |t| ==> KeyAt(t, i) != KeyAt(t, j)
  }

  predicate HasId<R>(t: seq<Row<R>>, id: nat) {
    exists i :: 0 <= i < |t| && t[i].id == id
  }

  /** A key larger than every key in use. */
  function IdBound<R>(t: seq<Row<R>>): (b: nat)
    ensures forall i :: 0 <= i < |t| ==> t[i].id < b
    decreases |t|
  {
    if t == [] then 0
    else
      var b := IdBound(t[..|t| - 1]);
      var last := t[|t| - 1].id;
      if last < b then b else last + 1
  }

  /** The first row with key `id`, if any. */
  function Find<R>(t: seq<Row<R>>, id: nat): (r: Option<Row<R>>)
    ensures r.Some? <==> HasId(t, id)
    ensures r.Some? ==> r.value in t && r.value.id == id
    decreases |t|
  {
    if t == [] then None
    else if t[0].id == id then Some(t[0])
    else
      var r := Find(t[1..], id);
      assert HasId(t[1..], id) <==> HasId(t, id) by {
        if HasId(t, id) {
          var i :| 0 <= i < |t| && t[i].id == id;
          assert t[1..][i - 1].id == id;
        }
      }
      r
  }

  /** `insert([d])`: one new row at the end of the table. */
  function Insert<R>(t: seq<Row<R>>, id: nat, createdAt: nat, d: R): seq<Row<R>> {
    t + [Row(id, createdAt, d)]
  }

  /** `update(patch).eq('id', id)`: every row with key `id` gets its columns
      changed by `patch`; keys, creation stamps and all other rows stay as
      they were. */
  function Update<R>(t: seq<Row<R>>, id: nat, patch: R -> R): (r: seq<Row<R>>)
    ensures |r| == |t|
    ensures forall i :: 0 <= i < |t| ==> r[i].id == t[i].id && r[i].createdAt == t[i].createdAt
    ensures forall i :: 0 <= i < |t| && t[i].id != id ==> r[i] == t[i]
    ensures forall i :: 0 <= i < |t| && t[i].id == id ==> r[i].data == patch(t[i].data)
  {
    seq(|t|, i requires 0 <= i < |t| => if t[i].id == id then t[i].(data := patch(t[i].data)) else t[i])
  }

  /** An update that writes every column: `update(d).eq('id', id)` with a full record. */
  function Replace<R>(t: seq<Row<R>>, id: nat, d: R): seq<Row<R>> {
    Update(t, id, (_: R) => d)
  }

  /** Whether a row survives `delete().eq('id', id)`. */
  function KeyIsNot<R>(id: nat): Row<R> -> bool {
    (r: Row<R>) => r.id != id
  }

  /** `delete().eq('id', id)`: the rows whose key is not `id`, in order. */
  function Remove<R>(t: seq<Row<R>>, id: nat): seq<Row<R>> {
    Seqs.Filter(t, KeyIsNot(id))
  }

  /** The order of `.order('created_at', { ascending: false })`. */
  predicate NewerFirst<R>(a: Row<R>, b: Row<R>) {
    a.createdAt >= b.createdAt
  }

  /** `select('*').order('created_at', { ascending: false })`. */
  function ByNewest<R>(t: seq<Row<R>>): seq<Row<R>> {
    Sorting.SortBy(t, NewerFirst)
  }

  // ---------------------------------------------------------------------------
  // Properties of the requests
  // ---------------------------------------------------------------------------

  /** A row inserted under a key above every key in use keeps the keys
      unique, and its key becomes the new bound. */
  lemma {:induction false} InsertKeepsKeys<R>(t: seq<Row<R>>, id: nat, createdAt: nat, d: R)
    requires UniqueIds(t) && id >= IdBound(t)
    ensures UniqueIds(Insert(t, id, createdAt, d))
    ensures IdBound(Insert(t, id, createdAt, d)) == id + 1
  {
    var t' := Insert(t, id, createdAt, d);
    assert t'[..|t'| - 1] == t;
    forall i, j | 0 <= i < j < |t'| ensures KeyAt(t', i) != KeyAt(t', j) {
      if j < |t| {
        assert KeyAt(t', i) == KeyAt(t, i) && KeyAt(t', j) == KeyAt(t, j);
      } else {
        assert t'[i] == t[i];
      }
    }
  }

  /** A row inserted under a key above every key in use keeps the keys unique,
      and it is the only new row. */
  lemma {:induction false} InsertFresh<R>(t: seq<Row<R>>, id: nat, createdAt: nat, d: R)
    requires UniqueIds(t) && id >= IdBound(t)
    ensures UniqueIds(Insert(t, id, createdAt, d))
    ensures |Insert(t, id, createdAt, d)| == |t| + 1
    ensures Insert(t, id, createdAt, d)[..|t|] == t
    ensures Insert(t, id, createdAt, d)[|t|] == Row(id, createdAt, d)
    ensures Find(Insert(t, id, createdAt, d), id) == Some(Row(id, createdAt, d))
    ensures IdBound(Insert(t, id, createdAt, d)) == id + 1
  {
    InsertKeepsKeys(t, id, createdAt, d);
    assert Insert(t, id, createdAt, d)[..|t|] == t;
    FindLast(t, Row(id, createdAt, d));
  }

  /** Looking up the key of a row appended after rows with other keys finds it. */
  lemma {:induction false} FindLast<R>(t: seq<Row<R>>, row: Row<R>)
    requires forall i :: 0 <= i < |t| ==> t[i].id != row.id
    ensures Find(t + [row], row.id) == Some(row)
    decreases |t|
  {
    if t != [] {
      assert (t + [row])[1..] == t[1..] + [row];
      FindLast(t[1..], row);
    }
  }

  /** An update keeps the keys, hence their uniqueness. */
  lemma {:induction false} UpdateKeepsKeys<R>(t: seq<Row<R>>, id: nat, patch: R -> R)
    requires UniqueIds(t)
    ensures UniqueIds(Update(t, id, patch))
    ensures IdBound(Update(t, id, patch)) <= IdBound(t)
  {
    var r := Update(t, id, patch);
    forall i, j | 0 <= i < j < |r| ensures KeyAt(r, i) != KeyAt(r, j) {
      assert KeyAt(r, i) == KeyAt(t, i) && KeyAt(r, j) == KeyAt(t, j);
    }
    IdBoundAtMost(r, IdBound(t));
  }

  /** Rewriting a stored row with its own record changes nothing: with unique
      keys that row is the only one under its key. */
  lemma {:induction false} ReplaceWithSame<R>(t: seq<Row<R>>, row: Row<R>)
    requires UniqueIds(t) && row in t
    ensures Replace(t, row.id, row.data) == t
  {
    var k :| 0 <= k < |t| && t[k] == row;
    var r := Replace(t, row.id, row.data);
    forall i | 0 <= i < |t| ensures r[i] == t[i] {
      if i != k {
        assert KeyAt(t, i) != KeyAt(t, k);
      }
    }
  }

  /** A full-record update keeps the keys, hence their uniqueness. */
  lemma {:induction false} ReplaceKeepsKeys<R>(t: seq<Row<R>>, id: nat, d: R)
    requires UniqueIds(t)
    ensures UniqueIds(Replace(t, id, d))
    ensures IdBound(Replace(t, id, d)) <= IdBound(t)
  {
    UpdateKeepsKeys(t, id, (_: R) => d);
  }

  /** A bound on every key bounds `IdBound`. */
  lemma {:induction false} IdBoundAtMost<R>(t: seq<Row<R>>, b: nat)
    requires forall i :: 0 <= i < |t| ==> t[i].id < b
    ensures IdBound(t) <= b
    decreases |t|
  {
    if t != [] {
      IdBoundAtMost(t[..|t| - 1], b);
    }
  }

  /** After an update of a stored key, looking that key up gives the patched
      columns of the row that was found before. */
  lemma {:induction false} UpdateThenFind<R>(t: seq<Row<R>>, id: nat, patch: R -> R)
    requires HasId(t, id)
    ensures Find(Update(t, id, patch), id).Some?
    ensures Find(Update(t, id, patch), id).value.data == patch(Find(t, id).value.data)
    decreases |t|
  {
    if t[0].id != id {
      var i :| 0 <= i < |t| && t[i].id == id;
      assert t[1..][i - 1].id == id;
      UpdateThenFind(t[1..], id, patch);
      assert Update(t, id, patch)[1..] == Update(t[1..], id, patch);
    }
  }

  /** An update of a key that is not stored changes nothing (it matches no row). */
  lemma {:induction false} UpdateAbsent<R>(t: seq<Row<R>>, id: nat, patch: R -> R)
    requires !HasId(t, id)
    ensures Update(t, id, patch) == t
  {
  }

  /** A row survives a delete exactly when its key is not the deleted one. */
  lemma {:induction false} RemoveMembership<R>(t: seq<Row<R>>, id: nat, row: Row<R>)
    ensures row in Remove(t, id) <==> row in t && row.id != id
  {
    Seqs.FilterMembership(t, KeyIsNot(id), row);
  }

  /** The surviving rows keep their order. */
  lemma {:induction false} RemoveKeepsOrder<R>(t: seq<Row<R>>, id: nat)
    ensures Seqs.IsSubsequence(Remove(t, id), t)
  {
    Seqs.FilterIsSubsequence(t, KeyIsNot(id));
  }

  /** A delete of a key that is not stored changes nothing. */
  lemma {:induction false} RemoveAbsent<R>(t: seq<Row<R>>, id: nat)
    requires !HasId(t, id)
    ensures Remove(t, id) == t
  {
    Seqs.FilterAllPass(t, KeyIsNot(id));
  }

  /** With unique keys, a delete of the key at position `k` removes that row
      and nothing else. */
  lemma {:induction false} RemoveStored<R>(t: seq<Row<R>>, k: nat)
    requires UniqueIds(t) && k < |t|
    ensures Remove(t, t[k].id) == t[..k] + t[k + 1..]
    ensures |Remove(t, t[k].id)| == |t| - 1
  {
    var p := KeyIsNot<R>(t[k].id);
    var a, b := t[..k], t[k + 1..];
    assert t == (a + [t[k]]) + b;
    assert forall i :: 0 <= i < |a| ==> p(a[i]) by {
      forall i | 0 <= i < |a| ensures p(a[i]) { assert a[i] == t[i] && KeyAt(t, i) != KeyAt(t, k); }
    }
    assert forall i :: 0 <= i < |b| ==> p(b[i]) by {
      forall i | 0 <= i < |b| ensures p(b[i]) { assert b[i] == t[k + 1 + i] && KeyAt(t, k) != KeyAt(t, k + 1 + i); }
    }
    Seqs.FilterDropsOne(a, t[k], b, p);
  }

  /** Deleting keeps the keys unique. */
  lemma {:induction false} RemoveKeepsKeys<R>(t: seq<Row<R>>, id: nat)
    requires UniqueIds(t)
    ensures UniqueIds(Remove(t, id))
    ensures IdBound(Remove(t, id)) <= IdBound(t)
  {
    var r := Remove(t, id);
    if HasId(t, id) {
      var k :| 0 <= k < |t| && t[k].id == id;
      RemoveStored(t, k);
      forall i, j | 0 <= i < j < |r| ensures KeyAt(r, i) != KeyAt(r, j) {
        var i' := if i < k then i else i + 1;
        var j' := if j < k then j else j + 1;
        assert r[i] == t[i'] && r[j] == t[j'];
        assert KeyAt(t, i') != KeyAt(t, j');
      }
    } else {
      RemoveAbsent(t, id);
    }
    forall i | 0 <= i < |r| ensures r[i].id < IdBound(t) {
      RemoveMembership(t, id, r[i]);
    }
    IdBoundAtMost(r, IdBound(t));
  }

  /** The newest-first order is total and transitive. */
  lemma {:induction false} NewerFirstIsOrder<R(!new)>()
    ensures Sorting.Total<Row<R>>(NewerFirst) && Sorting.Transitive<Row<R>>(NewerFirst)
  {
  }

  /** A select returns every row exactly once, newest first. */
  lemma {:induction false} ByNewestSorted<R(!new)>(t: seq<Row<R>>)
    ensures Sorting.Sorted(ByNewest(t), NewerFirst)
    ensures multiset(ByNewest(t)) == multiset(t)
    ensures forall i, j :: 0 <= i < j < |ByNewest(t)| ==> ByNewest(t)[i].createdAt >= ByNewest(t)[j].createdAt
  {
    NewerFirstIsOrder<R>();
    Sorting.SortBySorted(t, NewerFirst);
  }
}
