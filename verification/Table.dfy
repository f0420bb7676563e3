/** A Room table keyed by a string primary key, and the effect of
    `@Insert(onConflict = OnConflictStrategy.REPLACE)` over a list of rows:
    each row in turn replaces the whole row with the same key, if any. */
module Table {

  /** The table after inserting `batch` row by row with REPLACE. */
  function Upsert<T>(m: map<string, T>, batch: seq<T>, id: T -> string): map<string, T>
    decreases |batch|
  {
    if batch == [] then m else Upsert(m[id(batch[0]) := batch[0]], batch[1..], id)
  }

  /** The primary keys occurring in a batch. */
  function Ids<T(==)>(batch: seq<T>, id: T -> string): set<string> {
    set x | x in batch :: id(x)
  }

  /** Every row is stored under its own primary key. */
  ghost predicate KeyedBy<T>(m: map<string, T>, id: T -> string) {
    forall u :: u in m ==> id(m[u]) == u
  }

  lemma IdsCons<T>(batch: seq<T>, id: T -> string)
    requires batch != []
    ensures Ids(batch, id) == {id(batch[0])} + Ids(batch[1..], id)
  {
    assert forall x :: x in batch <==> x == batch[0] || x in batch[1..];
  }

  /** After the insert, the keys are the old keys plus the batch's keys. */
  lemma {:induction false} UpsertKeys<T>(m: map<string, T>, batch: seq<T>, id: T -> string)
    ensures Upsert(m, batch, id).Keys == m.Keys + Ids(batch, id)
    decreases |batch|
  {
    if batch != [] {
      UpsertKeys(m[id(batch[0]) := batch[0]], batch[1..], id);
      IdsCons(batch, id);
    }
  }

  /** A key that the batch does not mention keeps its row, or its absence. */
  lemma {:induction false} UpsertElsewhere<T>(m: map<string, T>, batch: seq<T>, id: T -> string, u: string)
    requires u !in Ids(batch, id)
    ensures u in Upsert(m, batch, id) <==> u in m
    ensures u in m ==> Upsert(m, batch, id)[u] == m[u]
    decreases |batch|
  {
    if batch != [] {
      IdsCons(batch, id);
      UpsertElsewhere(m[id(batch[0]) := batch[0]], batch[1..], id, u);
    }
  }

  /** A row that no later row of the batch replaces is stored as given: the
      whole row, whatever was there before. */
  lemma {:induction false} UpsertLastWins<T>(m: map<string, T>, batch: seq<T>, id: T -> string, i: int)
    requires 0 <= i < |batch|
    requires forall j :: i < j < |batch| ==> id(batch[j]) != id(batch[i])
    ensures id(batch[i]) in Upsert(m, batch, id)
    ensures Upsert(m, batch, id)[id(batch[i])] == batch[i]
    decreases |batch|
  {
    var m' := m[id(batch[0]) := batch[0]];
    if i == 0 {
      forall x | x in batch[1..] ensures id(x) != id(batch[0]) {
        var j :| 0 <= j < |batch[1..]| && batch[1..][j] == x;
        assert batch[j + 1] == x;
      }
      UpsertElsewhere(m', batch[1..], id, id(batch[0]));
    } else {
      UpsertLastWins(m', batch[1..], id, i - 1);
    }
  }

  /** A key the batch mentions ends up holding one of the batch's rows with
      that key. */
  lemma {:induction false} UpsertValueFromBatch<T>(m: map<string, T>, batch: seq<T>, id: T -> string, u: string)
    requires u in Ids(batch, id)
    ensures u in Upsert(m, batch, id)
    ensures Upsert(m, batch, id)[u] in batch && id(Upsert(m, batch, id)[u]) == u
    decreases |batch|
  {
    IdsCons(batch, id);
    var m' := m[id(batch[0]) := batch[0]];
    if u in Ids(batch[1..], id) {
      UpsertValueFromBatch(m', batch[1..], id, u);
    } else {
      UpsertElsewhere(m', batch[1..], id, u);
    }
  }

  /** For a key the batch mentions, the stored row depends on the batch alone,
      not on what the table held before. */
  lemma {:induction false} UpsertOverrides<T>(m1: map<string, T>, m2: map<string, T>, batch: seq<T>, id: T -> string, u: string)
    requires u in Ids(batch, id)
    ensures u in Upsert(m1, batch, id) && u in Upsert(m2, batch, id)
    ensures Upsert(m1, batch, id)[u] == Upsert(m2, batch, id)[u]
    decreases |batch|
  {
    IdsCons(batch, id);
    var m1' := m1[id(batch[0]) := batch[0]];
    var m2' := m2[id(batch[0]) := batch[0]];
    if u in Ids(batch[1..], id) {
      UpsertOverrides(m1', m2', batch[1..], id, u);
    } else {
      UpsertElsewhere(m1', batch[1..], id, u);
      UpsertElsewhere(m2', batch[1..], id, u);
    }
  }

  /** Inserting the same batch twice leaves the table as inserting it once. */
  lemma UpsertIdempotent<T>(m: map<string, T>, batch: seq<T>, id: T -> string)
    ensures Upsert(Upsert(m, batch, id), batch, id) == Upsert(m, batch, id)
  {
    var once := Upsert(m, batch, id);
    var twice := Upsert(once, batch, id);
    UpsertKeys(m, batch, id);
    UpsertKeys(once, batch, id);
    forall u | u in twice ensures twice[u] == once[u] {
      if u in Ids(batch, id) {
        UpsertOverrides(once, m, batch, id, u);
      } else {
        UpsertElsewhere(once, batch, id, u);
      }
    }
  }

  /** Every key of the batch ends up present. */
  lemma UpsertContainsBatch<T>(m: map<string, T>, batch: seq<T>, id: T -> string)
    ensures forall x :: x in batch ==> id(x) in Upsert(m, batch, id)
  {
    UpsertKeys(m, batch, id);
  }

  /** Inserting never removes a row, so the row count never decreases. */
  lemma UpsertGrows<T>(m: map<string, T>, batch: seq<T>, id: T -> string)
    ensures m.Keys <= Upsert(m, batch, id).Keys
    ensures |m| <= |Upsert(m, batch, id)|
  {
    UpsertKeys(m, batch, id);
    var r := Upsert(m, batch, id);
    assert r.Keys == m.Keys + (r.Keys - m.Keys);
    assert |r.Keys| == |m.Keys| + |r.Keys - m.Keys|;
  }

  /** Inserting keeps every row under its own key. */
  lemma {:induction false} UpsertKeyedBy<T>(m: map<string, T>, batch: seq<T>, id: T -> string)
    requires KeyedBy(m, id)
    ensures KeyedBy(Upsert(m, batch, id), id)
    decreases |batch|
  {
    if batch != [] {
      UpsertKeyedBy(m[id(batch[0]) := batch[0]], batch[1..], id);
    }
  }
}
