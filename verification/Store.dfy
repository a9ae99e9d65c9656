/** The snapshot store (`repository.rs`) as keyed tables: replacing a whole snapshot, and filling
    one a subtree at a time. */
module Stores {
  import opened Atlas

  /** A row, stamped with the snapshot that wrote it. */
  datatype Row<T> = Row(value: T, snapshot: string)

  datatype Tables = Tables(entities: map<Id, Row<Entity>>, edges: map<Id, Row<Edge>>, current: Option<string>, root: Option<Id>)

  function EntityKey(e: Entity): Id { e.id }

  function EdgeKey(e: Edge): Id { e.id }

  // ---- Table operations ----

  /** `INSERT OR REPLACE`, row after row. */
  function Upserted<T>(table: map<Id, Row<T>>, rows: seq<T>, key: T -> Id, snapshot: string): map<Id, Row<T>> {
    if rows == [] then table
    else
      var last := rows[|rows| - 1];
      Upserted(table, rows[..|rows| - 1], key, snapshot)[key(last) := Row(last, snapshot)]
  }

  /** `DELETE … WHERE snapshot_id <> ?`. */
  function Kept<T>(table: map<Id, Row<T>>, snapshot: string): map<Id, Row<T>> {
    map k | k in table && table[k].snapshot == snapshot :: table[k]
  }

  function Keys<T(==)>(rows: seq<T>, key: T -> Id): set<Id> {
    set r | r in rows :: key(r)
  }

  /** A plain `INSERT` of these rows into an empty table meets no key twice. */
  predicate Insertable<T(==)>(rows: seq<T>, key: T -> Id) {
    rows == [] || (Insertable(rows[..|rows| - 1], key) && key(rows[|rows| - 1]) !in Keys(rows[..|rows| - 1], key))
  }

  function Replaced(entities: seq<Entity>, edges: seq<Edge>, snapshot: string): Tables {
    Tables(Upserted(map[], entities, EntityKey, snapshot), Upserted(map[], edges, EdgeKey, snapshot), Some(snapshot),
           Some(if entities == [] then 0 else entities[0].id))
  }

  lemma UpsertStep<T>(table: map<Id, Row<T>>, rows: seq<T>, key: T -> Id, snapshot: string, i: nat)
    requires i < |rows|
    ensures Upserted(table, rows[..i + 1], key, snapshot) ==
            Upserted(table, rows[..i], key, snapshot)[key(rows[i]) := Row(rows[i], snapshot)]
    ensures Insertable(rows[..i + 1], key) <==> Insertable(rows[..i], key) && key(rows[i]) !in Keys(rows[..i], key)
  {
    hide Keys;
    assert rows[..i + 1][..i] == rows[..i];
  }

  lemma {:induction false} InsertablePrefix<T>(rows: seq<T>, key: T -> Id, i: nat)
    requires i <= |rows| && Insertable(rows, key)
    ensures Insertable(rows[..i], key)
    decreases |rows|
  {
    if i < |rows| {
      assert rows[..|rows| - 1][..i] == rows[..i];
      InsertablePrefix(rows[..|rows| - 1], key, i);
    } else {
      assert rows[..i] == rows;
    }
  }

  lemma {:induction false} UpsertedKeys<T>(table: map<Id, Row<T>>, rows: seq<T>, key: T -> Id, snapshot: string)
    ensures Upserted(table, rows, key, snapshot).Keys == table.Keys + Keys(rows, key)
    ensures forall k :: k in table && k !in Keys(rows, key) ==> Upserted(table, rows, key, snapshot)[k] == table[k]
    ensures forall k :: k in Keys(rows, key) ==>
              Upserted(table, rows, key, snapshot)[k].snapshot == snapshot
              && Upserted(table, rows, key, snapshot)[k].value in rows
              && key(Upserted(table, rows, key, snapshot)[k].value) == k
  {
    if rows != [] {
      var n := |rows| - 1;
      UpsertedKeys(table, rows[..n], key, snapshot);
      assert rows == rows[..n] + [rows[n]];
      assert Keys(rows, key) == Keys(rows[..n], key) + {key(rows[n])};
    }
  }

  /** That is, no two rows have one key. */
  lemma {:induction false} InsertableIff<T>(rows: seq<T>, key: T -> Id)
    ensures Insertable(rows, key) <==> forall i, j :: 0 <= i < j < |rows| ==> key(rows[i]) != key(rows[j])
  {
    if rows != [] {
      var n := |rows| - 1;
      InsertableIff(rows[..n], key);
      assert forall i :: 0 <= i < n ==> rows[..n][i] == rows[i];
      assert key(rows[n]) in Keys(rows[..n], key) <==> exists i :: 0 <= i < n && key(rows[i]) == key(rows[n]);
    }
  }

  /** Inserts into an emptied table until a key is met twice. */
  method InsertAll<T(==)>(rows: seq<T>, key: T -> Id, snapshot: string) returns (ok: bool, table: map<Id, Row<T>>)
    ensures ok <==> Insertable(rows, key)
    ensures ok ==> table == Upserted(map[], rows, key, snapshot)
  {
    hide Insertable, Keys, Upserted;
    table := map[];
    assert rows[..|rows|] == rows;
    Nothing(rows, key, snapshot);
    for i := 0 to |rows|
      invariant Insertable(rows[..i], key) && table == Upserted(map[], rows[..i], key, snapshot)
    {
      UpsertStep(map[], rows, key, snapshot, i);
      UpsertedKeys(map[], rows[..i], key, snapshot);
      if key(rows[i]) in table {
        NotInsertable(rows, key, i + 1);
        return false, table;
      }
      table := table[key(rows[i]) := Row(rows[i], snapshot)];
    }
    return true, table;
  }

  class Repository {
    var entities: map<Id, Row<Entity>>
    var edges: map<Id, Row<Edge>>
    var current: Option<string>
    var root: Option<Id>

    function View(): Tables
      reads this
    {
      Tables(entities, edges, current, root)
    }

    constructor (tables: Tables)
      ensures View() == tables
    {
      entities, edges, current, root := tables.entities, tables.edges, tables.current, tables.root;
    }

    /** `replace_snapshot`: one transaction, which a key met twice rolls back. */
    method ReplaceSnapshot(snapshot: string, newEntities: seq<Entity>, newEdges: seq<Edge>) returns (ok: bool)
      modifies this
      ensures ok <==> Insertable(newEntities, EntityKey) && Insertable(newEdges, EdgeKey)
      ensures View() == if ok then Replaced(newEntities, newEdges, snapshot) else old(View())
    {
      hide Insertable, Upserted;
      var inserted, table := InsertAll(newEntities, EntityKey, snapshot);
      if !inserted {
        return false;
      }
      var linked, links := InsertAll(newEdges, EdgeKey, snapshot);
      if !linked {
        return false;
      }
      entities, edges, current := table, links, Some(snapshot);
      root := Some(if newEntities == [] then 0 else newEntities[0].id);
      return true;
    }

    method UpsertSubtree(rows: seq<Entity>, links: seq<Edge>, snapshot: string)
      modifies `entities, `edges
      ensures entities == Upserted(old(entities), rows, EntityKey, snapshot)
      ensures edges == Upserted(old(edges), links, EdgeKey, snapshot)
    {
      assert rows[..|rows|] == rows && links[..|links|] == links;
      for i := 0 to |rows|
        invariant entities == Upserted(old(entities), rows[..i], EntityKey, snapshot)
        invariant edges == old(edges)
      {
        UpsertStep(old(entities), rows, EntityKey, snapshot, i);
        entities := entities[rows[i].id := Row(rows[i], snapshot)];
      }
      for i := 0 to |links|
        invariant edges == Upserted(old(edges), links[..i], EdgeKey, snapshot)
        invariant entities == Upserted(old(entities), rows, EntityKey, snapshot)
      {
        UpsertStep(old(edges), links, EdgeKey, snapshot, i);
        edges := edges[links[i].id := Row(links[i], snapshot)];
      }
    }

    method FinalizeSnapshot(snapshot: string, rootId: Id)
      modifies this
      ensures View() == Tables(Kept(old(entities), snapshot), Kept(old(edges), snapshot), Some(snapshot), Some(rootId))
    {
      edges := map k | k in edges && edges[k].snapshot == snapshot :: edges[k];
      entities := map k | k in entities && entities[k].snapshot == snapshot :: entities[k];
      current, root := Some(snapshot), Some(rootId);
    }
  }

  lemma Nothing<T>(rows: seq<T>, key: T -> Id, snapshot: string)
    ensures Insertable(rows[..0], key) && Upserted(map[], rows[..0], key, snapshot) == map[]
  {
  }

  lemma NotInsertable<T>(rows: seq<T>, key: T -> Id, i: nat)
    requires i <= |rows| && !Insertable(rows[..i], key)
    ensures !Insertable(rows, key)
  {
    if Insertable(rows, key) {
      InsertablePrefix(rows, key, i);
    }
  }

  // ---- Filling by subtrees equals replacing ----

  /** Rows of one key are one row. */
  ghost predicate Agreeing<T>(rows: seq<T>, key: T -> Id) {
    forall a, b :: a in rows && b in rows && key(a) == key(b) ==> a == b
  }

  ghost predicate SameRows<T(!new)>(a: seq<T>, b: seq<T>) {
    forall r :: r in a <==> r in b
  }

  lemma {:induction false} UpsertedTogether<T>(table: map<Id, Row<T>>, a: seq<T>, b: seq<T>, key: T -> Id, snapshot: string)
    ensures Upserted(table, a + b, key, snapshot) == Upserted(Upserted(table, a, key, snapshot), b, key, snapshot)
    decreases |b|
  {
    if b == [] {
      assert a + b == a;
    } else {
      var n := |b| - 1;
      UpsertedTogether(table, a, b[..n], key, snapshot);
      assert (a + b)[..|a + b| - 1] == a + b[..n];
    }
  }

  /** Which keys are left after filling and finalizing: the new ones, and any stale row that
      already bore the new snapshot id. */
  lemma KeysAfterFinalize<T>(table: map<Id, Row<T>>, rows: seq<T>, key: T -> Id, snapshot: string)
    ensures var left := Kept(Upserted(table, rows, key, snapshot), snapshot);
            forall k :: k in left <==> k in Keys(rows, key) || (k in table && table[k].snapshot == snapshot)
  {
    UpsertedKeys(table, rows, key, snapshot);
    hide Upserted, Keys;
  }

  /** The store ends with exactly the new ids, exactly when no other stale row already bears the
      new snapshot id. */
  lemma ExactIffNoStaleStamp<T>(table: map<Id, Row<T>>, rows: seq<T>, key: T -> Id, snapshot: string)
    ensures Kept(Upserted(table, rows, key, snapshot), snapshot).Keys == Keys(rows, key) <==>
            forall k :: k in table && table[k].snapshot == snapshot ==> k in Keys(rows, key)
  {
    KeysAfterFinalize(table, rows, key, snapshot);
    hide Upserted, Keys, Kept;
  }

  /** In whatever order and however often the rows were written, the table is the one a single
      replacement writes. */
  lemma FillingIsReplacing<T(!new)>(table: map<Id, Row<T>>, written: seq<T>, whole: seq<T>, key: T -> Id, snapshot: string)
    requires SameRows(written, whole) && Agreeing(whole, key)
    requires forall k :: k in table && table[k].snapshot == snapshot ==> k in Keys(whole, key)
    ensures Kept(Upserted(table, written, key, snapshot), snapshot) == Upserted(map[], whole, key, snapshot)
  {
    SameKeys(written, whole, key);
    KeysAfterFinalize(table, written, key, snapshot);
    UpsertedKeys(table, written, key, snapshot);
    UpsertedKeys(map[], whole, key, snapshot);
    var left, want := Kept(Upserted(table, written, key, snapshot), snapshot), Upserted(map[], whole, key, snapshot);
    hide Upserted, Keys;
    forall k | k in left ensures k in want && left[k] == want[k] {
      assert left[k].value in whole && want[k].value in whole;
    }
  }

  lemma SameKeys<T(!new)>(a: seq<T>, b: seq<T>, key: T -> Id)
    requires SameRows(a, b)
    ensures Keys(a, key) == Keys(b, key)
  {
  }
}
