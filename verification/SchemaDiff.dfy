/**
 * The schema comparison of SchemaSnapshotService (compareSchemas,
 * compareTableColumns, hasColumnChanged and the identical comparison inside
 * generateSchemaDiff), as specification functions. Tables and columns are
 * first indexed by name with `new Map(xs.map(x => [x.name, x]))`: a name
 * keeps the position of its first occurrence and the value of its last.
 */
module SchemaDiff {
  import opened Wrappers
  import opened JsMaps
  import opened DatabaseTypes

  datatype ChangeKind = TableAdded | TableRemoved | ColumnAdded | ColumnRemoved | ColumnModified

  datatype SchemaChange = SchemaChange(
    kind: ChangeKind,
    tableName: string,
    columnName: Option<string>,
    oldValue: Option<ColumnInfo>,
    newValue: Option<ColumnInfo>,
    timestamp: int)

  predicate IsTableKind(k: ChangeKind) {
    k == TableAdded || k == TableRemoved
  }

  /** `new Map(xs.map(x => [name(x), x]))`. */
  function IndexBy<T>(xs: seq<T>, name: T -> string): (m: JsMap<string, T>)
    ensures m.Valid()
  {
    if xs == [] then Empty()
    else
      var last := xs[|xs| - 1];
      var m0 := IndexBy(xs[..|xs| - 1], name);
      m0.Set(name(last), last)
  }

  lemma IndexBySnoc<T>(xs: seq<T>, x: T, name: T -> string)
    ensures IndexBy(xs + [x], name) == IndexBy(xs, name).Set(name(x), x)
  {
    assert (xs + [x])[..|xs|] == xs;
  }

  /** Every name that occurs is a key of the index. */
  lemma {:induction false} IndexByHasNames<T>(xs: seq<T>, name: T -> string)
    ensures forall i :: 0 <= i < |xs| ==> name(xs[i]) in IndexBy(xs, name).items
  {
    if xs != [] {
      IndexByHasNames(xs[..|xs| - 1], name);
    }
  }

  /** Every key of the index is a name that occurs. */
  lemma {:induction false} IndexByOnlyNames<T>(xs: seq<T>, name: T -> string, k: string)
    requires k in IndexBy(xs, name).items
    ensures exists i :: 0 <= i < |xs| && name(xs[i]) == k
  {
    var init := xs[..|xs| - 1];
    if name(xs[|xs| - 1]) != k {
      IndexByOnlyNames(init, name, k);
      var i :| 0 <= i < |init| && name(init[i]) == k;
      assert name(xs[i]) == k;
    }
  }

  /** A name maps to the last element carrying it. */
  lemma {:induction false} IndexByLastWins<T>(xs: seq<T>, name: T -> string, i: nat)
    requires i < |xs|
    requires forall j :: i < j < |xs| ==> name(xs[j]) != name(xs[i])
    ensures name(xs[i]) in IndexBy(xs, name).items
    ensures IndexBy(xs, name).items[name(xs[i])] == xs[i]
  {
    if i < |xs| - 1 {
      var init := xs[..|xs| - 1];
      assert name(xs[|xs| - 1]) != name(xs[i]);
      IndexByLastWins(init, name, i);
    }
  }

  /** The changes produced by visiting `keys` in order, `f(k)` for each key. */
  function Collect<K>(keys: seq<K>, f: K -> seq<SchemaChange>): seq<SchemaChange> {
    if keys == [] then [] else Collect(keys[..|keys| - 1], f) + f(keys[|keys| - 1])
  }

  lemma CollectSnoc<K>(keys: seq<K>, f: K -> seq<SchemaChange>, i: nat)
    requires i < |keys|
    ensures Collect(keys[..i + 1], f) == Collect(keys[..i], f) + f(keys[i])
  {
    assert keys[..i + 1][..i] == keys[..i];
  }

  lemma {:induction false} CollectMember<K>(keys: seq<K>, f: K -> seq<SchemaChange>, c: SchemaChange)
    ensures c in Collect(keys, f) <==> exists k :: k in keys && c in f(k)
  {
    if keys != [] {
      var init := keys[..|keys| - 1];
      CollectMember(init, f, c);
      assert keys == init + [keys[|keys| - 1]];
    }
  }

  lemma {:induction false} CollectEmpty<K>(keys: seq<K>, f: K -> seq<SchemaChange>)
    ensures Collect(keys, f) == [] <==> forall k :: k in keys ==> f(k) == []
  {
    if keys != [] {
      var init := keys[..|keys| - 1];
      CollectEmpty(init, f);
      assert keys == init + [keys[|keys| - 1]];
    }
  }

  /** Every change produced by `f` on any key satisfies `p`, hence so does the whole list. */
  lemma {:induction false} CollectAll<K>(keys: seq<K>, f: K -> seq<SchemaChange>, p: SchemaChange -> bool)
    requires forall k, i :: 0 <= i < |f(k)| ==> p(f(k)[i])
    ensures forall i :: 0 <= i < |Collect(keys, f)| ==> p(Collect(keys, f)[i])
  {
    if keys != [] {
      CollectAll(keys[..|keys| - 1], f, p);
    }
  }

  // ----- columns -----

  /** hasColumnChanged: type, nullability, primary key flag or default differ; the foreign key flag is not compared. */
  predicate HasColumnChanged(o: ColumnInfo, n: ColumnInfo) {
    o.colType != n.colType || o.nullable != n.nullable
    || o.primaryKey != n.primaryKey || o.defaultValue != n.defaultValue
  }

  function ColumnAddedStep(table: string, oldCols: map<string, ColumnInfo>, newCols: map<string, ColumnInfo>, now: int)
    : string -> seq<SchemaChange>
  {
    k => if k in oldCols || k !in newCols then []
         else [SchemaChange(ColumnAdded, table, Some(k), None, Some(newCols[k]), now)]
  }

  function ColumnRemovedStep(table: string, oldCols: map<string, ColumnInfo>, newCols: map<string, ColumnInfo>, now: int)
    : string -> seq<SchemaChange>
  {
    k => if k in newCols || k !in oldCols then []
         else [SchemaChange(ColumnRemoved, table, Some(k), Some(oldCols[k]), None, now)]
  }

  function ColumnModifiedStep(table: string, oldCols: map<string, ColumnInfo>, newCols: map<string, ColumnInfo>, now: int)
    : string -> seq<SchemaChange>
  {
    k => if k in oldCols && k in newCols && HasColumnChanged(oldCols[k], newCols[k])
         then [SchemaChange(ColumnModified, table, Some(k), Some(oldCols[k]), Some(newCols[k]), now)]
         else []
  }

  /** compareTableColumns: added columns (new order), removed columns (old order), modified columns (new order). */
  function ColumnChanges(table: string, o: TableInfo, n: TableInfo, now: int): seq<SchemaChange> {
    var oc := IndexBy(o.columns, ColumnName);
    var nc := IndexBy(n.columns, ColumnName);
    Collect(nc.keys, ColumnAddedStep(table, oc.items, nc.items, now))
      + Collect(oc.keys, ColumnRemovedStep(table, oc.items, nc.items, now))
      + Collect(nc.keys, ColumnModifiedStep(table, oc.items, nc.items, now))
  }

  /** The two tables have the same column names and no column changed in the sense of hasColumnChanged. */
  predicate SameColumns(o: TableInfo, n: TableInfo) {
    var oc := IndexBy(o.columns, ColumnName).items;
    var nc := IndexBy(n.columns, ColumnName).items;
    oc.Keys == nc.Keys && forall k :: k in nc && k in oc ==> !HasColumnChanged(oc[k], nc[k])
  }

  /** The three passes of compareTableColumns over two column indexes. */
  function ColumnPasses(table: string, oc: JsMap<string, ColumnInfo>, nc: JsMap<string, ColumnInfo>, now: int): seq<SchemaChange> {
    Collect(nc.keys, ColumnAddedStep(table, oc.items, nc.items, now))
      + Collect(oc.keys, ColumnRemovedStep(table, oc.items, nc.items, now))
      + Collect(nc.keys, ColumnModifiedStep(table, oc.items, nc.items, now))
  }

  predicate SameIndexedColumns(oc: map<string, ColumnInfo>, nc: map<string, ColumnInfo>) {
    oc.Keys == nc.Keys && forall k :: k in nc && k in oc ==> !HasColumnChanged(oc[k], nc[k])
  }

  lemma SameColumnsNoPasses(table: string, oc: JsMap<string, ColumnInfo>, nc: JsMap<string, ColumnInfo>, now: int)
    requires oc.Valid() && nc.Valid() && SameIndexedColumns(oc.items, nc.items)
    ensures ColumnPasses(table, oc, nc, now) == []
  {
    var fa := ColumnAddedStep(table, oc.items, nc.items, now);
    var fr := ColumnRemovedStep(table, oc.items, nc.items, now);
    var fm := ColumnModifiedStep(table, oc.items, nc.items, now);
    CollectEmpty(nc.keys, fa);
    CollectEmpty(oc.keys, fr);
    CollectEmpty(nc.keys, fm);
    assert forall k :: k in nc.keys ==> fa(k) == [];
    assert forall k :: k in oc.keys ==> fr(k) == [];
    assert forall k :: k in nc.keys ==> fm(k) == [];
  }

  lemma NoPassesSameColumns(table: string, oc: JsMap<string, ColumnInfo>, nc: JsMap<string, ColumnInfo>, now: int)
    requires oc.Valid() && nc.Valid() && ColumnPasses(table, oc, nc, now) == []
    ensures SameIndexedColumns(oc.items, nc.items)
  {
    var fa := ColumnAddedStep(table, oc.items, nc.items, now);
    var fr := ColumnRemovedStep(table, oc.items, nc.items, now);
    var fm := ColumnModifiedStep(table, oc.items, nc.items, now);
    CollectEmpty(nc.keys, fa);
    CollectEmpty(oc.keys, fr);
    CollectEmpty(nc.keys, fm);
    forall k | k in nc.items
      ensures k in oc.items
    {
      assert k in nc.keys && fa(k) == [];
    }
    forall k | k in oc.items
      ensures k in nc.items
    {
      assert k in oc.keys && fr(k) == [];
    }
    forall k | k in nc.items && k in oc.items
      ensures !HasColumnChanged(oc.items[k], nc.items[k])
    {
      assert k in nc.keys && fm(k) == [];
    }
  }

  /** A table reports no column change exactly when both versions have the same columns, none changed. */
  lemma ColumnChangesEmpty(table: string, o: TableInfo, n: TableInfo, now: int)
    ensures ColumnChanges(table, o, n, now) == [] <==> SameColumns(o, n)
  {
    var oc := IndexBy(o.columns, ColumnName);
    var nc := IndexBy(n.columns, ColumnName);
    assert ColumnChanges(table, o, n, now) == ColumnPasses(table, oc, nc, now);
    assert SameColumns(o, n) == SameIndexedColumns(oc.items, nc.items);
    if SameColumns(o, n) {
      SameColumnsNoPasses(table, oc, nc, now);
    }
    if ColumnChanges(table, o, n, now) == [] {
      NoPassesSameColumns(table, oc, nc, now);
    }
  }

  /** A change without a column name (a table event) is never among a table's column changes. */
  lemma NoTableEventInColumns(table: string, o: TableInfo, n: TableInfo, now: int, ev: SchemaChange)
    requires ev.columnName.None?
    ensures ev !in ColumnChanges(table, o, n, now)
  {
    var oc := IndexBy(o.columns, ColumnName);
    var nc := IndexBy(n.columns, ColumnName);
    CollectMember(nc.keys, ColumnAddedStep(table, oc.items, nc.items, now), ev);
    CollectMember(oc.keys, ColumnRemovedStep(table, oc.items, nc.items, now), ev);
    CollectMember(nc.keys, ColumnModifiedStep(table, oc.items, nc.items, now), ev);
  }

  // ----- tables -----

  function TableEvent(kind: ChangeKind, table: string, now: int): SchemaChange {
    SchemaChange(kind, table, None, None, None, now)
  }

  function TableStep(kind: ChangeKind, others: map<string, TableInfo>, now: int): string -> seq<SchemaChange> {
    k => if k in others then [] else [TableEvent(kind, k, now)]
  }

  function TableColumnsStep(oldTables: map<string, TableInfo>, newTables: map<string, TableInfo>, now: int)
    : string -> seq<SchemaChange>
  {
    k => if k in oldTables && k in newTables then ColumnChanges(k, oldTables[k], newTables[k], now) else []
  }

  lemma TableColumnsStepAt(oldTables: map<string, TableInfo>, newTables: map<string, TableInfo>, now: int, k: string)
    requires k in newTables
    ensures TableColumnsStep(oldTables, newTables, now)(k)
            == if k in oldTables then ColumnChanges(k, oldTables[k], newTables[k], now) else []
  {
  }

  /**
   * compareSchemas / generateSchemaDiff from `o` to `n`: added tables (new
   * order), removed tables (old order), then the column changes of every
   * table present in both (new order), all stamped `now`.
   */
  function Diff(o: SchemaInfo, n: SchemaInfo, now: int): seq<SchemaChange> {
    var ot := IndexBy(o.tables, TableName);
    var nt := IndexBy(n.tables, TableName);
    Collect(nt.keys, TableStep(TableAdded, ot.items, now))
      + Collect(ot.keys, TableStep(TableRemoved, nt.items, now))
      + Collect(nt.keys, TableColumnsStep(ot.items, nt.items, now))
  }

  function TableNames(s: SchemaInfo): set<string> {
    set t | t in s.tables :: t.name
  }

  lemma TableNamesIndexed(s: SchemaInfo)
    ensures IndexBy(s.tables, TableName).items.Keys == TableNames(s)
  {
    var m := IndexBy(s.tables, TableName);
    IndexByHasNames(s.tables, TableName);
    forall k | k in m.items
      ensures k in TableNames(s)
    {
      IndexByOnlyNames(s.tables, TableName, k);
      var i :| 0 <= i < |s.tables| && TableName(s.tables[i]) == k;
      assert s.tables[i] in s.tables;
    }
    forall k | k in TableNames(s)
      ensures k in m.items
    {
      var t :| t in s.tables && t.name == k;
      var i :| 0 <= i < |s.tables| && s.tables[i] == t;
      assert TableName(s.tables[i]) == k;
    }
  }

  /** Same table names, and every table the same columns in the sense of SameColumns. */
  predicate SameSchema(o: SchemaInfo, n: SchemaInfo) {
    var ot := IndexBy(o.tables, TableName).items;
    var nt := IndexBy(n.tables, TableName).items;
    ot.Keys == nt.Keys && forall k :: k in nt && k in ot ==> SameColumns(ot[k], nt[k])
  }

  lemma SameSchemaNoDiff(o: SchemaInfo, n: SchemaInfo, now: int)
    requires SameSchema(o, n)
    ensures Diff(o, n, now) == []
  {
    var ot := IndexBy(o.tables, TableName);
    var nt := IndexBy(n.tables, TableName);
    var fa := TableStep(TableAdded, ot.items, now);
    var fr := TableStep(TableRemoved, nt.items, now);
    var fc := TableColumnsStep(ot.items, nt.items, now);
    CollectEmpty(nt.keys, fa);
    CollectEmpty(ot.keys, fr);
    CollectEmpty(nt.keys, fc);
    forall k | k in nt.keys
      ensures fc(k) == []
    {
      if k in ot.items {
        ColumnChangesEmpty(k, ot.items[k], nt.items[k], now);
      }
    }
  }

  /** No added and no removed table means the same table names. */
  lemma NoEventsSameNames(ot: JsMap<string, TableInfo>, nt: JsMap<string, TableInfo>, now: int)
    requires ot.Valid() && nt.Valid()
    requires Collect(nt.keys, TableStep(TableAdded, ot.items, now)) == []
    requires Collect(ot.keys, TableStep(TableRemoved, nt.items, now)) == []
    ensures ot.items.Keys == nt.items.Keys
  {
    var fa := TableStep(TableAdded, ot.items, now);
    var fr := TableStep(TableRemoved, nt.items, now);
    CollectEmpty(nt.keys, fa);
    CollectEmpty(ot.keys, fr);
    forall k | k in nt.items
      ensures k in ot.items
    {
      assert k in nt.keys && fa(k) == [];
    }
    forall k | k in ot.items
      ensures k in nt.items
    {
      assert k in ot.keys && fr(k) == [];
    }
  }

  /** No column change in any table present in both means every such table has the same columns. */
  lemma NoColumnPassSameColumns(ot: JsMap<string, TableInfo>, nt: JsMap<string, TableInfo>, now: int)
    requires nt.Valid()
    requires Collect(nt.keys, TableColumnsStep(ot.items, nt.items, now)) == []
    ensures forall k :: k in nt.items && k in ot.items ==> SameColumns(ot.items[k], nt.items[k])
  {
    var fc := TableColumnsStep(ot.items, nt.items, now);
    CollectEmpty(nt.keys, fc);
    forall k | k in nt.items && k in ot.items
      ensures SameColumns(ot.items[k], nt.items[k])
    {
      assert k in nt.keys && fc(k) == [];
      ColumnChangesEmpty(k, ot.items[k], nt.items[k], now);
    }
  }

  lemma NoDiffSameSchema(o: SchemaInfo, n: SchemaInfo, now: int)
    requires Diff(o, n, now) == []
    ensures SameSchema(o, n)
  {
    var ot := IndexBy(o.tables, TableName);
    var nt := IndexBy(n.tables, TableName);
    var a := Collect(nt.keys, TableStep(TableAdded, ot.items, now));
    var b := Collect(ot.keys, TableStep(TableRemoved, nt.items, now));
    var c := Collect(nt.keys, TableColumnsStep(ot.items, nt.items, now));
    assert a + b + c == [];
    assert |a| + |b| + |c| == 0;
    NoEventsSameNames(ot, nt, now);
    NoColumnPassSameColumns(ot, nt, now);
  }

  /** The comparison reports nothing exactly when the two schemas agree. */
  lemma DiffEmpty(o: SchemaInfo, n: SchemaInfo, now: int)
    ensures Diff(o, n, now) == [] <==> SameSchema(o, n)
  {
    if SameSchema(o, n) {
      SameSchemaNoDiff(o, n, now);
    }
    if Diff(o, n, now) == [] {
      NoDiffSameSchema(o, n, now);
    }
  }

  /** Tables kept identical under the same name contribute no column change. */
  lemma UnchangedTablesNoColumnChanges(keys: seq<string>, ot: map<string, TableInfo>, nt: map<string, TableInfo>, now: int)
    requires forall k :: k in ot && k in nt ==> ot[k] == nt[k]
    ensures Collect(keys, TableColumnsStep(ot, nt, now)) == []
  {
    var fc := TableColumnsStep(ot, nt, now);
    CollectEmpty(keys, fc);
    forall k | k in keys
      ensures fc(k) == []
    {
      if k in ot && k in nt {
        ColumnChangesEmpty(k, ot[k], nt[k], now);
      }
    }
  }

  /** A schema compared with itself yields no change. */
  lemma DiffSelf(s: SchemaInfo, now: int)
    ensures Diff(s, s, now) == []
  {
    DiffEmpty(s, s, now);
  }

  /** The column pass of the diff never yields a table event. */
  lemma NoTableEventInColumnPass(ot: map<string, TableInfo>, nt: JsMap<string, TableInfo>, now: int, ev: SchemaChange)
    requires ev.columnName.None?
    ensures ev !in Collect(nt.keys, TableColumnsStep(ot, nt.items, now))
  {
    var fc := TableColumnsStep(ot, nt.items, now);
    forall k | true
      ensures ev !in fc(k)
    {
      if k in ot && k in nt.items {
        NoTableEventInColumns(k, ot[k], nt.items[k], now, ev);
      }
    }
    CollectMember(nt.keys, fc, ev);
  }

  /** A table pass over `these` yields an event of its own kind for exactly the names missing from `others`, and no event of another kind. */
  lemma TableEventIn(kind: ChangeKind, these: JsMap<string, TableInfo>, others: map<string, TableInfo>, now: int, name: string)
    requires these.Valid()
    ensures (TableEvent(kind, name, now) in Collect(these.keys, TableStep(kind, others, now)))
            == (name in these.items && name !in others)
    ensures forall other :: other != kind ==> TableEvent(other, name, now) !in Collect(these.keys, TableStep(kind, others, now))
  {
    var f := TableStep(kind, others, now);
    CollectMember(these.keys, f, TableEvent(kind, name, now));
    forall other | other != kind
      ensures TableEvent(other, name, now) !in Collect(these.keys, f)
    {
      CollectMember(these.keys, f, TableEvent(other, name, now));
    }
  }

  /** A table is reported added exactly when its name is new, and removed exactly when its name is gone. */
  lemma TableAddedRemoved(o: SchemaInfo, n: SchemaInfo, now: int, name: string)
    ensures (TableEvent(TableAdded, name, now) in Diff(o, n, now))
            == (name in TableNames(n) && name !in TableNames(o))
    ensures (TableEvent(TableRemoved, name, now) in Diff(o, n, now))
            == (name in TableNames(o) && name !in TableNames(n))
  {
    var ot := IndexBy(o.tables, TableName);
    var nt := IndexBy(n.tables, TableName);
    TableNamesIndexed(o);
    TableNamesIndexed(n);
    TableEventIn(TableAdded, nt, ot.items, now, name);
    TableEventIn(TableRemoved, ot, nt.items, now, name);
    NoTableEventInColumnPass(ot.items, nt, now, TableEvent(TableAdded, name, now));
    NoTableEventInColumnPass(ot.items, nt, now, TableEvent(TableRemoved, name, now));
  }

  /** Changing only the foreign key flag of a column is not a change. */
  lemma ForeignKeyIgnored(c: ColumnInfo, fk: Option<bool>)
    ensures !HasColumnChanged(c, c.(foreignKey := fk))
  {
  }
}
