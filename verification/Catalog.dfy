/**
  The server's catalog and the DDL statements the migrator sends. Accepts and Apply
  are assumptions about the server: it may refuse any statement, and it must refuse
  what Accepts rules out. It may accept a second index on one tag.
 */
module Catalog {
  import opened Ascii
  import opened Column
  import opened Schema

  datatype Kind = Super | Normal | Child

  datatype IndexInfo = IndexInfo(name: string, column: string)

  datatype TableInfo = TableInfo(
    kind: Kind,
    virtual: bool,
    columns: seq<Column>,
    tags: seq<Column>,
    indexes: seq<IndexInfo>)

  /** naming is the server's choice of a name for the automatic index of a table's first tag. */
  datatype Catalog = Catalog(tables: map<string, TableInfo>, naming: (string, string) -> string)

  datatype Ddl =
    | CreateTable(table: string, ifNotExists: bool, columns: seq<Column>, tags: seq<Column>)
    | AddStableColumn(table: string, column: Column)
    | AddStableTag(table: string, column: Column)
    | AddTableColumn(table: string, column: Column)
    | CreateIndex(name: string, table: string, tag: string)

  // -------------------------------------------------------------------- queries

  predicate Named(c: Column, name: string) { EqualFold(c.name, name) }

  /** HasColumn's answer: a column or a tag of that name up to case. */
  predicate HasColumn(cat: Catalog, table: string, name: string) {
    table in cat.tables && exists c <- cat.tables[table].columns + cat.tables[table].tags :: Named(c, name)
  }

  /** hasTagIndex's answer: an index of that name or on that column. */
  predicate HasIndex(cat: Catalog, table: string, name: string, column: string) {
    table in cat.tables && exists i <- cat.tables[table].indexes :: i.name == name || i.column == column
  }

  predicate IsVirtual(cat: Catalog, table: string) { table in cat.tables && cat.tables[table].virtual }

  predicate IsStable(cat: Catalog, table: string) { table in cat.tables && cat.tables[table].kind == Super }

  // ----------------------------------------------------------------- statements

  /** No two columns have the same name up to case. */
  predicate DistinctNames(columns: seq<Column>) {
    forall i, j :: 0 <= i < j < |columns| ==> !Named(columns[i], columns[j].name)
  }

  /**
    What the server must refuse: tables that exist already, unless IF NOT EXISTS is given;
    names that are taken; ALTERs of the wrong kind of table; and indexes on tags that do
    not exist. A tag that has an index is no reason to refuse another one.
   */
  predicate Accepts(cat: Catalog, d: Ddl) {
    match d
    case CreateTable(table, ifNotExists, columns, tags) =>
      if table in cat.tables then ifNotExists else DistinctNames(columns + tags)
    case AddStableColumn(table, c) => IsStable(cat, table) && !HasColumn(cat, table, c.name)
    case AddStableTag(table, c) => IsStable(cat, table) && !HasColumn(cat, table, c.name)
    case AddTableColumn(table, c) => table in cat.tables && !IsStable(cat, table) && !HasColumn(cat, table, c.name)
    case CreateIndex(name, table, tag) =>
      && IsStable(cat, table)
      && (exists c <- cat.tables[table].tags :: c.name == tag)
      && forall i <- cat.tables[table].indexes :: i.name != name
  }

  /** The server accepts one statement after the other. */
  ghost predicate AllAccepted(cat: Catalog, log: seq<Ddl>)
    decreases |log|
  {
    log == [] || (Accepts(cat, log[0]) && AllAccepted(Apply(cat, log[0]), log[1..]))
  }

  /** A new table; a supertable gets an index on its first tag. */
  function NewTable(cat: Catalog, table: string, columns: seq<Column>, tags: seq<Column>): TableInfo {
    if tags == [] then TableInfo(Normal, false, columns, [], [])
    else TableInfo(Super, false, columns, tags, [IndexInfo(cat.naming(table, tags[0].name), tags[0].name)])
  }

  /** The change an addition makes to its table. */
  function Grown(info: TableInfo, d: Ddl): TableInfo
    requires !d.CreateTable?
  {
    match d
    case AddStableColumn(_, c) => info.(columns := info.columns + [c])
    case AddTableColumn(_, c) => info.(columns := info.columns + [c])
    case AddStableTag(_, c) => info.(tags := info.tags + [c])
    case CreateIndex(name, _, tag) => info.(indexes := info.indexes + [IndexInfo(name, tag)])
  }

  /** Without IF NOT EXISTS a creation that is carried out replaces the table. */
  function Apply(cat: Catalog, d: Ddl): Catalog {
    if d.CreateTable? then
      if d.table in cat.tables && d.ifNotExists then cat
      else cat.(tables := cat.tables[d.table := NewTable(cat, d.table, d.columns, d.tags)])
    else if d.table in cat.tables then cat.(tables := cat.tables[d.table := Grown(cat.tables[d.table], d)])
    else cat
  }

  function ApplyAll(cat: Catalog, log: seq<Ddl>): Catalog
    decreases |log|
  {
    if log == [] then cat else ApplyAll(Apply(cat, log[0]), log[1..])
  }

  lemma {:induction false} ApplySplits(cat: Catalog, log: seq<Ddl>, more: seq<Ddl>)
    ensures ApplyAll(cat, log + more) == ApplyAll(ApplyAll(cat, log), more)
    decreases |log|
  {
    hide Apply;
    if log == [] {
      assert log + more == more;
    } else {
      assert (log + more)[1..] == log[1..] + more;
      ApplySplits(Apply(cat, log[0]), log[1..], more);
    }
  }

  // ------------------------------------------------------------------ additivity

  ghost predicate InfoExtends(a: TableInfo, b: TableInfo) {
    && a.kind == b.kind && a.virtual == b.virtual
    && a.columns <= b.columns && a.tags <= b.tags && a.indexes <= b.indexes
  }

  /** Everything in the first catalog is unchanged in the second one. */
  ghost predicate Extends(a: Catalog, b: Catalog) {
    && a.naming == b.naming
    && forall t <- a.tables :: t in b.tables && InfoExtends(a.tables[t], b.tables[t])
  }

  lemma ExtendsIsTransitive(a: Catalog, b: Catalog, c: Catalog)
    requires Extends(a, b) && Extends(b, c)
    ensures Extends(a, c)
  {
  }

  /** A table is created only if it does not exist. */
  predicate Guarded(d: Ddl) { d.CreateTable? ==> d.ifNotExists }

  lemma StatementsOnlyAdd(cat: Catalog, d: Ddl)
    requires Guarded(d)
    ensures Extends(cat, Apply(cat, d))
  {
  }

  /** Safety rests on the guard: an unguarded creation that is carried out loses what was there. */
  lemma UnguardedCreationLoses(cat: Catalog, table: string)
    requires table in cat.tables && cat.tables[table].columns != []
    ensures !Extends(cat, Apply(cat, CreateTable(table, false, [], [])))
    ensures !Accepts(cat, CreateTable(table, false, [], [])) && Accepts(cat, CreateTable(table, true, [], []))
  {
    var after := Apply(cat, CreateTable(table, false, [], []));
    assert table in after.tables && after.tables[table].columns == [];
  }

  /** Any sequence of guarded statements only adds. */
  lemma {:induction false} RunsOnlyAdd(cat: Catalog, log: seq<Ddl>)
    requires forall d <- log :: Guarded(d)
    ensures Extends(cat, ApplyAll(cat, log))
    decreases |log|
  {
    hide Apply, Extends;
    if log == [] {
      ExtendsItself(cat);
    } else {
      StatementsOnlyAdd(cat, log[0]);
      RunsOnlyAdd(Apply(cat, log[0]), log[1..]);
      ExtendsIsTransitive(cat, Apply(cat, log[0]), ApplyAll(cat, log));
    }
  }

  lemma ExtendsItself(cat: Catalog)
    ensures Extends(cat, cat)
  {
  }

  lemma QueriesAreMonotone(a: Catalog, b: Catalog, table: string, name: string, column: string)
    requires Extends(a, b)
    ensures HasColumn(a, table, name) ==> HasColumn(b, table, name)
    ensures HasIndex(a, table, name, column) ==> HasIndex(b, table, name, column)
    ensures table in a.tables ==> (IsVirtual(a, table) <==> IsVirtual(b, table))
    ensures table in a.tables ==> (IsStable(a, table) <==> IsStable(b, table))
  {
    hide Named;
    if HasColumn(a, table, name) {
      var (x, y) := (a.tables[table], b.tables[table]);
      var c :| c in x.columns + x.tags && Named(c, name);
      assert c in y.columns + y.tags;
    }
    if HasIndex(a, table, name, column) {
      var i :| i in a.tables[table].indexes && (i.name == name || i.column == column);
      assert i in b.tables[table].indexes;
    }
  }

  // --------------------------------------------------- composite keys, placement

  /** The data columns and tags that are part of a table's key. */
  function Keys(columns: seq<Column>): seq<Column> {
    if columns == [] then [] else
      var last := |columns| - 1;
      Keys(columns[..last]) + if columns[last].compositeKey then [columns[last]] else []
  }

  /** A statement that leaves the keys of existing tables alone. */
  predicate KeepsKeys(d: Ddl) {
    Guarded(d) && (d.AddStableColumn? || d.AddStableTag? || d.AddTableColumn? ==> !d.column.compositeKey)
  }

  /** A statement that also introduces nothing misplaced. */
  ghost predicate Safe(d: Ddl) {
    && KeepsKeys(d)
    && (d.CreateTable? ==> ModelRules(d.columns, d.tags))
    && (d.AddStableColumn? || d.AddTableColumn? ==> WellPlaced(d.column, false))
    && (d.AddStableTag? ==> WellPlaced(d.column, true))
  }

  /** Every table of a keeps its keys in b. */
  ghost predicate SameKeys(a: Catalog, b: Catalog) {
    forall t <- a.tables :: t in b.tables
      && Keys(a.tables[t].columns) == Keys(b.tables[t].columns) && Keys(a.tables[t].tags) == Keys(b.tables[t].tags)
  }

  lemma KeysOfMore(columns: seq<Column>, c: Column)
    requires !c.compositeKey
    ensures Keys(columns + [c]) == Keys(columns)
  {
    assert (columns + [c])[..|columns|] == columns;
  }

  lemma StatementKeepsKeys(cat: Catalog, d: Ddl)
    requires KeepsKeys(d)
    ensures SameKeys(cat, Apply(cat, d))
  {
    hide Keys;
    if d.table in cat.tables && (d.AddStableColumn? || d.AddTableColumn?) {
      KeysOfMore(cat.tables[d.table].columns, d.column);
    } else if d.table in cat.tables && d.AddStableTag? {
      KeysOfMore(cat.tables[d.table].tags, d.column);
    }
  }

  /** A table's composite key never changes after its creation. */
  lemma {:induction false} RunKeepsKeys(cat: Catalog, log: seq<Ddl>)
    requires forall d <- log :: KeepsKeys(d)
    ensures SameKeys(cat, ApplyAll(cat, log))
    decreases |log|
  {
    hide Apply, Keys;
    if log != [] {
      StatementKeepsKeys(cat, log[0]);
      RunKeepsKeys(Apply(cat, log[0]), log[1..]);
    }
  }

  /** A column that was not there before is where its type allows; every new table obeys the rules. */
  ghost predicate InfoPlaced(before: seq<Column>, after: seq<Column>, tag: bool) {
    && before <= after
    && forall i :: |before| <= i < |after| ==>
         if tag then BaseType(after[i].columnType) != "DECIMAL" && BaseType(after[i].columnType) != "BLOB"
         else BaseType(after[i].columnType) != "JSON"
  }

  ghost predicate NewIsPlaced(a: Catalog, b: Catalog) {
    && (forall t <- a.tables :: t in b.tables
         && InfoPlaced(a.tables[t].columns, b.tables[t].columns, false)
         && InfoPlaced(a.tables[t].tags, b.tables[t].tags, true))
    && (forall t <- b.tables :: t !in a.tables ==>
         InfoPlaced([], b.tables[t].columns, false) && InfoPlaced([], b.tables[t].tags, true)
         && |Keys(b.tables[t].columns)| <= 1 && Keys(b.tables[t].tags) == [])
  }

  lemma {:induction false} FewKeys(columns: seq<Column>)
    ensures (forall c <- columns :: !c.compositeKey) ==> Keys(columns) == []
    ensures Unique(IsKey, columns) ==> |Keys(columns)| <= 1
  {
    if columns != [] {
      var last := |columns| - 1;
      FewKeys(columns[..last]);
      if Unique(IsKey, columns) && columns[last].compositeKey {
        forall c <- columns[..last] ensures !c.compositeKey {
          var i :| 0 <= i < last && columns[i] == c;
          assert !(IsKey(columns[i]) && IsKey(columns[last]));
        }
      }
    }
  }

  lemma StatementIsPlaced(cat: Catalog, d: Ddl)
    requires Safe(d)
    ensures NewIsPlaced(cat, Apply(cat, d))
  {
    hide BaseType, Keys, ModelRules;
    if d.CreateTable? && d.table !in cat.tables {
      CreationIsPlaced(cat, d);
    }
  }

  lemma CreationIsPlaced(cat: Catalog, d: Ddl)
    requires d.CreateTable? && ModelRules(d.columns, d.tags)
    ensures var info := NewTable(cat, d.table, d.columns, d.tags);
            && InfoPlaced([], info.columns, false) && InfoPlaced([], info.tags, true)
            && |Keys(info.columns)| <= 1 && Keys(info.tags) == []
  {
    hide BaseType, Keys, Unique, IsTimestamp, KeyAllowed;
    FewKeys(d.columns);
    FewKeys(d.tags);
    FewKeys([]);
    assert forall i :: 0 <= i < |d.columns| ==> WellPlaced(d.columns[i], false);
    assert forall i :: 0 <= i < |d.tags| ==> WellPlaced(d.tags[i], true);
  }

  lemma PlacedIsTransitive(a: Catalog, b: Catalog, c: Catalog)
    requires NewIsPlaced(a, b) && NewIsPlaced(b, c) && SameKeys(b, c)
    ensures NewIsPlaced(a, c)
  {
    hide InfoPlaced, Keys;
    forall t <- a.tables
      ensures t in c.tables && InfoPlaced(a.tables[t].columns, c.tables[t].columns, false)
      ensures InfoPlaced(a.tables[t].tags, c.tables[t].tags, true)
    {
      PlacedFurther(a.tables[t].columns, b.tables[t].columns, c.tables[t].columns, false);
      PlacedFurther(a.tables[t].tags, b.tables[t].tags, c.tables[t].tags, true);
    }
    forall t <- c.tables | t !in a.tables && t in b.tables
      ensures InfoPlaced([], c.tables[t].columns, false) && InfoPlaced([], c.tables[t].tags, true)
    {
      PlacedFurther([], b.tables[t].columns, c.tables[t].columns, false);
      PlacedFurther([], b.tables[t].tags, c.tables[t].tags, true);
    }
  }

  lemma PlacedFurther(a: seq<Column>, b: seq<Column>, c: seq<Column>, tag: bool)
    requires InfoPlaced(a, b, tag) && InfoPlaced(b, c, tag)
    ensures InfoPlaced(a, c, tag)
  {
    hide BaseType;
    assert forall i :: 0 <= i < |b| ==> b[i] == c[i];
  }

  /**
    Over any run of safe statements no JSON data column and no DECIMAL or BLOB tag is
    introduced, and a new table has at most one key column beside its timestamp.
   */
  lemma {:induction false} RunIsPlaced(cat: Catalog, log: seq<Ddl>)
    requires forall d <- log :: Safe(d)
    ensures NewIsPlaced(cat, ApplyAll(cat, log)) && SameKeys(cat, ApplyAll(cat, log))
    decreases |log|
  {
    hide Apply, Keys, WellPlaced, ModelRules, NewIsPlaced, SameKeys;
    RunKeepsKeys(cat, log);
    if log == [] {
      NothingIsPlaced(cat);
    } else {
      StatementIsPlaced(cat, log[0]);
      RunIsPlaced(Apply(cat, log[0]), log[1..]);
      PlacedIsTransitive(cat, Apply(cat, log[0]), ApplyAll(cat, log));
    }
  }

  lemma NothingIsPlaced(cat: Catalog)
    ensures NewIsPlaced(cat, cat)
  {
    hide Keys, BaseType;
  }

  // ----------------------------------------------------------------- tag indexes

  /** No tag carries two indexes. */
  ghost predicate OneIndexPerTag(cat: Catalog) {
    forall t <- cat.tables :: forall i, j :: 0 <= i < j < |cat.tables[t].indexes| ==>
      cat.tables[t].indexes[i].column != cat.tables[t].indexes[j].column
  }

  /** A statement that adds no second index to a tag. */
  predicate AddsNoSecondIndex(cat: Catalog, d: Ddl) {
    d.CreateIndex? && d.table in cat.tables ==> forall i <- cat.tables[d.table].indexes :: i.column != d.tag
  }

  lemma IndexesStayUnique(cat: Catalog, d: Ddl)
    requires OneIndexPerTag(cat) && AddsNoSecondIndex(cat, d)
    ensures OneIndexPerTag(Apply(cat, d))
  {
  }

  // ---------------------------------------------------- catalogs a server can have

  /** Column and index names are distinct, and only supertables have tags; every index is on a tag of its own table. */
  ghost predicate OrderlyTable(info: TableInfo) {
    && DistinctNames(info.columns + info.tags)
    && (info.kind != Super ==> info.tags == [])
    && (forall i, j :: 0 <= i < j < |info.indexes| ==> info.indexes[i].name != info.indexes[j].name)
    && (forall i <- info.indexes :: exists c <- info.tags :: c.name == i.column)
  }

  ghost predicate Orderly(cat: Catalog) { forall t <- cat.tables :: OrderlyTable(cat.tables[t]) }

  const NO_TABLES: map<string, TableInfo> := map[]

  /** A catalog that accepted statements can make of an empty one. */
  ghost predicate Reachable(cat: Catalog) {
    exists log: seq<Ddl> :: AllAccepted(Catalog(NO_TABLES, cat.naming), log)
                         && cat == ApplyAll(Catalog(NO_TABLES, cat.naming), log)
  }

  lemma AcceptedIsOrderly(cat: Catalog, d: Ddl)
    requires Orderly(cat) && Accepts(cat, d)
    ensures Orderly(Apply(cat, d))
  {
    var after := Apply(cat, d);
    forall t <- after.tables ensures OrderlyTable(after.tables[t]) {
      if t != d.table {
        assert OrderlyTable(cat.tables[t]);
      } else if d.table in cat.tables {
        GrownIsOrderly(cat, d);
      }
    }
  }

  lemma GrownIsOrderly(cat: Catalog, d: Ddl)
    requires d.table in cat.tables && OrderlyTable(cat.tables[d.table]) && Accepts(cat, d)
    ensures OrderlyTable(Apply(cat, d).tables[d.table])
  {
    var (a, b) := (cat.tables[d.table], Apply(cat, d).tables[d.table]);
    if d.CreateIndex? {
      forall i <- b.indexes ensures exists c <- b.tags :: c.name == i.column {
        assert i in a.indexes || i == IndexInfo(d.name, d.tag);
      }
    } else if !d.CreateTable? {
      hide Accepts;
      OneMoreColumn(a.columns, a.tags, d.column);
      forall i <- b.indexes ensures exists c <- b.tags :: c.name == i.column {
        var c :| c in a.tags && c.name == i.column;
        assert c in b.tags;
      }
    }
  }

  lemma OneMoreColumn(columns: seq<Column>, tags: seq<Column>, c: Column)
    requires DistinctNames(columns + tags) && forall x <- columns + tags :: !Named(x, c.name)
    ensures DistinctNames(columns + [c] + tags) && DistinctNames(columns + (tags + [c]))
  {
    var (all, k) := (columns + tags, |columns|);
    var more := columns + [c] + tags;
    assert forall x <- all :: !Named(c, x.name);
    hide Named;
    forall i, j | 0 <= i < j < |more| ensures !Named(more[i], more[j].name) {
      var (i', j') := (if i < k then i else i - 1, if j < k then j else j - 1);
      assert (i != k ==> more[i] == all[i'] && all[i'] in all) && (j != k ==> more[j] == all[j'] && all[j'] in all);
    }
    assert columns + (tags + [c]) == all + [c];
  }

  /** Every reachable catalog is orderly. */
  lemma {:induction false} AllAcceptedIsOrderly(cat: Catalog, log: seq<Ddl>)
    requires Orderly(cat) && AllAccepted(cat, log)
    ensures Orderly(ApplyAll(cat, log))
    decreases |log|
  {
    hide Accepts, Apply, Orderly;
    if log != [] {
      AcceptedIsOrderly(cat, log[0]);
      AllAcceptedIsOrderly(Apply(cat, log[0]), log[1..]);
    }
  }

  lemma ReachableIsOrderly(cat: Catalog)
    requires Reachable(cat)
    ensures Orderly(cat)
  {
    hide Accepts, Apply;
    var empty := Catalog(NO_TABLES, cat.naming);
    var log :| AllAccepted(empty, log) && cat == ApplyAll(empty, log);
    AllAcceptedIsOrderly(empty, log);
  }
}
