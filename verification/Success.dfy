/**
  When a migration succeeds, and what it sends then, in terms of the catalog and the
  models alone: no loop, no intermediate catalog.
 */
module Success {
  import opened Common
  import opened Ascii
  import opened Column
  import opened Schema
  import opened Catalog
  import opened Plan

  // ------------------------------------------------------------------ the fields

  /** A field to be migrated whose name no column or tag of the table has, up to case. */
  predicate Lacks(cat: Catalog, table: string, f: Field) {
    && !f.ignoreMigration && f.dbName != ""
    && !(table in cat.tables
         && exists c <- cat.tables[table].columns + cat.tables[table].tags :: EqualFold(c.name, f.dbName))
  }

  /** A field that can be added to an existing table: no key, and a tag only to a supertable. */
  predicate Addable(f: Field, stable: bool) { !HasOption(f, "compositekey") && (HasOption(f, "tag") ==> stable) }

  function Lacking(cat: Catalog, table: string, fields: seq<Field>): seq<Field> {
    if fields == [] then []
    else (if Lacks(cat, table, fields[0]) then [fields[0]] else []) + Lacking(cat, table, fields[1..])
  }

  /** Why the first field that cannot be added is refused. */
  function Obstacle(table: string, stable: bool, fields: seq<Field>): Option<MigrationError> {
    if fields == [] then None
    else if HasOption(fields[0], "compositekey") then Some(CompositeKeyMigrationUnsupported(table, fields[0].dbName))
    else if HasOption(fields[0], "tag") && !stable then Some(NotASupertable(table))
    else Obstacle(table, stable, fields[1..])
  }

  /** The fields before the first one that cannot be added. */
  function Before(stable: bool, fields: seq<Field>): seq<Field> {
    if fields == [] || !Addable(fields[0], stable) then [] else [fields[0]] + Before(stable, fields[1..])
  }

  /** There is an obstacle exactly if some field cannot be added. */
  lemma {:induction false} ObstacleInWords(table: string, stable: bool, fields: seq<Field>)
    ensures Obstacle(table, stable, fields).None? <==> forall f <- fields :: Addable(f, stable)
    ensures Obstacle(table, stable, fields).None? ==> Before(stable, fields) == fields
  {
    hide HasOption;
    if fields != [] {
      var (f, more) := (fields[0], fields[1..]);
      ObstacleInWords(table, stable, more);
      assert fields == [f] + more;
      assert (forall g <- fields :: Addable(g, stable)) <==>
             Addable(f, stable) && forall g <- more :: Addable(g, stable);
    }
  }

  lemma {:induction false} LackingInWords(cat: Catalog, table: string, fields: seq<Field>)
    ensures forall f :: f in Lacking(cat, table, fields) <==> f in fields && Lacks(cat, table, f)
  {
    hide Lacks;
    if fields != [] {
      LackingInWords(cat, table, fields[1..]);
      assert fields == [fields[0]] + fields[1..];
    }
  }

  /** The statement that adds a field: its definition, as a tag exactly if it is one, to the right kind of table. */
  predicate Adds(d: Ddl, table: string, stable: bool, f: Field) {
    && d.table == table && !d.CreateTable? && !d.CreateIndex?
    && d.column == Column(f.dbName, DataTypeOf(f), 0, HasOption(f, "compositekey"), "", "", "")
    && (d.AddStableTag? <==> HasOption(f, "tag"))
    && (d.AddStableColumn? <==> !HasOption(f, "tag") && stable)
    && (d.AddTableColumn? <==> !HasOption(f, "tag") && !stable)
  }

  lemma LacksIsUnsettled(cat: Catalog, table: string, f: Field)
    ensures Lacks(cat, table, f) <==> !Settled(cat, table, f)
  {
  }

  lemma AdditionAdds(table: string, stable: bool, f: Field)
    ensures Adds(Addition(table, stable, f), table, stable, f)
  {
    hide HasOption, DataTypeOf;
  }

  /** Adding one field leaves the others lacking or not. */
  lemma OthersStay(cat: Catalog, table: string, d: Ddl, f: Field, g: Field, stable: bool)
    requires table in cat.tables && Adds(d, table, stable, f) && !EqualFold(f.dbName, g.dbName)
    ensures table in Apply(cat, d).tables && (Lacks(Apply(cat, d), table, g) <==> Lacks(cat, table, g))
  {
    hide HasOption, DataTypeOf, EqualFold;
    var (a, b) := (cat.tables[table], Apply(cat, d).tables[table]);
    assert forall c <- a.columns + a.tags :: c in b.columns + b.tags;
    assert forall c <- b.columns + b.tags :: c in a.columns + a.tags || c == d.column;
  }

  lemma {:induction false} LackingAlike(a: Catalog, b: Catalog, table: string, fields: seq<Field>)
    requires forall f <- fields :: Lacks(a, table, f) <==> Lacks(b, table, f)
    ensures Lacking(a, table, fields) == Lacking(b, table, fields)
  {
    hide Lacks;
    if fields != [] {
      LackingAlike(a, b, table, fields[1..]);
    }
  }

  lemma DistinctRest(fields: seq<Field>)
    requires fields != [] && DistinctFields(fields)
    ensures DistinctFields(fields[1..])
    ensures IsMigrated(fields[0]) ==>
            forall g <- fields[1..] :: IsMigrated(g) ==> !EqualFold(fields[0].dbName, g.dbName)
  {
    hide EqualFold, IsMigrated;
    var more := fields[1..];
    assert forall i :: 0 <= i < |more| ==> more[i] == fields[i + 1];
  }

  /**
    The field loop sends one addition for each missing field, in order, up to the first one
    that cannot be added, and ends with that one's error.
   */
  lemma {:induction false} FieldPathSends(cat: Catalog, table: string, stable: bool, fields: seq<Field>)
    requires table in cat.tables && DistinctFields(fields)
    ensures var (path, lacking) := (FieldPath(cat, table, stable, fields), Lacking(cat, table, fields));
            && path.error == Obstacle(table, stable, lacking)
            && SendsAdditions(path.ddl, table, stable, Before(stable, lacking))
    decreases |fields|
  {
    hide HasOption, Apply, Lacks, Adds, Addition, EqualFold, DistinctFields;
    if fields != [] {
      var (f, more) := (fields[0], fields[1..]);
      FieldPathTurns(cat, table, stable, fields);
      LacksIsUnsettled(cat, table, f);
      DistinctRest(fields);
      if !Lacks(cat, table, f) {
        FieldPathSends(cat, table, stable, more);
        assert Lacking(cat, table, fields) == [] + Lacking(cat, table, more) == Lacking(cat, table, more);
      } else {
        assert Lacking(cat, table, fields)[1..] == Lacking(cat, table, more);
        if Addable(f, stable) {
          var d := Addition(table, stable, f);
          var next := Apply(cat, d);
          AdditionAdds(table, stable, f);
          MoreAlike(cat, table, stable, d, f, more);
          FieldPathSends(next, table, stable, more);
          LackingAlike(cat, next, table, more);
          var rest := FieldPath(next, table, stable, more).ddl;
          assert forall k :: 0 < k < |[d] + rest| ==> ([d] + rest)[k] == rest[k - 1];
        }
      }
    }
  }

  /** It ends without an error exactly if every missing field can be added, and then it adds all of them. */
  lemma FieldPathSucceeds(cat: Catalog, table: string, stable: bool, fields: seq<Field>)
    requires table in cat.tables && DistinctFields(fields)
    ensures var path := FieldPath(cat, table, stable, fields);
            && (path.ok <==> forall f <- fields :: Lacks(cat, table, f) ==> Addable(f, stable))
            && (path.ok ==> SendsAdditions(path.ddl, table, stable, Lacking(cat, table, fields)))
  {
    hide FieldPath, Lacks, Addable, Adds, DistinctFields;
    FieldPathSends(cat, table, stable, fields);
    LackingInWords(cat, table, fields);
    ObstacleInWords(table, stable, Lacking(cat, table, fields));
  }

  ghost predicate SendsAdditions(ddl: seq<Ddl>, table: string, stable: bool, fields: seq<Field>) {
    |ddl| == |fields| && forall k :: 0 <= k < |ddl| ==> Adds(ddl[k], table, stable, fields[k])
  }

  lemma MoreAlike(cat: Catalog, table: string, stable: bool, d: Ddl, f: Field, more: seq<Field>)
    requires table in cat.tables && Adds(d, table, stable, f)
    requires forall g <- more :: IsMigrated(g) ==> !EqualFold(f.dbName, g.dbName)
    ensures table in Apply(cat, d).tables
    ensures forall g <- more :: Lacks(cat, table, g) <==> Lacks(Apply(cat, d), table, g)
  {
    hide Adds, EqualFold;
    StaysIn(cat, d, table);
    forall g <- more ensures Lacks(cat, table, g) <==> Lacks(Apply(cat, d), table, g) {
      if IsMigrated(g) {
        OthersStay(cat, table, d, f, g, stable);
      }
    }
  }

  lemma StaysIn(cat: Catalog, d: Ddl, table: string)
    requires table in cat.tables
    ensures table in Apply(cat, d).tables
  {
  }

  // ----------------------------------------------------------------- the indexes

  ghost predicate Supertable(cat: Catalog, table: string) {
    table in cat.tables && cat.tables[table].kind == Super && !cat.tables[table].virtual
  }

  /** Why an index cannot be made. */
  ghost function NoSupertable(cat: Catalog, table: string): MigrationError {
    if table in cat.tables && cat.tables[table].virtual then VirtualTableUnsupported(table) else TagIndexOnly
  }

  /** Every index of the model is there, by name or on its tag. */
  ghost predicate Indexed(cat: Catalog, table: string, indexes: seq<Index>)
    requires forall i <- indexes :: IsTagIndex(i)
  {
    forall i <- indexes ::
      table in cat.tables
      && exists e <- cat.tables[table].indexes :: e.name == i.name || e.column == IndexColumn(i)
  }

  /** The index loop ends without an error exactly on a physical supertable, or if nothing is missing. */
  lemma {:induction false} IndexPathSucceeds(cat: Catalog, table: string, schema: Schema, indexes: seq<Index>)
    requires (forall i <- schema.indexes :: IsTagIndex(i)) && forall i <- indexes :: i in schema.indexes
    ensures IndexPath(cat, table, schema, indexes).ok <==> Supertable(cat, table) || Indexed(cat, table, indexes)
    ensures !IndexPath(cat, table, schema, indexes).ok ==>
              IndexPath(cat, table, schema, indexes).error == Some(NoSupertable(cat, table))
    decreases |indexes|
  {
    hide IsTagIndex, LookIndex;
    if indexes != [] {
      var (index, more) := (indexes[0], indexes[1..]);
      assert indexes == [index] + more && index in indexes;
      IndexPathTurns(cat, table, schema, indexes);
      NamedIndexIsFound(schema.indexes, index);
      if HasIndex(cat, table, index.name, IndexColumn(index)) {
        IndexPathSucceeds(cat, table, schema, more);
      } else if Supertable(cat, table) {
        var d := IndexStatement(table, LookIndex(schema.indexes, index.name).value);
        assert Supertable(Apply(cat, d), table);
        IndexPathSucceeds(Apply(cat, d), table, schema, more);
      }
    }
  }

  // ------------------------------------------------------------------- one model

  /** Columns leave a table's kind and its indexes alone. */
  lemma {:induction false} ColumnsKeepIndexes(cat: Catalog, table: string, log: seq<Ddl>)
    requires table in cat.tables
    requires forall d <- log :: d.AddStableColumn? || d.AddTableColumn? || d.AddStableTag?
    ensures var next := ApplyAll(cat, log);
            && table in next.tables && next.tables[table].kind == cat.tables[table].kind
            && next.tables[table].virtual == cat.tables[table].virtual
            && next.tables[table].indexes == cat.tables[table].indexes
    decreases |log|
  {
    if log != [] {
      assert log[0] in log;
      ColumnsKeepIndexes(Apply(cat, log[0]), table, log[1..]);
    }
  }

  /** What CreateTable needs: a valid model, and a supertable for its indexes unless they are there. */
  ghost predicate Creatable(cat: Catalog, m: Model) {
    && m.schema.Some? && Valid(m.schema.value)
    && if m.table in cat.tables then Supertable(cat, m.table) || Indexed(cat, m.table, m.schema.value.indexes)
       else TagColumns(m.schema.value) != [] || m.schema.value.indexes == []
  }

  /** What AutoMigrate needs: on an existing table, a physical one to which every missing field can be added. */
  ghost predicate Migratable(cat: Catalog, m: Model) {
    && Creatable(cat, m)
    && (m.table in cat.tables ==>
          && !cat.tables[m.table].virtual
          && forall f <- m.schema.value.fields ::
               Lacks(cat, m.table, f) ==> Addable(f, cat.tables[m.table].kind == Super))
  }

  /** The error of CreateTable on a given catalog. */
  ghost function CreateObstacle(cat: Catalog, m: Model): Option<MigrationError> {
    if m.schema.None? || !Valid(m.schema.value) then Some(Invalidity(m))
    else if Creatable(cat, m) then None
    else Some(NoSupertable(cat, m.table))
  }

  /** The error of AutoMigrate on a given catalog: validation, a virtual table, a field, an index, in this order. */
  ghost function MigrateObstacle(cat: Catalog, m: Model): Option<MigrationError> {
    if m.table !in cat.tables || m.schema.None? || !Valid(m.schema.value) then CreateObstacle(cat, m)
    else if cat.tables[m.table].virtual then Some(VirtualTableUnsupported(m.table))
    else
      var lacking := Lacking(cat, m.table, m.schema.value.fields);
      var obstacle := Obstacle(m.table, cat.tables[m.table].kind == Super, lacking);
      if obstacle.Some? then obstacle else if Creatable(cat, m) then None else Some(TagIndexOnly)
  }

  lemma CreatePathSucceeds(cat: Catalog, m: Model)
    ensures CreatePath(cat, m).ok <==> Creatable(cat, m)
    ensures CreatePath(cat, m).error == CreateObstacle(cat, m)
  {
    hide Valid, IndexPath, IsTagIndex, DataColumns, TagColumns;
    if m.schema.Some? && Valid(m.schema.value) {
      var schema := m.schema.value;
      ValidIndexes(schema);
      var d := CreateTable(m.table, true, DataColumns(schema), TagColumns(schema));
      IndexPathSucceeds(Apply(cat, d), m.table, schema, schema.indexes);
      if m.table !in cat.tables {
        NewTableIndexes(cat, d, schema.indexes);
      }
    }
  }

  lemma NewTableIndexes(cat: Catalog, d: Ddl, indexes: seq<Index>)
    requires d.CreateTable? && d.table !in cat.tables && forall i <- indexes :: IsTagIndex(i)
    ensures Supertable(Apply(cat, d), d.table) <==> d.tags != []
    ensures NoSupertable(Apply(cat, d), d.table) == TagIndexOnly
    ensures d.tags == [] ==> (Indexed(Apply(cat, d), d.table, indexes) <==> indexes == [])
  {
    hide IsTagIndex;
    if d.tags == [] && indexes != [] {
      assert indexes[0] in indexes;
    }
  }

  /** A model's migration ends without an error exactly if the model is migratable. */
  lemma ModelPathSucceeds(cat: Catalog, m: Model)
    requires m.schema.Some? ==> DistinctFields(m.schema.value.fields)
    ensures ModelPath(cat, m).ok <==> Migratable(cat, m)
    ensures ModelPath(cat, m).error == MigrateObstacle(cat, m)
  {
    hide Valid, IndexPath, FieldPath, IsTagIndex, Lacks, Addable, Indexed, Invalidity, Obstacle;
    if m.table !in cat.tables {
      CreatePathSucceeds(cat, m);
    } else if m.schema.Some? && Valid(m.schema.value) && !IsVirtual(cat, m.table) {
      var schema := m.schema.value;
      ValidIndexes(schema);
      var fields := FieldPath(cat, m.table, IsStable(cat, m.table), schema.fields);
      var next := ApplyAll(cat, fields.ddl);
      FieldPathSucceeds(cat, m.table, IsStable(cat, m.table), schema.fields);
      FieldPathSends(cat, m.table, IsStable(cat, m.table), schema.fields);
      FieldPathAddsColumns(cat, m.table, IsStable(cat, m.table), schema.fields);
      ColumnsKeepIndexes(cat, m.table, fields.ddl);
      IndexPathSucceeds(next, m.table, schema, schema.indexes);
      IndexedAlike(cat, next, m.table, schema.indexes);
    }
  }

  lemma IndexedAlike(a: Catalog, b: Catalog, table: string, indexes: seq<Index>)
    requires table in a.tables && table in b.tables && a.tables[table].indexes == b.tables[table].indexes
    requires forall i <- indexes :: IsTagIndex(i)
    ensures Indexed(a, table, indexes) <==> Indexed(b, table, indexes)
  {
    hide IsTagIndex;
  }

  // -------------------------------------------------------------- several models

  /** ReorderModels hands over every table once. */
  ghost predicate DistinctTables(models: seq<Model>) {
    forall i, j :: 0 <= i < j < |models| ==> models[i].table != models[j].table
  }

  ghost predicate DistinctModels(models: seq<Model>) {
    DistinctTables(models) && forall m <- models :: m.schema.Some? ==> DistinctFields(m.schema.value.fields)
  }

  lemma {:induction false} FieldPathStays(cat: Catalog, table: string, stable: bool, fields: seq<Field>)
    ensures forall d <- FieldPath(cat, table, stable, fields).ddl :: d.table == table
    decreases |fields|
  {
    hide Apply, Settled, IsKeyField, IsTag;
    if fields != [] {
      FieldPathTurns(cat, table, stable, fields);
      FieldPathStays(cat, table, stable, fields[1..]);
      FieldPathStays(Apply(cat, Addition(table, stable, fields[0])), table, stable, fields[1..]);
    }
  }

  lemma {:induction false} IndexPathStays(cat: Catalog, table: string, schema: Schema, indexes: seq<Index>)
    requires (forall i <- schema.indexes :: IsTagIndex(i)) && forall i <- indexes :: IsTagIndex(i)
    ensures forall d <- IndexPath(cat, table, schema, indexes).ddl :: d.table == table
    decreases |indexes|
  {
    hide Apply, LookIndex, IsVirtual, IsStable, IsTagIndex, HasIndex;
    if indexes != [] {
      IndexPathTurns(cat, table, schema, indexes);
      var found := LookIndex(schema.indexes, indexes[0].name);
      IndexPathStays(cat, table, schema, indexes[1..]);
      if found.Some? {
        IndexPathStays(Apply(cat, IndexStatement(table, found.value)), table, schema, indexes[1..]);
      }
    }
  }

  /** Every statement of a model's plan is about its table. */
  lemma PathStays(cat: Catalog, m: Model)
    ensures forall d <- CreatePath(cat, m).ddl :: d.table == m.table
    ensures forall d <- MigratePath(cat, m).ddl :: d.table == m.table
  {
    hide Valid, IndexPath, FieldPath, Apply, ApplyAll, DataColumns, TagColumns;
    if m.schema.Some? && Valid(m.schema.value) {
      var schema := m.schema.value;
      ValidIndexes(schema);
      var d := CreateTable(m.table, true, DataColumns(schema), TagColumns(schema));
      IndexPathStays(Apply(cat, d), m.table, schema, schema.indexes);
      var fields := FieldPath(cat, m.table, IsStable(cat, m.table), schema.fields);
      FieldPathStays(cat, m.table, IsStable(cat, m.table), schema.fields);
      IndexPathStays(ApplyAll(cat, fields.ddl), m.table, schema, schema.indexes);
    }
  }

  lemma {:induction false} OtherTablesStay(cat: Catalog, table: string, other: string, log: seq<Ddl>)
    requires other != table && forall d <- log :: d.table == table
    ensures var next := ApplyAll(cat, log);
            && (other in next.tables <==> other in cat.tables)
            && (other in cat.tables ==> next.tables[other] == cat.tables[other])
    decreases |log|
  {
    if log != [] {
      OtherTablesStay(Apply(cat, log[0]), table, other, log[1..]);
    }
  }

  /** Both conditions look at the model's own table only. */
  lemma ConditionsAreLocal(a: Catalog, b: Catalog, m: Model)
    requires m.table in a.tables <==> m.table in b.tables
    requires m.table in a.tables ==> a.tables[m.table] == b.tables[m.table]
    ensures (Creatable(a, m) <==> Creatable(b, m)) && (Migratable(a, m) <==> Migratable(b, m))
    ensures CreateObstacle(a, m) == CreateObstacle(b, m) && MigrateObstacle(a, m) == MigrateObstacle(b, m)
  {
    hide Valid, IsTagIndex, Addable, TagColumns, Invalidity, Obstacle;
    if m.schema.Some? && Valid(m.schema.value) {
      ValidIndexes(m.schema.value);
      forall f: Field ensures Lacks(a, m.table, f) <==> Lacks(b, m.table, f) {
      }
      hide Lacks;
      if m.table in a.tables {
        IndexedAlike(a, b, m.table, m.schema.value.indexes);
        LackingAlike(a, b, m.table, m.schema.value.fields);
      }
    }
  }

  /** Both conditions and both errors of a model are the same on two catalogs. */
  ghost predicate Alike(a: Catalog, b: Catalog, m: Model) {
    && (Creatable(a, m) <==> Creatable(b, m)) && (Migratable(a, m) <==> Migratable(b, m))
    && CreateObstacle(a, m) == CreateObstacle(b, m) && MigrateObstacle(a, m) == MigrateObstacle(b, m)
  }

  lemma RestIsDistinct(m: Model, more: seq<Model>)
    requires DistinctModels([m] + more)
    ensures DistinctModels(more) && forall x <- more :: x.table != m.table
  {
    hide DistinctFields;
    var all := [m] + more;
    assert forall k :: 0 <= k < |more| ==> all[k + 1] == more[k];
    forall x <- more ensures x.table != m.table && x in all {
      var k :| 0 <= k < |more| && more[k] == x;
      assert all[k + 1] == x && all[0].table != all[k + 1].table;
    }
  }

  /** What one model did changes nothing for the models of other tables. */
  lemma RestAlike(cat: Catalog, m: Model, more: seq<Model>, log: seq<Ddl>)
    requires (forall x <- more :: x.table != m.table) && forall d <- log :: d.table == m.table
    ensures forall x <- more :: Alike(cat, ApplyAll(cat, log), x)
  {
    hide Alike, Apply, ApplyAll;
    forall x <- more ensures Alike(cat, ApplyAll(cat, log), x) {
      OneAlike(cat, m.table, x, log);
    }
  }

  lemma OneAlike(cat: Catalog, table: string, x: Model, log: seq<Ddl>)
    requires x.table != table && forall d <- log :: d.table == table
    ensures Alike(cat, ApplyAll(cat, log), x)
  {
    hide Migratable, Creatable, CreateObstacle, MigrateObstacle, Apply, ApplyAll;
    OtherTablesStay(cat, table, x.table, log);
    ConditionsAreLocal(cat, ApplyAll(cat, log), x);
  }

  /** The error of the first model that has one. */
  ghost function FirstObstacle(cat: Catalog, models: seq<Model>, create: bool): Option<MigrationError> {
    if models == [] then None else
      var obstacle := if create then CreateObstacle(cat, models[0]) else MigrateObstacle(cat, models[0]);
      if obstacle.Some? then obstacle else FirstObstacle(cat, models[1..], create)
  }

  lemma {:induction false} FirstObstacleAlike(a: Catalog, b: Catalog, models: seq<Model>, create: bool)
    requires forall m <- models :: Alike(a, b, m)
    ensures FirstObstacle(a, models, create) == FirstObstacle(b, models, create)
  {
    hide CreateObstacle, MigrateObstacle, Creatable, Migratable;
    if models != [] {
      assert models[0] in models;
      FirstObstacleAlike(a, b, models[1..], create);
    }
  }

  /** A run ends without an error exactly if every model is migratable on the catalog it starts from. */
  lemma {:induction false} RunPathSucceeds(cat: Catalog, models: seq<Model>)
    requires DistinctModels(models)
    ensures RunPath(cat, models).ok <==> forall m <- models :: Migratable(cat, m)
    ensures RunPath(cat, models).error == FirstObstacle(cat, models, false)
    decreases |models|
  {
    hide CreateObstacle, MigrateObstacle, Migratable, ModelPath, DistinctFields, CreatePath, MigratePath;
    if models != [] {
      var (m, more) := (models[0], models[1..]);
      assert models == [m] + more && m in models;
      var path := ModelPath(cat, m);
      ModelPathSucceeds(cat, m);
      ModelPathStays(cat, m);
      RestIsDistinct(m, more);
      RestAlike(cat, m, more, path.ddl);
      RunPathSucceeds(ApplyAll(cat, path.ddl), more);
      FirstObstacleAlike(cat, ApplyAll(cat, path.ddl), more, false);
    }
  }

  lemma ModelPathStays(cat: Catalog, m: Model)
    ensures forall d <- ModelPath(cat, m).ddl :: d.table == m.table
  {
    hide CreatePath, MigratePath;
    PathStays(cat, m);
  }

  /** The same for CreateTable. */
  lemma {:induction false} CreateRunSucceeds(cat: Catalog, models: seq<Model>)
    requires DistinctModels(models)
    ensures CreateRunPath(cat, models).ok <==> forall m <- models :: Creatable(cat, m)
    ensures CreateRunPath(cat, models).error == FirstObstacle(cat, models, true)
    decreases |models|
  {
    hide CreateObstacle, MigrateObstacle, Creatable, DistinctFields, CreatePath, MigratePath;
    if models != [] {
      var (m, more) := (models[0], models[1..]);
      assert models == [m] + more && m in models;
      var path := CreatePath(cat, m);
      CreatePathSucceeds(cat, m);
      PathStays(cat, m);
      RestIsDistinct(m, more);
      RestAlike(cat, m, more, path.ddl);
      CreateRunSucceeds(ApplyAll(cat, path.ddl), more);
      FirstObstacleAlike(cat, ApplyAll(cat, path.ddl), more, true);
    }
  }

  // -------------------------------------------------------------------- one field

  /** What AddColumn needs: a known field that is ignored or may be added in its role. */
  predicate ColumnAddable(cat: Catalog, m: Model, name: string) {
    && m.schema.Some? && LookUpField(m.schema.value.fields, name).Some?
    && var f := LookUpField(m.schema.value.fields, name).value;
    f.ignoreMigration
    || (&& (m.table in cat.tables ==> !cat.tables[m.table].virtual)
        && Addable(f, m.table in cat.tables && cat.tables[m.table].kind == Super)
        && (if HasOption(f, "tag") then BaseType(DataTypeOf(f)) != "DECIMAL" && BaseType(DataTypeOf(f)) != "BLOB"
            else BaseType(DataTypeOf(f)) != "JSON"))
  }

  /** AddColumn's errors, in the order of its checks. */
  function ColumnObstacle(cat: Catalog, m: Model, name: string): Option<MigrationError> {
    if m.schema.None? then Some(SchemaMissing)
    else if LookUpField(m.schema.value.fields, name).None? then Some(FieldNotFound(name))
    else
      var f := LookUpField(m.schema.value.fields, name).value;
      var type_ := BaseType(DataTypeOf(f));
      if ColumnAddable(cat, m, name) then None
      else if m.table in cat.tables && cat.tables[m.table].virtual then Some(VirtualTableUnsupported(m.table))
      else if HasOption(f, "compositekey") then Some(CompositeKeyMigrationUnsupported(m.table, f.dbName))
      else if !HasOption(f, "tag") then Some(JSONMustBeTag(f.dbName))
      else if type_ == "DECIMAL" || type_ == "BLOB" then Some(UnsupportedTagType(f.dbName))
      else Some(NotASupertable(m.table))
  }

  /** AddColumn ends without an error exactly then, and it sends that field's addition unless the field is ignored. */
  lemma ColumnPathSucceeds(cat: Catalog, m: Model, name: string)
    ensures ColumnPath(cat, m, name).ok <==> ColumnAddable(cat, m, name)
    ensures ColumnPath(cat, m, name).error == ColumnObstacle(cat, m, name)
    ensures ColumnAddable(cat, m, name) ==>
            var (path, f) := (ColumnPath(cat, m, name), LookUpField(m.schema.value.fields, name).value);
            if f.ignoreMigration then path.ddl == []
            else SendsAdditions(path.ddl, m.table, IsStable(cat, m.table), [f])
  {
    hide LookUpField, BaseType, DataTypeOf, HasOption;
    if ColumnAddable(cat, m, name) {
      AdditionAdds(m.table, IsStable(cat, m.table), LookUpField(m.schema.value.fields, name).value);
    }
  }

  /** An accepted addition was not there before, and is the last column or the last tag afterwards. */
  lemma AdditionArrives(cat: Catalog, d: Ddl, table: string, stable: bool, f: Field)
    requires Adds(d, table, stable, f) && Accepts(cat, d)
    ensures table in cat.tables && table in Apply(cat, d).tables
    ensures var (a, b, c) := (cat.tables[table], Apply(cat, d).tables[table],
                              Column(f.dbName, DataTypeOf(f), 0, HasOption(f, "compositekey"), "", "", ""));
            && (forall x <- a.columns + a.tags :: !EqualFold(x.name, f.dbName))
            && b.columns == a.columns + (if HasOption(f, "tag") then [] else [c])
            && b.tags == a.tags + (if HasOption(f, "tag") then [c] else [])
  {
    hide HasOption, DataTypeOf, EqualFold;
    var a := cat.tables[table];
    assert a.columns + [] == a.columns && a.tags + [] == a.tags;
    assert forall x <- a.columns + a.tags :: !Named(x, f.dbName);
  }
}
