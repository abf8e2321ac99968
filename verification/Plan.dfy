/**
  What a migration is meant to send, as pure functions of the catalog, and the laws of
  these plans: they complete the model, they are empty on a complete catalog, and they
  never give a tag a second index.
 */
module Plan {
  import opened Common
  import opened Column
  import opened Schema
  import opened Catalog

  /** Statements in order, and the error with which the operation would end after them, if any. */
  datatype Path = Path(ddl: seq<Ddl>, error: Option<MigrationError>) {
    const ok: bool := error.None?
  }

  const DONE := Path([], None)

  function Refused(error: MigrationError): Path { Path([], Some(error)) }

  function IsKeyField(field: Field): bool { HasOption(field, "compositekey") }

  function Addition(table: string, stable: bool, field: Field): Ddl {
    if IsTag(field) then AddStableTag(table, ColumnDefinition(field))
    else if stable then AddStableColumn(table, ColumnDefinition(field))
    else AddTableColumn(table, ColumnDefinition(field))
  }

  /** Nothing to do for this field. */
  predicate Settled(cat: Catalog, table: string, field: Field) {
    !IsMigrated(field) || HasColumn(cat, table, field.dbName)
  }

  /** One turn of the field loop. */
  function FieldTurn(cat: Catalog, table: string, stable: bool, field: Field): Path {
    if Settled(cat, table, field) then DONE
    else if IsKeyField(field) then Refused(CompositeKeyMigrationUnsupported(table, field.dbName))
    else if IsTag(field) && !stable then Refused(NotASupertable(table))
    else Path([Addition(table, stable, field)], None)
  }

  /** The field loop of AutoMigrate. */
  function FieldPath(cat: Catalog, table: string, stable: bool, fields: seq<Field>): Path
    decreases |fields|
  {
    if fields == [] then DONE else
      var turn := FieldTurn(cat, table, stable, fields[0]);
      Then(turn, FieldPath(ApplyAll(cat, turn.ddl), table, stable, fields[1..]))
  }

  /** The index that CreateIndex makes for a name. */
  function IndexStatement(table: string, index: Index): Ddl
    requires IsTagIndex(index)
  {
    CreateIndex(index.name, table, IndexColumn(index))
  }

  /** One turn of createMissingIndexes. CreateIndex looks the index up again by its name. */
  function IndexTurn(cat: Catalog, table: string, schema: Schema, index: Index): Path
    requires IsTagIndex(index) && forall i <- schema.indexes :: IsTagIndex(i)
  {
    var found := LookIndex(schema.indexes, index.name);
    if found.None? then Refused(IndexNotFound(index.name))
    else if HasIndex(cat, table, index.name, IndexColumn(index)) then DONE
    else if IsVirtual(cat, table) then Refused(VirtualTableUnsupported(table))
    else if !IsStable(cat, table) then Refused(TagIndexOnly)
    else Path([IndexStatement(table, found.value)], None)
  }

  /** createMissingIndexes. */
  function IndexPath(cat: Catalog, table: string, schema: Schema, indexes: seq<Index>): Path
    requires forall i <- schema.indexes :: IsTagIndex(i)
    requires forall i <- indexes :: IsTagIndex(i)
    decreases |indexes|
  {
    if indexes == [] then DONE else
      assert indexes[0] in indexes;
      var turn := IndexTurn(cat, table, schema, indexes[0]);
      Then(turn, IndexPath(ApplyAll(cat, turn.ddl), table, schema, indexes[1..]))
  }

  function Then(first: Path, rest: Path): Path {
    if first.ok then Path(first.ddl + rest.ddl, rest.error) else first
  }

  /** CreateTable for one model. */
  ghost function CreatePath(cat: Catalog, m: Model): Path {
    if m.schema.None? || !Valid(m.schema.value) then Refused(Invalidity(m)) else
      var d := CreateTable(m.table, true, DataColumns(m.schema.value), TagColumns(m.schema.value));
      Then(Path([d], None), IndexPath(Apply(cat, d), m.table, m.schema.value, m.schema.value.indexes))
  }

  /** AutoMigrate for one model whose table it found. */
  ghost function MigratePath(cat: Catalog, m: Model): Path {
    if m.schema.None? || !Valid(m.schema.value) then Refused(Invalidity(m))
    else if IsVirtual(cat, m.table) then Refused(VirtualTableUnsupported(m.table))
    else
      var fields := FieldPath(cat, m.table, IsStable(cat, m.table), m.schema.value.fields);
      Then(fields, IndexPath(ApplyAll(cat, fields.ddl), m.table, m.schema.value, m.schema.value.indexes))
  }

  /** CreateTable for a list of models. */
  ghost function CreateRunPath(cat: Catalog, models: seq<Model>): Path
    decreases |models|
  {
    if models == [] then DONE else
      var path := CreatePath(cat, models[0]);
      Then(path, CreateRunPath(ApplyAll(cat, path.ddl), models[1..]))
  }

  /** AddColumn for one field of a model. */
  function ColumnPath(cat: Catalog, m: Model, name: string): Path {
    if m.schema.None? then Refused(SchemaMissing)
    else if LookUpField(m.schema.value.fields, name).None? then Refused(FieldNotFound(name))
    else
      var field := LookUpField(m.schema.value.fields, name).value;
      if field.ignoreMigration then DONE
      else if IsVirtual(cat, m.table) then Refused(VirtualTableUnsupported(m.table))
      else if IsKeyField(field) then Refused(CompositeKeyMigrationUnsupported(m.table, field.dbName))
      else if PlacementError(ColumnDefinition(field), IsTag(field)).Some? then
        Path([], PlacementError(ColumnDefinition(field), IsTag(field)))
      else if IsTag(field) && !IsStable(cat, m.table) then Refused(NotASupertable(m.table))
      else Path([Addition(m.table, IsStable(cat, m.table), field)], None)
  }

  ghost function ModelPath(cat: Catalog, m: Model): Path {
    if m.table in cat.tables then MigratePath(cat, m) else CreatePath(cat, m)
  }

  /** AutoMigrate for a list of models, when every query is answered. */
  ghost function RunPath(cat: Catalog, models: seq<Model>): Path
    decreases |models|
  {
    if models == [] then DONE else
      var path := ModelPath(cat, models[0]);
      Then(path, RunPath(ApplyAll(cat, path.ddl), models[1..]))
  }

  // ------------------------------------------------------------- turns of the loops

  lemma OneStatement(cat: Catalog, d: Ddl)
    ensures ApplyAll(cat, [d]) == Apply(cat, d) && ApplyAll(cat, []) == cat
  {
    hide Apply;
    assert ApplyAll(cat, [d]) == ApplyAll(Apply(cat, d), []);
  }

  lemma AfterTurn(cat: Catalog, turn: Path, rest: Path)
    ensures turn == DONE ==> Then(turn, rest) == rest && ApplyAll(cat, turn.ddl) == cat
    ensures !turn.ok ==> Then(turn, rest) == turn
  {
    var nothing: seq<Ddl> := [];
    assert nothing + rest.ddl == rest.ddl;
  }

  /** The field loop, turn by turn. */
  lemma FieldPathTurns(cat: Catalog, table: string, stable: bool, fields: seq<Field>)
    requires fields != []
    ensures var turn := FieldTurn(cat, table, stable, fields[0]);
            FieldPath(cat, table, stable, fields) ==
            if turn == DONE then FieldPath(cat, table, stable, fields[1..])
            else if !turn.ok then turn
            else
              var d := Addition(table, stable, fields[0]);
              var rest := FieldPath(Apply(cat, d), table, stable, fields[1..]);
              Path([d] + rest.ddl, rest.error)
  {
    hide Apply, Settled, IsKeyField, IsTag, Addition;
    var turn := FieldTurn(cat, table, stable, fields[0]);
    OneStatement(cat, Addition(table, stable, fields[0]));
    AfterTurn(cat, turn, FieldPath(ApplyAll(cat, turn.ddl), table, stable, fields[1..]));
  }

  /** The index loop, turn by turn. */
  lemma IndexPathTurns(cat: Catalog, table: string, schema: Schema, indexes: seq<Index>)
    requires indexes != [] && (forall i <- schema.indexes :: IsTagIndex(i)) && forall i <- indexes :: IsTagIndex(i)
    ensures IsTagIndex(indexes[0]) && forall i <- indexes[1..] :: IsTagIndex(i)
    ensures var turn := IndexTurn(cat, table, schema, indexes[0]);
            IndexPath(cat, table, schema, indexes) ==
            if turn == DONE then IndexPath(cat, table, schema, indexes[1..])
            else if !turn.ok then turn
            else
              var d := IndexStatement(table, LookIndex(schema.indexes, indexes[0].name).value);
              var rest := IndexPath(Apply(cat, d), table, schema, indexes[1..]);
              Path([d] + rest.ddl, rest.error)
  {
    hide Apply, HasIndex, IsVirtual, IsStable, LookIndex, IsTagIndex;
    assert indexes[0] in indexes;
    var turn := IndexTurn(cat, table, schema, indexes[0]);
    if turn.ddl != [] {
      OneStatement(cat, turn.ddl[0]);
    }
    AfterTurn(cat, turn, IndexPath(ApplyAll(cat, turn.ddl), table, schema, indexes[1..]));
  }

  // ---------------------------------------------------------------- completeness

  ghost predicate FieldsPresent(cat: Catalog, table: string, fields: seq<Field>) {
    forall f <- fields :: Settled(cat, table, f)
  }

  ghost predicate IndexesPresent(cat: Catalog, table: string, indexes: seq<Index>)
    requires forall i <- indexes :: IsTagIndex(i)
  {
    forall i <- indexes :: HasIndex(cat, table, i.name, IndexColumn(i))
  }

  /** The catalog has everything the model asks for. */
  ghost predicate Complete(cat: Catalog, m: Model) {
    && m.schema.Some? && Valid(m.schema.value)
    && m.table in cat.tables && !IsVirtual(cat, m.table)
    && FieldsPresent(cat, m.table, m.schema.value.fields)
    && IndexesPresent(cat, m.table, m.schema.value.indexes)
  }

  /** What CreateIndex finds under an index's name carries that name or is on the same tag. */
  predicate Resolves(indexes: seq<Index>, index: Index)
    requires IsTagIndex(index) && forall i <- indexes :: IsTagIndex(i)
  {
    var found := LookIndex(indexes, index.name);
    found.Some? && (found.value.name == index.name || IndexColumn(found.value) == IndexColumn(index))
  }

  /** What CreateIndex finds under an index's name is on the same tag. */
  predicate ResolvesToTag(indexes: seq<Index>, index: Index)
    requires IsTagIndex(index) && forall i <- indexes :: IsTagIndex(i)
  {
    var found := LookIndex(indexes, index.name);
    found.Some? && IndexColumn(found.value) == IndexColumn(index)
  }

  ghost predicate AllResolve(indexes: seq<Index>)
    requires forall i <- indexes :: IsTagIndex(i)
  {
    forall i <- indexes :: Resolves(indexes, i)
  }

  ghost predicate AllResolveToTags(indexes: seq<Index>)
    requires forall i <- indexes :: IsTagIndex(i)
  {
    forall i <- indexes :: ResolvesToTag(indexes, i)
  }

  /** The index names of a valid model resolve. */
  ghost predicate Resolving(m: Model) {
    m.schema.Some? && Valid(m.schema.value) ==> AllResolve(m.schema.value.indexes)
  }

  lemma AdditionIsPresent(cat: Catalog, table: string, stable: bool, field: Field)
    requires table in cat.tables
    ensures HasColumn(Apply(cat, Addition(table, stable, field)), table, field.dbName)
  {
    hide IsTag, DataTypeOf, HasOption;
    var c := ColumnDefinition(field);
    var info := Apply(cat, Addition(table, stable, field)).tables[table];
    assert c in info.columns + info.tags;
    assert Named(c, field.dbName);
  }

  lemma {:induction false} FieldPathCompletes(cat: Catalog, table: string, stable: bool, fields: seq<Field>)
    requires table in cat.tables && FieldPath(cat, table, stable, fields).ok
    ensures FieldsPresent(ApplyAll(cat, FieldPath(cat, table, stable, fields).ddl), table, fields)
    decreases |fields|
  {
    hide Apply, HasColumn, IsMigrated, IsTag, Addition, IsKeyField, Extends;
    if fields != [] {
      var f, more := fields[0], fields[1..];
      assert fields == [f] + more;
      var path := FieldPath(cat, table, stable, fields);
      var end := ApplyAll(cat, path.ddl);
      FieldPathTurns(cat, table, stable, fields);
      FieldPathAddsColumns(cat, table, stable, fields);
      RunsOnlyAdd(cat, path.ddl);
      if Settled(cat, table, f) {
        FieldPathCompletes(cat, table, stable, more);
        QueriesAreMonotone(cat, end, table, f.dbName, "");
      } else {
        var d := Addition(table, stable, f);
        var next := Apply(cat, d);
        AdditionIsPresent(cat, table, stable, f);
        StatementsOnlyAdd(cat, d);
        StaysThere(cat, next, table);
        FieldPathCompletes(next, table, stable, more);
        var rest := FieldPath(next, table, stable, more).ddl;
        assert path.ddl[1..] == rest;
        assert end == ApplyAll(next, rest);
        FieldPathAddsColumns(next, table, stable, more);
        RunsOnlyAdd(next, rest);
        QueriesAreMonotone(next, end, table, f.dbName, "");
      }
    }
  }

  lemma StaysThere(a: Catalog, b: Catalog, table: string)
    requires Extends(a, b) && table in a.tables
    ensures table in b.tables
  {
  }

  lemma {:induction false} FieldPathIsIdle(cat: Catalog, table: string, stable: bool, fields: seq<Field>)
    requires FieldsPresent(cat, table, fields)
    ensures FieldPath(cat, table, stable, fields) == DONE
    decreases |fields|
  {
    hide Settled;
    if fields != [] {
      assert fields[0] in fields;
      FieldPathIsIdle(cat, table, stable, fields[1..]);
    }
  }

  lemma {:induction false} IndexPathCompletes(cat: Catalog, table: string, schema: Schema, indexes: seq<Index>)
    requires forall i <- schema.indexes :: IsTagIndex(i)
    requires forall i <- indexes :: IsTagIndex(i) && Resolves(schema.indexes, i)
    requires IndexPath(cat, table, schema, indexes).ok
    ensures IndexesPresent(ApplyAll(cat, IndexPath(cat, table, schema, indexes).ddl), table, indexes)
    decreases |indexes|
  {
    hide Apply, HasIndex, IsTagIndex, LookIndex, Extends, IsVirtual, IsStable;
    if indexes != [] {
      var index, more := indexes[0], indexes[1..];
      assert indexes == [index] + more && index in indexes;
      var path := IndexPath(cat, table, schema, indexes);
      var end := ApplyAll(cat, path.ddl);
      IndexPathTurns(cat, table, schema, indexes);
      IndexPathAddsIndexes(cat, table, schema, indexes);
      RunsOnlyAdd(cat, path.ddl);
      if HasIndex(cat, table, index.name, IndexColumn(index)) {
        IndexPathCompletes(cat, table, schema, more);
        QueriesAreMonotone(cat, end, table, "", "");
        IndexIsMonotone(cat, end, table, index);
      } else {
        var found := LookIndex(schema.indexes, index.name).value;
        var d := IndexStatement(table, found);
        var next := Apply(cat, d);
        IndexIsMade(cat, table, found, index);
        IndexPathCompletes(next, table, schema, more);
        var rest := IndexPath(next, table, schema, more).ddl;
        assert path.ddl[1..] == rest;
        assert end == ApplyAll(next, rest);
        IndexPathAddsIndexes(next, table, schema, more);
        RunsOnlyAdd(next, rest);
        IndexIsMonotone(next, end, table, index);
      }
    }
  }

  lemma IndexIsMonotone(a: Catalog, b: Catalog, table: string, index: Index)
    requires Extends(a, b) && IsTagIndex(index) && HasIndex(a, table, index.name, IndexColumn(index))
    ensures HasIndex(b, table, index.name, IndexColumn(index))
  {
    hide HasIndex, Extends;
    QueriesAreMonotone(a, b, table, index.name, IndexColumn(index));
  }

  lemma IndexIsMade(cat: Catalog, table: string, made: Index, index: Index)
    requires IsTagIndex(made) && IsTagIndex(index) && IsStable(cat, table)
    requires made.name == index.name || IndexColumn(made) == IndexColumn(index)
    ensures HasIndex(Apply(cat, IndexStatement(table, made)), table, index.name, IndexColumn(index))
  {
    hide IsTagIndex;
    var info := Apply(cat, IndexStatement(table, made)).tables[table];
    assert IndexInfo(made.name, IndexColumn(made)) in info.indexes;
  }

  lemma {:induction false} IndexPathIsIdle(cat: Catalog, table: string, schema: Schema, indexes: seq<Index>)
    requires forall i <- schema.indexes :: IsTagIndex(i)
    requires forall i <- indexes :: IsTagIndex(i) && LookIndex(schema.indexes, i.name).Some?
    requires IndexesPresent(cat, table, indexes)
    ensures IndexPath(cat, table, schema, indexes) == DONE
    decreases |indexes|
  {
    hide HasIndex, LookIndex, IsTagIndex, IsVirtual, IsStable;
    if indexes != [] {
      assert indexes[0] in indexes;
      IndexPathIsIdle(cat, table, schema, indexes[1..]);
    }
  }

  lemma {:induction false} NamedIndexIsFound(indexes: seq<Index>, index: Index)
    requires index in indexes
    ensures LookIndex(indexes, index.name).Some?
  {
    if indexes[0] != index {
      NamedIndexIsFound(indexes[1..], index);
    }
  }

  /** On a complete catalog there is nothing to do, and nothing to complain about. */
  lemma CompleteIsIdle(cat: Catalog, m: Model)
    requires Complete(cat, m)
    ensures ModelPath(cat, m) == DONE
  {
    hide Valid, FieldsPresent, IndexesPresent, FieldPath, IndexPath, IsVirtual, LookIndex, IsTagIndex;
    var schema := m.schema.value;
    ValidIndexes(schema);
    FieldPathIsIdle(cat, m.table, IsStable(cat, m.table), schema.fields);
    forall i <- schema.indexes ensures LookIndex(schema.indexes, i.name).Some? {
      NamedIndexIsFound(schema.indexes, i);
    }
    IndexPathIsIdle(cat, m.table, schema, schema.indexes);
    var nothing: seq<Ddl> := [];
    assert nothing + nothing == nothing;
    assert ApplyAll(cat, []) == cat;
  }

  lemma ValidIndexes(schema: Schema)
    requires Valid(schema)
    ensures forall i <- schema.indexes :: IsTagIndex(i)
  {
  }

  lemma {:induction false} AllDefined(fields: seq<Field>, columns: seq<Column>, tags: seq<Column>)
    requires columns == Definitions(fields, false) && tags == Definitions(fields, true)
    ensures forall f <- fields :: IsMigrated(f) ==> ColumnDefinition(f) in columns + tags
  {
    hide IsTag, ColumnDefinition, IsMigrated;
    forall f <- fields ensures IsMigrated(f) ==> ColumnDefinition(f) in columns + tags {
      if IsMigrated(f) {
        DefinitionMembers(fields, f);
      }
    }
  }

  /** A table made for a model has all of its fields. */
  lemma CreatedHasFields(cat: Catalog, table: string, schema: Schema)
    requires table !in cat.tables
    ensures var next := Apply(cat, CreateTable(table, true, DataColumns(schema), TagColumns(schema)));
            table in next.tables && !IsVirtual(next, table) && FieldsPresent(next, table, schema.fields)
  {
    hide IsTag, IsMigrated, Definitions, DataTypeOf, HasOption;
    var next := Apply(cat, CreateTable(table, true, DataColumns(schema), TagColumns(schema)));
    AllDefined(schema.fields, DataColumns(schema), TagColumns(schema));
    var info := next.tables[table];
    assert info.columns == DataColumns(schema) && info.tags == TagColumns(schema);
    forall f <- schema.fields ensures Settled(next, table, f) {
      if IsMigrated(f) {
        assert ColumnDefinition(f) in info.columns + info.tags;
        assert Named(ColumnDefinition(f), f.dbName);
      }
    }
  }

  lemma FieldsStay(a: Catalog, b: Catalog, table: string, fields: seq<Field>)
    requires Extends(a, b) && FieldsPresent(a, table, fields)
    ensures FieldsPresent(b, table, fields)
  {
    hide Extends, HasColumn, IsMigrated;
    forall f <- fields ensures Settled(b, table, f) {
      assert Settled(a, table, f);
      QueriesAreMonotone(a, b, table, f.dbName, "");
    }
  }

  lemma IndexesStay(a: Catalog, b: Catalog, table: string, indexes: seq<Index>)
    requires Extends(a, b) && (forall i <- indexes :: IsTagIndex(i)) && IndexesPresent(a, table, indexes)
    ensures IndexesPresent(b, table, indexes)
  {
    hide Extends, HasIndex, IsTagIndex;
    forall i <- indexes ensures HasIndex(b, table, i.name, IndexColumn(i)) {
      IndexIsMonotone(a, b, table, i);
    }
  }

  lemma CompleteStays(a: Catalog, b: Catalog, m: Model)
    requires Extends(a, b) && Complete(a, m)
    ensures Complete(b, m)
  {
    hide Extends, Valid, FieldsPresent, IndexesPresent, IsVirtual, IsStable;
    ValidIndexes(m.schema.value);
    FieldsStay(a, b, m.table, m.schema.value.fields);
    IndexesStay(a, b, m.table, m.schema.value.indexes);
    StaysThere(a, b, m.table);
    QueriesAreMonotone(a, b, m.table, "", "");
  }

  /** After the fields are there, the index loop makes the catalog complete. */
  lemma IndexesComplete(cat: Catalog, m: Model)
    requires m.schema.Some? && Valid(m.schema.value) && Resolving(m)
    requires m.table in cat.tables && !IsVirtual(cat, m.table) && FieldsPresent(cat, m.table, m.schema.value.fields)
    requires (ValidIndexes(m.schema.value); IndexPath(cat, m.table, m.schema.value, m.schema.value.indexes).ok)
    ensures (ValidIndexes(m.schema.value);
             Complete(ApplyAll(cat, IndexPath(cat, m.table, m.schema.value, m.schema.value.indexes).ddl), m))
  {
    hide Extends, Valid, FieldsPresent, IndexesPresent, IsVirtual, IsStable, IndexPath, LookIndex, IsTagIndex;
    var schema := m.schema.value;
    ValidIndexes(schema);
    var ddl := IndexPath(cat, m.table, schema, schema.indexes).ddl;
    var end := ApplyAll(cat, ddl);
    IndexPathAddsIndexes(cat, m.table, schema, schema.indexes);
    RunsOnlyAdd(cat, ddl);
    FieldsStay(cat, end, m.table, schema.fields);
    StaysThere(cat, end, m.table);
    QueriesAreMonotone(cat, end, m.table, "", "");
    IndexPathCompletes(cat, m.table, schema, schema.indexes);
  }

  /** A model's plan without an error: after its first statements only the index loop is left. */
  lemma FieldsThenIndexes(cat: Catalog, m: Model) returns (first: seq<Ddl>)
    requires ModelPath(cat, m).ok
    ensures m.schema.Some? && Valid(m.schema.value) && forall i <- m.schema.value.indexes :: IsTagIndex(i)
    ensures var next := ApplyAll(cat, first);
            var rest := IndexPath(next, m.table, m.schema.value, m.schema.value.indexes);
            && rest.ok && ModelPath(cat, m).ddl == first + rest.ddl
            && m.table in next.tables && !IsVirtual(next, m.table)
                && FieldsPresent(next, m.table, m.schema.value.fields)
  {
    hide Valid, IndexPath, FieldPath, FieldsPresent, IsVirtual, IsStable, Apply, Extends, DataColumns, TagColumns;
    var schema := m.schema.value;
    ValidIndexes(schema);
    if m.table in cat.tables {
      var fields := FieldPath(cat, m.table, IsStable(cat, m.table), schema.fields);
      first := fields.ddl;
      FieldPathCompletes(cat, m.table, IsStable(cat, m.table), schema.fields);
      FieldPathAddsColumns(cat, m.table, IsStable(cat, m.table), schema.fields);
      RunsOnlyAdd(cat, first);
      StaysThere(cat, ApplyAll(cat, first), m.table);
      QueriesAreMonotone(cat, ApplyAll(cat, first), m.table, "", "");
    } else {
      var d := CreateTable(m.table, true, DataColumns(schema), TagColumns(schema));
      first := [d];
      CreatedHasFields(cat, m.table, schema);
      OneStatement(cat, d);
    }
  }

  /** One model: if its plan ends without an error, the catalog has all it asks for. */
  lemma ModelPathCompletes(cat: Catalog, m: Model)
    requires Resolving(m) && ModelPath(cat, m).ok
    ensures Complete(ApplyAll(cat, ModelPath(cat, m).ddl), m)
  {
    hide Valid, Resolving, IndexPath, FieldsPresent, IsVirtual, ModelPath, Complete, Apply;
    var first := FieldsThenIndexes(cat, m);
    var next := ApplyAll(cat, first);
    IndexesComplete(next, m);
    ApplySplits(cat, first, IndexPath(next, m.table, m.schema.value, m.schema.value.indexes).ddl);
  }

  /** AutoMigrate converges: a plan that ends without an error leaves every model complete. */
  lemma {:induction false} RunPathCompletes(cat: Catalog, models: seq<Model>)
    requires (forall m <- models :: Resolving(m)) && RunPath(cat, models).ok
    ensures forall m <- models :: Complete(ApplyAll(cat, RunPath(cat, models).ddl), m)
    decreases |models|
  {
    hide Resolving, ModelPath, Complete, Apply, Extends;
    if models != [] {
      var m, more := models[0], models[1..];
      assert models == [m] + more && m in models;
      var path := ModelPath(cat, m);
      var next := ApplyAll(cat, path.ddl);
      var rest := RunPath(next, more);
      ModelPathCompletes(cat, m);
      RunPathCompletes(next, more);
      ApplySplits(cat, path.ddl, rest.ddl);
      RunPathIsSafe(next, more);
      RunsOnlyAdd(next, rest.ddl);
      CompleteStays(next, ApplyAll(next, rest.ddl), m);
    }
  }

  lemma {:induction false} CompleteRunIsIdle(cat: Catalog, models: seq<Model>)
    requires forall m <- models :: Complete(cat, m)
    ensures RunPath(cat, models) == DONE
    decreases |models|
  {
    hide Complete, ModelPath;
    if models != [] {
      assert models[0] in models;
      CompleteIsIdle(cat, models[0]);
      CompleteRunIsIdle(cat, models[1..]);
      assert ApplyAll(cat, []) == cat;
    }
  }

  /** A second run on the same models has nothing to send and returns no error. */
  lemma SecondRunIsIdle(cat: Catalog, models: seq<Model>)
    requires (forall m <- models :: Resolving(m)) && RunPath(cat, models).ok
    ensures RunPath(ApplyAll(cat, RunPath(cat, models).ddl), models) == DONE
  {
    RunPathCompletes(cat, models);
    CompleteRunIsIdle(ApplyAll(cat, RunPath(cat, models).ddl), models);
  }

  // ------------------------------------------------------------------ tag indexes

  /** Every statement of the log, on the catalog it meets, adds no second index to a tag. */
  ghost predicate NoSecondIndex(cat: Catalog, log: seq<Ddl>)
    decreases |log|
  {
    log == [] || (AddsNoSecondIndex(cat, log[0]) && NoSecondIndex(Apply(cat, log[0]), log[1..]))
  }

  lemma {:induction false} UniqueAfter(cat: Catalog, log: seq<Ddl>)
    requires OneIndexPerTag(cat) && NoSecondIndex(cat, log)
    ensures OneIndexPerTag(ApplyAll(cat, log))
    decreases |log|
  {
    hide OneIndexPerTag, AddsNoSecondIndex, Apply;
    if log != [] {
      IndexesStayUnique(cat, log[0]);
      UniqueAfter(Apply(cat, log[0]), log[1..]);
    }
  }

  /** The index loop adds no second index, for any number of indexes on any tags. */
  lemma {:induction false} IndexPathAddsNoSecond(cat: Catalog, table: string, schema: Schema, indexes: seq<Index>,
      log: seq<Ddl>)
    requires forall i <- schema.indexes :: IsTagIndex(i)
    requires forall i <- indexes :: IsTagIndex(i) && ResolvesToTag(schema.indexes, i)
    requires log <= IndexPath(cat, table, schema, indexes).ddl
    ensures NoSecondIndex(cat, log)
    decreases |indexes|
  {
    hide Apply, LookIndex, IsVirtual, IsStable, IsTagIndex;
    if log != [] {
      assert indexes != [];
      var index := indexes[0];
      assert index in indexes;
      IndexPathTurns(cat, table, schema, indexes);
      if HasIndex(cat, table, index.name, IndexColumn(index)) {
        hide HasIndex;
        IndexPathAddsNoSecond(cat, table, schema, indexes[1..], log);
      } else {
        var d := IndexStatement(table, LookIndex(schema.indexes, index.name).value);
        assert log[0] == d && AddsNoSecondIndex(cat, d);
        hide HasIndex, AddsNoSecondIndex;
        IndexPathAddsNoSecond(Apply(cat, d), table, schema, indexes[1..], log[1..]);
      }
    }
  }

  lemma {:induction false} NoSecondSplits(cat: Catalog, log: seq<Ddl>, more: seq<Ddl>)
    requires NoSecondIndex(cat, log) && NoSecondIndex(ApplyAll(cat, log), more)
    ensures NoSecondIndex(cat, log + more)
    decreases |log|
  {
    hide Apply, AddsNoSecondIndex;
    if log == [] {
      assert log + more == more;
    } else {
      assert (log + more)[1..] == log[1..] + more;
      NoSecondSplits(Apply(cat, log[0]), log[1..], more);
    }
  }

  lemma {:induction false} ColumnsAddNoIndex(cat: Catalog, log: seq<Ddl>)
    requires forall d <- log :: !d.CreateIndex?
    ensures NoSecondIndex(cat, log)
    decreases |log|
  {
    hide Apply;
    if log != [] {
      ColumnsAddNoIndex(Apply(cat, log[0]), log[1..]);
    }
  }

  lemma {:induction false} FieldPathAddsColumns(cat: Catalog, table: string, stable: bool, fields: seq<Field>)
    ensures forall d <- FieldPath(cat, table, stable, fields).ddl ::
              d.AddStableColumn? || d.AddTableColumn? || d.AddStableTag?
    decreases |fields|
  {
    hide Apply, HasColumn, IsTag, IsKeyField, IsMigrated;
    if fields != [] {
      FieldPathTurns(cat, table, stable, fields);
      FieldPathAddsColumns(cat, table, stable, fields[1..]);
      FieldPathAddsColumns(Apply(cat, Addition(table, stable, fields[0])), table, stable, fields[1..]);
    }
  }

  lemma {:induction false} IndexPathAddsIndexes(cat: Catalog, table: string, schema: Schema, indexes: seq<Index>)
    requires (forall i <- schema.indexes :: IsTagIndex(i)) && forall i <- indexes :: IsTagIndex(i)
    ensures forall d <- IndexPath(cat, table, schema, indexes).ddl :: d.CreateIndex?
    decreases |indexes|
  {
    hide Apply, LookIndex, IsVirtual, IsStable, IsTagIndex, HasIndex;
    if indexes != [] {
      IndexPathTurns(cat, table, schema, indexes);
      var found := LookIndex(schema.indexes, indexes[0].name);
      IndexPathAddsIndexes(cat, table, schema, indexes[1..]);
      if found.Some? {
        IndexPathAddsIndexes(Apply(cat, IndexStatement(table, found.value)), table, schema, indexes[1..]);
      }
    }
  }

  /** A prefix of one plan after another ends inside the first, or inside the second. */
  lemma PrefixOfThen(first: Path, rest: Path, log: seq<Ddl>)
    requires log <= Then(first, rest).ddl
    ensures log <= first.ddl || (first.ok && first.ddl <= log && log[|first.ddl|..] <= rest.ddl)
  {
    if first.ok && |log| > |first.ddl| {
      assert log == (first.ddl + rest.ddl)[..|log|];
      assert first.ddl == log[..|first.ddl|];
      assert log[|first.ddl|..] == rest.ddl[..|log| - |first.ddl|];
    }
  }

  /** The index names of a valid model resolve to their tags. */
  ghost predicate ResolvingToTags(m: Model) {
    m.schema.Some? && Valid(m.schema.value) ==> AllResolveToTags(m.schema.value.indexes)
  }

  lemma IndexPartAddsNoSecond(cat: Catalog, m: Model, first: Path, log: seq<Ddl>)
    requires m.schema.Some? && Valid(m.schema.value) && ResolvingToTags(m)
    requires forall d <- first.ddl :: !d.CreateIndex?
    requires (ValidIndexes(m.schema.value);
              log <= Then(first, IndexPath(ApplyAll(cat, first.ddl), m.table, m.schema.value,
                  m.schema.value.indexes)).ddl)
    ensures NoSecondIndex(cat, log)
  {
    hide Valid, IndexPath, NoSecondIndex, LookIndex, IsTagIndex;
    var schema := m.schema.value;
    ValidIndexes(schema);
    var next := ApplyAll(cat, first.ddl);
    PrefixOfThen(first, IndexPath(next, m.table, schema, schema.indexes), log);
    if log <= first.ddl {
      assert forall d <- log :: d in first.ddl;
      ColumnsAddNoIndex(cat, log);
    } else {
      var more := log[|first.ddl|..];
      ColumnsAddNoIndex(cat, first.ddl);
      IndexPathAddsNoSecond(next, m.table, schema, schema.indexes, more);
      NoSecondSplits(cat, first.ddl, more);
      assert log == first.ddl + more;
    }
  }

  /** Wherever a migration of a model stops, no tag has been given a second index. */
  lemma PathAddsNoSecond(cat: Catalog, m: Model, log: seq<Ddl>)
    requires ResolvingToTags(m) && (log <= CreatePath(cat, m).ddl || log <= MigratePath(cat, m).ddl)
    ensures NoSecondIndex(cat, log)
  {
    hide Valid, IndexPath, FieldPath, NoSecondIndex, ResolvingToTags, Apply, ApplyAll;
    if log == [] {
      ColumnsAddNoIndex(cat, log);
    } else if log <= CreatePath(cat, m).ddl {
      var d := CreateTable(m.table, true, DataColumns(m.schema.value), TagColumns(m.schema.value));
      OneStatement(cat, d);
      IndexPartAddsNoSecond(cat, m, Path([d], None), log);
    } else {
      var fields := FieldPath(cat, m.table, IsStable(cat, m.table), m.schema.value.fields);
      FieldPathAddsColumns(cat, m.table, IsStable(cat, m.table), m.schema.value.fields);
      IndexPartAddsNoSecond(cat, m, fields, log);
    }
  }

  // ----------------------------------------------------------------------- safety

  lemma AdditionIsSafe(table: string, stable: bool, schema: Schema, field: Field)
    requires Valid(schema) && field in schema.fields && IsMigrated(field) && !IsKeyField(field)
    ensures Safe(Addition(table, stable, field))
  {
    hide WellPlaced, DataTypeOf, IsTag, KeyAllowed, Unique, IsTimestamp, HasOption;
    DefinitionMembers(schema.fields, field);
    assert !ColumnDefinition(field).compositeKey;
  }

  lemma {:induction false} FieldPathIsSafe(cat: Catalog, table: string, stable: bool, schema: Schema,
      fields: seq<Field>)
    requires Valid(schema) && forall f <- fields :: f in schema.fields
    ensures forall d <- FieldPath(cat, table, stable, fields).ddl :: Safe(d)
    decreases |fields|
  {
    hide Apply, HasColumn, IsTag, IsKeyField, IsMigrated, Safe, Valid, Addition;
    if fields != [] {
      assert fields[0] in fields;
      assert forall f <- fields[1..] :: f in fields;
      FieldPathTurns(cat, table, stable, fields);
      if Settled(cat, table, fields[0]) {
        FieldPathIsSafe(cat, table, stable, schema, fields[1..]);
      } else if !IsKeyField(fields[0]) {
        AdditionIsSafe(table, stable, schema, fields[0]);
        FieldPathIsSafe(Apply(cat, Addition(table, stable, fields[0])), table, stable, schema, fields[1..]);
      }
    }
  }

  /** Every statement of a model's plan is safe. */
  lemma PathIsSafe(cat: Catalog, m: Model, log: seq<Ddl>)
    requires log <= CreatePath(cat, m).ddl || log <= MigratePath(cat, m).ddl
    ensures forall d <- log :: Safe(d)
  {
    hide Valid, IndexPath, FieldPath, Apply, ApplyAll, Safe, DataColumns, TagColumns;
    if m.schema.None? || !Valid(m.schema.value) {
    } else {
      var schema := m.schema.value;
      ValidIndexes(schema);
      var d := CreateTable(m.table, true, DataColumns(schema), TagColumns(schema));
      CreationIsSafe(m.table, schema);
      IndexPathAddsIndexes(Apply(cat, d), m.table, schema, schema.indexes);
      var fields := FieldPath(cat, m.table, IsStable(cat, m.table), schema.fields);
      FieldPathIsSafe(cat, m.table, IsStable(cat, m.table), schema, schema.fields);
      IndexPathAddsIndexes(ApplyAll(cat, fields.ddl), m.table, schema, schema.indexes);
      IndexesAreSafe();
    }
  }

  lemma IndexesAreSafe()
    ensures forall d: Ddl :: d.CreateIndex? ==> Safe(d)
  {
  }

  lemma {:induction false} RunPathIsSafe(cat: Catalog, models: seq<Model>)
    ensures forall d <- RunPath(cat, models).ddl :: Safe(d)
    decreases |models|
  {
    hide ModelPath, Safe, Apply;
    if models != [] {
      var path := ModelPath(cat, models[0]);
      ModelPathIsSafe(cat, models[0]);
      RunPathIsSafe(ApplyAll(cat, path.ddl), models[1..]);
    }
  }

  lemma ModelPathIsSafe(cat: Catalog, m: Model)
    ensures forall d <- ModelPath(cat, m).ddl :: Safe(d)
  {
    hide CreatePath, MigratePath, Safe;
    PathIsSafe(cat, m, ModelPath(cat, m).ddl);
  }

  lemma CreationIsSafe(table: string, schema: Schema)
    requires Valid(schema)
    ensures Safe(CreateTable(table, true, DataColumns(schema), TagColumns(schema)))
  {
    hide ModelRules;
  }
}
