/**
  The SQL text of the migrator's statements (the Exec calls of migrator.go and index.go,
  and CreateTable's clause), and a parser that recovers the statement from the text:
  what the plans talk about is what reaches the server.
 */
module Statements {
  import opened Common
  import opened Identifier
  import opened Builder
  import opened Parsing
  import opened Column
  import opened Table
  import opened TableParser
  import opened Schema
  import opened Catalog
  import opened Plan

  function AlterText(head: string, table: string, middle: string, column: Column): string {
    head + Quote(table) + middle + ColumnText(column)
  }

  /** The table clause that CreateTable builds: a supertable if there are tags. */
  function Definition(table: string, ifNotExists: bool, columns: seq<Column>, tags: seq<Column>): TableDef {
    if tags == [] then TableDef(COMMON, table, ifNotExists, "", map[], columns, [], NO_OPTIONS)
    else TableDef(STABLE, table, ifNotExists, "", map[], columns, tags, NO_OPTIONS)
  }

  ghost function DdlText(d: Ddl): string {
    match d
    case CreateTable(table, ifNotExists, columns, tags) =>
      CreateText(Somes([Definition(table, ifNotExists, columns, tags)]))
    case AddStableColumn(table, c) => AlterText("ALTER STABLE ", table, " ADD COLUMN ", c)
    case AddStableTag(table, c) => AlterText("ALTER STABLE ", table, " ADD TAG ", c)
    case AddTableColumn(table, c) => AlterText("ALTER TABLE ", table, " ADD COLUMN ", c)
    case CreateIndex(name, table, tag) =>
      "CREATE INDEX " + Quote(name) + " ON " + Quote(table) + " (" + Quote(tag) + ")"
  }

  // --------------------------------------------------------------------- parser

  function ReadLastColumn(s: string): Option<Column> {
    var c := ReadColumn(s);
    if c.None? || c.value.1 != "" then None else Some(c.value.0)
  }

  function ReadAlter(stable: bool, s: string): Option<Ddl> {
    var table := ReadName(s);
    if table.None? then None else
      var (name, rest) := table.value;
      var column := Eat(" ADD COLUMN ", rest);
      var tag := Eat(" ADD TAG ", rest);
      if column.Some? then
        var c := ReadLastColumn(column.value);
        if c.None? then None else Some(if stable then AddStableColumn(name, c.value) else AddTableColumn(name, c.value))
      else if stable && tag.Some? then
        var c := ReadLastColumn(tag.value);
        if c.None? then None else Some(AddStableTag(name, c.value))
      else None
  }

  function ReadIndex(s: string): Option<Ddl> {
    var name := ReadName(s);
    if name.None? || Eat(" ON ", name.value.1).None? then None else
      var table := ReadName(Eat(" ON ", name.value.1).value);
      if table.None? || Eat(" (", table.value.1).None? then None else
        var tag := ReadName(Eat(" (", table.value.1).value);
        if tag.None? || tag.value.1 != ")" then None
        else Some(CreateIndex(name.value.0, table.value.0, tag.value.0))
  }

  function ReadCreate(s: string): Option<Ddl> {
    var tables := ReadTables(true, true, s, []);
    if tables.None? || |tables.value| != 1 then None else
      var t := tables.value[0];
      Some(CreateTable(t.name, t.ifNotExists, t.columns, t.tagColumns))
  }

  function ReadDdl(s: string): Option<Ddl> {
    if Eat("ALTER STABLE ", s).Some? then ReadAlter(true, Eat("ALTER STABLE ", s).value)
    else if Eat("ALTER TABLE ", s).Some? then ReadAlter(false, Eat("ALTER TABLE ", s).value)
    else if Eat("CREATE INDEX ", s).Some? then ReadIndex(Eat("CREATE INDEX ", s).value)
    else ReadCreate(s)
  }

  // ----------------------------------------------------------------- round trip

  /** Dotted names, printable columns, and no compression on the tags of a new table. */
  ghost predicate Sayable(d: Ddl) {
    && Dotted(d.table)
    && (d.CreateTable? ==>
          (forall c <- d.columns :: Printable(c)) && forall t <- d.tags :: Printable(t) && Uncompressed(t))
    && (d.AddStableColumn? || d.AddStableTag? || d.AddTableColumn? ==> Printable(d.column))
    && (d.CreateIndex? ==> Dotted(d.name) && Dotted(d.tag))
  }

  /** The statement with its types in canonical form. */
  function CanonicalDdl(d: Ddl): Ddl {
    match d
    case CreateTable(table, ifNotExists, columns, tags) =>
      CreateTable(table, ifNotExists, CanonicalAll(columns), CanonicalAll(tags))
    case AddStableColumn(table, c) => AddStableColumn(table, Canonical(c))
    case AddStableTag(table, c) => AddStableTag(table, Canonical(c))
    case AddTableColumn(table, c) => AddTableColumn(table, Canonical(c))
    case CreateIndex(_, _, _) => d
  }

  lemma ReadsLastColumn(c: Column)
    requires Printable(c)
    ensures ReadLastColumn(ColumnText(c)) == Some(Canonical(c))
  {
    hide Printable, ColumnText, ReadColumn, Canonical;
    ColumnRoundTrip(c, "");
    assert ColumnText(c) + "" == ColumnText(c);
  }

  lemma AlterRoundTrip(d: Ddl)
    requires Sayable(d) && (d.AddStableColumn? || d.AddStableTag? || d.AddTableColumn?)
    ensures ReadDdl(DdlText(d)) == Some(CanonicalDdl(d))
  {
    hide Printable, ColumnText, ReadLastColumn, Canonical, Dotted, Quote, ReadName;
    var head := if d.AddTableColumn? then "ALTER TABLE " else "ALTER STABLE ";
    var middle := if d.AddStableTag? then " ADD TAG " else " ADD COLUMN ";
    var column := ColumnText(d.column);
    var rest := middle + column;
    Associates4(head, Quote(d.table), middle, column);
    Eats(head, Quote(d.table) + rest);
    if d.AddTableColumn? {
      EatsNot("ALTER STABLE ", DdlText(d), 6);
    }
    ReadsName(d.table, rest);
    Eats(middle, column);
    if d.AddStableTag? {
      EatsNot(" ADD COLUMN ", rest, 5);
    }
    ReadsLastColumn(d.column);
  }

  lemma IndexRoundTrip(d: Ddl)
    requires Sayable(d) && d.CreateIndex?
    ensures ReadDdl(DdlText(d)) == Some(d)
  {
    hide Dotted, Quote, ReadName;
    var (n, t, g) := (Quote(d.name), Quote(d.table), Quote(d.tag));
    var s := DdlText(d);
    var onTag := g + ")";
    var onTable := t + (" (" + onTag);
    Associates5("CREATE INDEX " + n, " ON ", t, " (", g);
    Associates("CREATE INDEX " + n + " ON " + t + " (", g, ")");
    Associates5("CREATE INDEX ", n, " ON ", t, " (" + onTag);
    Associates("CREATE INDEX " + n + " ON " + t, " (", onTag);
    assert s == "CREATE INDEX " + (n + (" ON " + onTable));
    EatsNot("ALTER STABLE ", s, 0);
    EatsNot("ALTER TABLE ", s, 0);
    Eats("CREATE INDEX ", n + (" ON " + onTable));
    ReadsName(d.name, " ON " + onTable);
    Eats(" ON ", onTable);
    ReadsName(d.table, " (" + onTag);
    Eats(" (", onTag);
    ReadsName(d.tag, ")");
  }

  lemma DefinitionIsReadable(d: Ddl)
    requires Sayable(d) && d.CreateTable?
    ensures var t := Definition(d.table, d.ifNotExists, d.columns, d.tags);
            Readable(t) && !t.IsSubtable() && TableVars(t, true) == []
  {
    hide Printable, Dotted;
    var t := Definition(d.table, d.ifNotExists, d.columns, d.tags);
    assert OptionsError(t).None?;
  }

  lemma CreateIsNoOther(t: TableDef)
    requires Readable(t)
    ensures var s := TableText(t, true);
            Eat("ALTER STABLE ", s).None? && Eat("ALTER TABLE ", s).None? && Eat("CREATE INDEX ", s).None?
  {
    hide BodyText, Readable;
    var s := TableText(t, true);
    assert Prints(t, true) && (t.kind == COMMON || t.kind == STABLE) by {
      KindIsKnown(t);
    }
    assert CommandText(t.kind) <= s;
    EatsNot("ALTER STABLE ", s, 0);
    EatsNot("ALTER TABLE ", s, 0);
    EatsNot("CREATE INDEX ", s, 7);
  }

  lemma KindIsKnown(t: TableDef)
    requires Readable(t)
    ensures Prints(t, true) && (t.kind == COMMON || t.kind == STABLE)
  {
  }

  /** The clause of a table without variables, and what a reader makes of it. */
  lemma OneTableIsRead(t: TableDef)
    requires Readable(t) && TableVars(t, true) == []
    ensures CreateText(Somes([t])) == TableText(t, true)
    ensures ReadTables(true, true, TableText(t, true), []) == Some([Said(true, t)])
  {
    hide Readable, ReadTables, TableText, TableVars, Said;
    var (tables, defs) := ([t], Somes([t]));
    assert defs == [Some(t)];
    OneText(t);
    NoVariables(t);
    CreateRoundTrip(true, tables);
    var vars := BoundAll(true, TablesVars(defs, true));
    assert ReadTables(true, true, CreateText(defs), vars) == Some(SaidAll(true, tables));
    assert vars == [];
    assert SaidAll(true, tables[1..]) == [];
    assert SaidAll(true, tables) == [Said(true, t)];
  }

  lemma NoVariables(t: TableDef)
    requires TableVars(t, true) == []
    ensures BoundAll(true, TablesVars([Some(t)], true)) == []
  {
    hide TableVars;
    assert TablesVars([Some(t)], true) == [] + [];
  }

  lemma OneText(t: TableDef)
    ensures CreateText(Somes([t])) == TableText(t, true)
  {
    hide TableText;
    assert Somes([t]) == [Some(t)];
    assert TablesText([Some(t)], true) == TableText(t, true) + "";
    assert "" + (TableText(t, true) + "") == TableText(t, true);
  }

  lemma NewTableRoundTrip(d: Ddl)
    requires Sayable(d) && d.CreateTable?
    ensures ReadDdl(DdlText(d)) == Some(CanonicalDdl(d))
  {
    hide Sayable, TableText, Readable, ReadTables, TableVars, CanonicalAll, CreateText;
    var t := Definition(d.table, d.ifNotExists, d.columns, d.tags);
    DefinitionIsReadable(d);
    OneTableIsRead(t);
    CreateIsNoOther(t);
    NoCanonical();
  }

  lemma NoCanonical()
    ensures CanonicalAll([]) == []
  {
  }

  /** Every statement that can be said in SQL is read back from its text. */
  lemma DdlRoundTrip(d: Ddl)
    requires Sayable(d)
    ensures ReadDdl(DdlText(d)) == Some(CanonicalDdl(d))
  {
    hide ReadDdl, DdlText, Sayable;
    if d.CreateTable? {
      NewTableRoundTrip(d);
    } else if d.CreateIndex? {
      IndexRoundTrip(d);
    } else {
      AlterRoundTrip(d);
    }
  }

  // -------------------------------------------------------- statements of a plan

  /** A model whose names are dotted and whose types are known. */
  ghost predicate Spellable(table: string, schema: Schema) {
    && Dotted(table)
    && (forall f <- schema.fields :: IsMigrated(f) ==> Dotted(f.dbName) && KnownType(f))
    && (forall i <- schema.indexes :: IsTagIndex(i) ==> Dotted(i.name) && Dotted(IndexColumn(i)))
  }

  lemma {:induction false} DefinitionsArePrintable(fields: seq<Field>, tags: bool)
    requires forall f <- fields :: IsMigrated(f) ==> Dotted(f.dbName) && KnownType(f)
    ensures forall c <- Definitions(fields, tags) :: Printable(c) && Uncompressed(c)
  {
    hide Printable, IsMigrated, IsTag, KnownType, Dotted, DataTypeOf, HasOption;
    if fields != [] {
      assert fields[0] in fields;
      if IsMigrated(fields[0]) {
        DefinitionIsPrintable(fields[0]);
      }
      DefinitionsArePrintable(fields[1..], tags);
    }
  }

  lemma {:induction false} FieldStatementsAreSayable(cat: Catalog, table: string, stable: bool, schema: Schema,
      fields: seq<Field>)
    requires Spellable(table, schema) && forall f <- fields :: f in schema.fields
    ensures forall d <- FieldPath(cat, table, stable, fields).ddl :: Sayable(d)
    decreases |fields|
  {
    hide Apply, HasColumn, IsTag, IsKeyField, IsMigrated, Printable, Dotted, KnownType, DataTypeOf;
    if fields != [] {
      assert fields[0] in fields && forall f <- fields[1..] :: f in fields;
      FieldPathTurns(cat, table, stable, fields);
      if Settled(cat, table, fields[0]) {
        FieldStatementsAreSayable(cat, table, stable, schema, fields[1..]);
      } else {
        DefinitionIsPrintable(fields[0]);
        FieldStatementsAreSayable(Apply(cat, Addition(table, stable, fields[0])), table, stable, schema, fields[1..]);
      }
    }
  }

  lemma {:induction false} IndexStatementsAreSayable(cat: Catalog, table: string, schema: Schema, indexes: seq<Index>)
    requires Spellable(table, schema)
    requires (forall i <- schema.indexes :: IsTagIndex(i)) && forall i <- indexes :: IsTagIndex(i)
    ensures forall d <- IndexPath(cat, table, schema, indexes).ddl :: Sayable(d)
    decreases |indexes|
  {
    hide Apply, LookIndex, IsVirtual, IsStable, IsTagIndex, HasIndex, Dotted;
    if indexes != [] {
      assert indexes[0] in indexes;
      IndexPathTurns(cat, table, schema, indexes);
      var found := LookIndex(schema.indexes, indexes[0].name);
      IndexStatementsAreSayable(cat, table, schema, indexes[1..]);
      if found.Some? {
        IndexStatementsAreSayable(Apply(cat, IndexStatement(table, found.value)), table, schema, indexes[1..]);
      }
    }
  }

  lemma PlannedIsSayable(cat: Catalog, m: Model, d: Ddl)
    requires m.schema.Some? && Spellable(m.table, m.schema.value)
    requires d in CreatePath(cat, m).ddl || d in MigratePath(cat, m).ddl
    ensures Sayable(d)
  {
    hide Valid, IndexPath, FieldPath, Apply, ApplyAll, Printable, DataColumns, TagColumns, Sayable;
    var schema := m.schema.value;
    if Valid(schema) {
      ValidIndexes(schema);
      var create := CreateTable(m.table, true, DataColumns(schema), TagColumns(schema));
      IndexStatementsAreSayable(Apply(cat, create), m.table, schema, schema.indexes);
      CreationIsSayable(m.table, schema);
      var fields := FieldPath(cat, m.table, IsStable(cat, m.table), schema.fields);
      FieldStatementsAreSayable(cat, m.table, IsStable(cat, m.table), schema, schema.fields);
      IndexStatementsAreSayable(ApplyAll(cat, fields.ddl), m.table, schema, schema.indexes);
    }
  }

  /** Everything a migration of a spellable model sends can be read back from its SQL. */
  lemma PlansAreSayable(cat: Catalog, m: Model, d: Ddl)
    requires m.schema.Some? && Spellable(m.table, m.schema.value)
    requires d in CreatePath(cat, m).ddl || d in MigratePath(cat, m).ddl
    ensures ReadDdl(DdlText(d)) == Some(CanonicalDdl(d))
  {
    hide CreatePath, MigratePath, Sayable, ReadDdl, DdlText, CanonicalDdl, Spellable;
    PlannedIsSayable(cat, m, d);
    DdlRoundTrip(d);
  }

  lemma CreationIsSayable(table: string, schema: Schema)
    requires Spellable(table, schema)
    ensures Sayable(CreateTable(table, true, DataColumns(schema), TagColumns(schema)))
  {
    hide Printable, Definitions, Dotted, KnownType, IsMigrated;
    DefinitionsArePrintable(schema.fields, false);
    DefinitionsArePrintable(schema.fields, true);
  }
}
