/**
  The migrator (migrator.go, index.go) at work on a server. Any query may fail and any
  statement may be refused; every operation is compared with its plan.
 */
module Migrator {
  import opened Common
  import opened Ascii
  import opened Column
  import opened Schema
  import opened Catalog
  import C = Catalog
  import opened Plan
  import opened Success

  // ------------------------------------------------------- what the catalog answers

  /** The type column of information_schema. */
  function TypeText(info: TableInfo): string {
    (if info.virtual then "VIRTUAL_" else "") + KindText(info.kind)
  }

  function KindText(kind: Kind): string {
    match kind
    case Super => "SUPER_TABLE"
    case Normal => "NORMAL_TABLE"
    case Child => "CHILD_TABLE"
  }

  predicate IsVirtualTableType(tableType: string) { Contains(Upper(TrimSpace(tableType)), "VIRTUAL") }

  /** The type test recognises exactly the virtual tables. */
  lemma TypeTellsVirtual(info: TableInfo)
    ensures IsVirtualTableType(TypeText(info)) <==> info.virtual
    ensures TypeText(info) != "" && !IsVirtualTableType("")
  {
    hide Contains, TrimSpace, Upper, KindText;
    NotContained("", "VIRTUAL");
    assert TrimSpace("") == "" && Upper("") == "" by {
      EmptyText();
    }
    KindTexts(info.kind);
    var text := TypeText(info);
    if info.virtual {
      VirtualText(KindText(info.kind));
    } else {
      assert text == KindText(info.kind);
      Trimmed(text);
      NotContained(Upper(text), "VIRTUAL");
    }
  }

  lemma VirtualText(kind: string)
    requires |kind| > 1 && !IsSpace(kind[|kind| - 1])
    ensures Contains(Upper(TrimSpace("VIRTUAL_" + kind)), "VIRTUAL")
  {
    var text := "VIRTUAL_" + kind;
    Trimmed(text);
    assert "VIRTUAL" <= Upper(text);
  }

  lemma HasNoV(text: string)
    requires 'V' !in text && 'v' !in text
    ensures 'V' !in Upper(text)
  {
    forall i | 0 <= i < |text| ensures Upper(text)[i] != 'V' {
      assert text[i] in text;
    }
  }

  lemma KindHasNoV(kind: Kind)
    ensures 'V' !in KindText(kind) && 'v' !in KindText(kind)
  {
  }

  lemma KindTexts(kind: Kind)
    ensures var text := KindText(kind);
            |text| > 1 && text[0] in "SNC" && text[|text| - 1] == 'E' && 'V' !in Upper(text)
  {
    KindHasNoV(kind);
    HasNoV(KindText(kind));
    hide Upper;
  }

  // ---------------------------------------------------------- operations and plans

  /**
    How an operation that ended relates to its plan: what was accepted is the beginning
    of the plan, and all of it when there was no error. When every query was answered,
    even what was sent is the beginning of the plan; and when nothing was refused either,
    all of the plan was carried out and the operation reports what the plan says.
   */
  ghost predicate Follows(path: Path, accepted: seq<Ddl>, tried: seq<Ddl>, error: Option<MigrationError>, clean: bool) {
    && accepted <= path.ddl
    && (error.None? ==> path.ok && accepted == path.ddl && tried == accepted)
    && (clean ==> tried <= path.ddl)
    && (clean && tried == accepted ==> accepted == path.ddl && error == path.error)
    && (clean && tried != accepted ==> error == Some(StatementRefused))
  }

  /** A plan of which the first statements are done. */
  function Ahead(done: seq<Ddl>, rest: Path): Path { Path(done + rest.ddl, rest.error) }

  /** One more part of a plan: either the whole is one part further, or it stopped here. */
  lemma OnePart(path: Path, done: seq<Ddl>, part: Path, rest: Path,
                accepted: seq<Ddl>, tried: seq<Ddl>, error: Option<MigrationError>, clean: bool, allClean: bool)
    requires path == Ahead(done, Then(part, rest)) && Follows(part, accepted, tried, error, clean)
        && (allClean ==> clean)
    ensures error.None? ==> path == Ahead(done + accepted, rest) && tried == accepted && accepted == part.ddl
    ensures error.Some? ==> Follows(path, done + accepted, done + tried, error, allClean)
  {
    if error.None? {
      Associates(done, part.ddl, rest.ddl);
    } else if part.ok {
      Associates(done, part.ddl, rest.ddl);
    }
  }

  /** The end of a plan. */
  lemma AllParts(path: Path, done: seq<Ddl>, clean: bool)
    requires path == Ahead(done, DONE)
    ensures Follows(path, done, done, None, clean)
  {
    assert done + [] == done;
  }

  lemma NothingDone(path: Path)
    ensures path == Ahead([], path)
  {
  }

  lemma NothingFollows(path: Path, error: Option<MigrationError>, clean: bool)
    requires error.Some? && (clean ==> path == Path([], error))
    ensures Follows(path, [], [], error, clean)
  {
  }

  /** A model that one of the validations turns down. */
  ghost predicate Rejected(m: Model) { m.schema.None? || !Valid(m.schema.value) }

  /** A model either followed its creation plan or its migration plan. */
  ghost predicate FollowsModel(cat: Catalog, m: Model, accepted: seq<Ddl>, tried: seq<Ddl>,
      error: Option<MigrationError>, clean: bool) {
    && (Follows(CreatePath(cat, m), accepted, tried, error, clean)
        || Follows(MigratePath(cat, m), accepted, tried, error, clean))
    && (clean ==> Follows(ModelPath(cat, m), accepted, tried, error, clean))
  }

  /**
    What a whole run may leave behind under any failures: complete plans for some first
    models, and after an error the beginning of one more.
   */
  ghost predicate Explained(cat: Catalog, models: seq<Model>, accepted: seq<Ddl>, ok: bool)
    decreases |models|, 1
  {
    if models == [] then accepted == [] && ok else
      || Ends(cat, models, CreatePath(cat, models[0]), accepted, ok)
      || Ends(cat, models, MigratePath(cat, models[0]), accepted, ok)
  }

  ghost predicate Ends(cat: Catalog, models: seq<Model>, path: Path, accepted: seq<Ddl>, ok: bool)
    requires models != []
    decreases |models|, 0
  {
    || (!ok && accepted <= path.ddl)
    || (path.ok && path.ddl <= accepted && Explained(ApplyAll(cat, path.ddl), models[1..], accepted[|path.ddl|..], ok))
  }

  /** The column that HasColumn asks for: a known field's, or the name itself. */
  function ColumnName(m: Model, name: string): string {
    if m.schema.Some? && LookUpField(m.schema.value.fields, name).Some?
    then LookUpField(m.schema.value.fields, name).value.dbName
    else name
  }

  /** A Go field name stands for the field's column, a column name for itself. */
  lemma ColumnNameInWords(m: Model, name: string)
    ensures m.schema.None? ==> ColumnName(m, name) == name
    ensures m.schema.Some? ==>
              var found := LookUpField(m.schema.value.fields, name);
              ColumnName(m, name) == match found case None => name case Some(f) => f.dbName
  {
  }

  lemma ColumnNameOfField(m: Model, field: Field)
    requires m.schema.Some? && field in m.schema.value.fields && field.dbName != ""
    ensures ColumnName(m, field.dbName) == field.dbName
  {
  }

  /** tagIndex: the index a name looks up to, if it is an index on one tag. */
  function IndexNamed(m: Model, name: string): (r: Result<Index, MigrationError>)
    ensures r.Ok? ==> IsTagIndex(r.value)
  {
    if m.schema.None? then Err(SchemaMissing) else
      var index := LookIndex(m.schema.value.indexes, name);
      if index.None? then Err(IndexNotFound(name))
      else if |index.value.fields| != 1 then Err(SingleTagIndexOnly)
      else if !IsTagIndex(index.value) then Err(TagIndexOnly)
      else Ok(index.value)
  }

  /** The lookup's result is taken exactly if it is one tag with nothing else asked for. */
  lemma IndexNamedInWords(m: Model, name: string, i: Index)
    ensures IndexNamed(m, name) == Ok(i) <==>
            && m.schema.Some? && LookIndex(m.schema.value.indexes, name) == Some(i)
            && |i.fields| == 1 && HasOption(i.fields[0].field, "tag")
            && i == Index(i.name, [IndexField(i.fields[0].field, "", "", "", 0)], "", "", "")
    ensures m.schema.Some? && LookIndex(m.schema.value.indexes, name).None? ==>
            IndexNamed(m, name) == Err(IndexNotFound(name))
    ensures m.schema.Some? && LookIndex(m.schema.value.indexes, name) == Some(i) && |i.fields| != 1 ==>
            IndexNamed(m, name) == Err(SingleTagIndexOnly)
    ensures m.schema.None? ==> IndexNamed(m, name) == Err(SchemaMissing)
  {
    hide HasOption, LookIndex;
    if IsTagIndex(i) {
      assert i.fields == [i.fields[0]];
    }
  }

  /** In a valid model the lookup's result is never turned down. */
  lemma NamedAmongValid(m: Model, name: string)
    requires m.schema.Some? && forall i <- m.schema.value.indexes :: IsTagIndex(i)
    ensures var found := LookIndex(m.schema.value.indexes, name);
            IndexNamed(m, name) == if found.Some? then Ok(found.value) else Err(IndexNotFound(name))
  {
  }

  class Migrator {
    var catalog: Catalog      // the server's tables
    var log: seq<Ddl>         // statements the server accepted
    var sent: seq<Ddl>        // statements that reached the server
    var failures: nat         // queries that were not answered

    constructor (catalog: Catalog)
      ensures this.catalog == catalog && log == [] && sent == [] && failures == 0
    {
      this.catalog, log, sent, failures := catalog, [], [], 0;
    }

    /** The state moved on from the old one by these accepted statements, among these sent. */
    twostate predicate Advanced(accepted: seq<Ddl>, tried: seq<Ddl>)
      reads this
    {
      && log == old(log) + accepted && sent == old(sent) + tried && failures >= old(failures)
      && catalog == ApplyAll(old(catalog), accepted)
    }

    // ------------------------------------------------------------- the connection

    /** A query of the catalog: answered, or counted as a failure. */
    method Ask() returns (answered: bool)
      modifies this`failures
      ensures failures == old(failures) + if answered then 0 else 1
    {
      answered := *;
      if !answered {
        failures := failures + 1;
      }
    }

    /** A statement: refused whenever the server must or wants to, applied otherwise. */
    method Exec(d: Ddl) returns (accepted: bool)
      modifies this`catalog, this`log, this`sent
      ensures sent == old(sent) + [d]
      ensures accepted ==> Accepts(old(catalog), d) && catalog == Apply(old(catalog), d) && log == old(log) + [d]
      ensures !accepted ==> catalog == old(catalog) && log == old(log)
    {
      accepted := *;
      accepted := accepted && Accepts(catalog, d);
      sent := sent + [d];
      if accepted {
        catalog, log := Apply(catalog, d), log + [d];
      }
    }

    // -------------------------------------------------------------------- queries

    /** HasTable: a failed query reads as "no". */
    method HasTable(table: string) returns (found: bool)
      modifies this`failures
      ensures found ==> table in catalog.tables
      ensures failures >= old(failures)
      ensures failures == old(failures) ==> (found <==> table in catalog.tables)
    {
      var answered := Ask();
      if !answered {
        return false;
      }
      found := table in catalog.tables && catalog.tables[table].kind != Super;
      if !found {
        answered := Ask();
        if !answered {
          return false;
        }
        found := table in catalog.tables && catalog.tables[table].kind == Super;
      }
    }

    /** HasColumn for a name: the exact name among the columns, then any case among all. */
    method HasColumn(m: Model, asked: string) returns (found: bool)
      modifies this`failures
      ensures found ==> C.HasColumn(catalog, m.table, ColumnName(m, asked))
      ensures failures >= old(failures)
      ensures failures == old(failures) ==> (found <==> C.HasColumn(catalog, m.table, ColumnName(m, asked)))
    {
      var name := asked;
      if m.schema.Some? {
        var known := LookUpField(m.schema.value.fields, name);
        if known.Some? {
          name := known.value.dbName;
        }
      }
      var answered := Ask();
      if !answered {
        return false;
      }
      found := m.table in catalog.tables && exists c <- catalog.tables[m.table].columns :: c.name == name;
      if found {
        var c :| c in catalog.tables[m.table].columns && c.name == name;
        assert c in catalog.tables[m.table].columns + catalog.tables[m.table].tags && Named(c, name);
        return;
      }
      answered := Ask();
      if !answered || m.table !in catalog.tables {
        return false;
      }
      var description := catalog.tables[m.table].columns + catalog.tables[m.table].tags;
      for i := 0 to |description|
        invariant forall j :: 0 <= j < i ==> !Named(description[j], name)
      {
        if Named(description[i], name) {
          assert description[i] in description;
          return true;
        }
      }
      found := false;
    }

    /** isVirtualTable: the table's own type, or the type its columns carry. */
    method IsVirtualTable(table: string) returns (r: Result<bool, MigrationError>)
      modifies this`failures
      ensures r.Ok? ==> r.value == IsVirtual(catalog, table)
      ensures failures >= old(failures)
      ensures failures == old(failures) <==> r.Ok?
    {
      var answered := Ask();
      if !answered {
        return Err(QueryFailed);
      }
      var exists_ := table in catalog.tables;
      if exists_ {
        TypeTellsVirtual(catalog.tables[table]);
      } else {
        TypeTellsVirtual(TableInfo(Normal, false, [], [], []));
      }
      var tableType := if exists_ && catalog.tables[table].kind != Super then TypeText(catalog.tables[table]) else "";
      if tableType == "" {
        answered := Ask();
        if !answered {
          return Err(QueryFailed);
        }
        tableType := if exists_ then TypeText(catalog.tables[table]) else "";
      }
      r := Ok(IsVirtualTableType(tableType));
    }

    method EnsurePhysicalTable(table: string) returns (error: Option<MigrationError>)
      modifies this`failures
      ensures error.None? ==> !IsVirtual(catalog, table)
      ensures failures >= old(failures)
      ensures failures == old(failures) ==>
              error == if IsVirtual(catalog, table) then Some(VirtualTableUnsupported(table)) else None
    {
      var virtual := IsVirtualTable(table);
      error := match virtual
        case Err(e) => Some(e)
        case Ok(v) => if v then Some(VirtualTableUnsupported(table)) else None;
    }

    method AskStable(table: string) returns (r: Result<bool, MigrationError>)
      modifies this`failures
      ensures r.Ok? ==> r.value == IsStable(catalog, table)
      ensures failures >= old(failures)
      ensures failures == old(failures) <==> r.Ok?
    {
      var answered := Ask();
      r := if answered then Ok(IsStable(catalog, table)) else Err(QueryFailed);
    }

    /** hasTagIndex. */
    method HasTagIndex(table: string, name: string, column: string) returns (r: Result<bool, MigrationError>)
      modifies this`failures
      ensures r.Ok? ==> r.value == HasIndex(catalog, table, name, column)
      ensures failures >= old(failures)
      ensures failures == old(failures) <==> r.Ok?
    {
      var answered := Ask();
      r := if answered then Ok(HasIndex(catalog, table, name, column)) else Err(QueryFailed);
    }

    // ----------------------------------------------------------------- statements

    /**
      AddStableColumn, addTableColumn and AddStableTag: one ALTER statement on a physical
      table. The first two refuse a composite key.
     */
    method Alter(d: Ddl) returns (error: Option<MigrationError>, ghost accepted: seq<Ddl>, ghost tried: seq<Ddl>)
      requires d.AddStableColumn? || d.AddTableColumn? || d.AddStableTag?
      modifies this
      ensures Advanced(accepted, tried)
      ensures accepted == if error.None? then [d] else []
      ensures tried == [] || tried == [d]
      ensures error.None? ==> tried == [d] && Accepts(old(catalog), d)
      ensures tried != [] ==> !IsVirtual(old(catalog), d.table) && (d.AddStableTag? || !d.column.compositeKey)
      ensures failures == old(failures) && tried == [] ==>
              IsVirtual(old(catalog), d.table) || (!d.AddStableTag? && d.column.compositeKey)
      ensures failures == old(failures) ==>
              error == if IsVirtual(old(catalog), d.table) then Some(VirtualTableUnsupported(d.table))
                       else if !d.AddStableTag? && d.column.compositeKey then
                         Some(CompositeKeyMigrationUnsupported(d.table, d.column.name))
                       else if accepted == [] then Some(StatementRefused)
                       else None
    {
      accepted, tried := [], [];
      error := EnsurePhysicalTable(d.table);
      if error.Some? {
        return;
      }
      if !d.AddStableTag? && d.column.compositeKey {
        error := Some(CompositeKeyMigrationUnsupported(d.table, d.column.name));
        return;
      }
      tried := [d];
      OneStatement(catalog, d);
      var ok := Exec(d);
      if ok {
        accepted := [d];
      } else {
        error := Some(StatementRefused);
      }
    }

    /** CreateIndex: what the name looks up to must be an index on one tag. */
    method CreateIndex(m: Model, name: string)
      returns (error: Option<MigrationError>, ghost accepted: seq<Ddl>, ghost tried: seq<Ddl>)
      modifies this
      ensures Advanced(accepted, tried)
      ensures tried != [] ==>
              && IndexNamed(m, name).Ok? && !IsVirtual(old(catalog), m.table) && IsStable(old(catalog), m.table)
              && IsTagIndex(IndexNamed(m, name).value) && tried == [IndexStatement(m.table, IndexNamed(m, name).value)]
      ensures error.None? ==> tried != []
      ensures failures == old(failures) && tried == [] ==>
              IsVirtual(old(catalog), m.table) || IndexNamed(m, name).Err? || !IsStable(old(catalog), m.table)
      ensures failures == old(failures) ==>
              error == if IsVirtual(old(catalog), m.table) then Some(VirtualTableUnsupported(m.table))
                       else if IndexNamed(m, name).Err? then Some(IndexNamed(m, name).error)
                       else if !IsStable(old(catalog), m.table) then Some(TagIndexOnly)
                       else if accepted == [] then Some(StatementRefused)
                       else None
      ensures accepted == if error.None? then tried else []
    {
      hide IsTagIndex, LookIndex, HasIndex, IsVirtual, IsStable;
      accepted, tried := [], [];
      error := EnsurePhysicalTable(m.table);
      if error.Some? {
        return;
      }
      var index := IndexNamed(m, name);
      if index.Err? {
        error := Some(index.error);
        return;
      }
      var stable := AskStable(m.table);
      if stable.Err? {
        error := Some(stable.error);
        return;
      }
      if !stable.value {
        error := Some(TagIndexOnly);
        return;
      }
      var d := IndexStatement(m.table, index.value);
      tried := [d];
      OneStatement(catalog, d);
      var ok := Exec(d);
      if ok {
        accepted := tried;
      } else {
        error := Some(StatementRefused);
      }
    }

    /** The body of createMissingIndexes's loop. */
    method EnsureIndex(m: Model, index: Index)
      returns (error: Option<MigrationError>, ghost accepted: seq<Ddl>, ghost tried: seq<Ddl>)
      requires m.schema.Some? && (forall i <- m.schema.value.indexes :: IsTagIndex(i)) && IsTagIndex(index)
      modifies this
      ensures Advanced(accepted, tried)
      ensures Follows(IndexTurn(old(catalog), m.table, m.schema.value, index), accepted, tried, error,
                      failures == old(failures))
    {
      hide IsTagIndex, LookIndex, HasIndex, IsVirtual, IsStable, Apply;
      accepted, tried := [], [];
      NamedAmongValid(m, index.name);
      if IndexNamed(m, index.name).Err? {
        return Some(IndexNamed(m, index.name).error), [], [];
      }
      var present := HasTagIndex(m.table, index.name, IndexColumn(index));
      if present.Err? {
        return Some(present.error), [], [];
      }
      error := None;
      if !present.value {
        error, accepted, tried := CreateIndex(m, index.name);
      }
    }

    /** createMissingIndexes follows its plan, under any failures. */
    method CreateMissingIndexes(m: Model)
      returns (error: Option<MigrationError>, ghost accepted: seq<Ddl>, ghost tried: seq<Ddl>)
      requires m.schema.Some? && forall i <- m.schema.value.indexes :: IsTagIndex(i)
      modifies this
      ensures Advanced(accepted, tried)
      ensures Follows(IndexPath(old(catalog), m.table, m.schema.value, m.schema.value.indexes), accepted, tried, error,
                      failures == old(failures))
    {
      hide Follows, IsTagIndex, IndexTurn, Then, Ahead, Apply;
      var indexes := m.schema.value.indexes;
      ghost var path := IndexPath(catalog, m.table, m.schema.value, indexes);
      accepted := [];
      NothingDone(path);
      assert indexes[0..] == indexes;
      for i := 0 to |indexes|
        invariant Advanced(accepted, accepted)
        invariant path == Ahead(accepted, IndexPath(catalog, m.table, m.schema.value, indexes[i..]))
      {
        assert indexes[i] in indexes && indexes[i..][1..] == indexes[i + 1..] 
            && forall x <- indexes[i..] :: x in indexes;
        ghost var here, done, answered := catalog, accepted, failures;
        ghost var turn := IndexTurn(here, m.table, m.schema.value, indexes[i]);
        ghost var more, attempted;
        error, more, attempted := EnsureIndex(m, indexes[i]);
        accepted, tried := done + more, done + attempted;
        Composes(old(catalog), done, more, old(log), old(sent), attempted);
        OnePart(path, done, turn, IndexPath(ApplyAll(here, turn.ddl), m.table, m.schema.value, indexes[i + 1..]),
                more, attempted, error, failures == answered, failures == old(failures));
        if error.Some? {
          return;
        }
      }
      assert indexes[|indexes|..] == [];
      AllParts(path, accepted, failures == old(failures));
      error, tried := None, accepted;
    }

    /** The body of AutoMigrate's field loop. */
    method EnsureField(m: Model, stable: bool, field: Field)
      returns (error: Option<MigrationError>, ghost accepted: seq<Ddl>, ghost tried: seq<Ddl>)
      requires m.schema.Some? && field in m.schema.value.fields && !IsVirtual(catalog, m.table)
      modifies this
      ensures Advanced(accepted, tried)
      ensures Follows(FieldTurn(old(catalog), m.table, stable, field), accepted, tried, error,
                      failures == old(failures))
    {
      hide IsTag, HasOption, DataTypeOf, Apply, Named, IsVirtual, IsStable, C.HasColumn, LookUpField;
      accepted, tried := [], [];
      error := None;
      if field.ignoreMigration || field.dbName == "" {
        return;
      }
      var found := HasColumn(m, field.dbName);
      ColumnNameOfField(m, field);
      if found {
        return;
      }
      var column := ColumnDefinition(field);
      if column.compositeKey {
        return Some(CompositeKeyMigrationUnsupported(m.table, field.dbName)), [], [];
      }
      if IsTag(field) && !stable {
        return Some(NotASupertable(m.table)), [], [];
      }
      error, accepted, tried := Alter(Addition(m.table, stable, field));
    }

    /** The field loop of AutoMigrate follows its plan. */
    method AddMissingFields(m: Model, stable: bool)
      returns (error: Option<MigrationError>, ghost accepted: seq<Ddl>, ghost tried: seq<Ddl>)
      requires m.schema.Some? && !IsVirtual(catalog, m.table)
      modifies this
      ensures Advanced(accepted, tried)
      ensures Follows(FieldPath(old(catalog), m.table, stable, m.schema.value.fields), accepted, tried, error,
          failures == old(failures))
    {
      hide Follows, FieldTurn, Then, Ahead, Apply, IsVirtual;
      var fields := m.schema.value.fields;
      ghost var path := FieldPath(catalog, m.table, stable, fields);
      accepted := [];
      NothingDone(path);
      assert fields[0..] == fields;
      for i := 0 to |fields|
        invariant Advanced(accepted, accepted)
        invariant path == Ahead(accepted, FieldPath(catalog, m.table, stable, fields[i..]))
            && !IsVirtual(catalog, m.table)
      {
        assert fields[i] in fields && fields[i..][1..] == fields[i + 1..];
        ghost var here, done, answered := catalog, accepted, failures;
        ghost var turn := FieldTurn(here, m.table, stable, fields[i]);
        ghost var more, attempted;
        error, more, attempted := EnsureField(m, stable, fields[i]);
        StaysPhysical(here, more, m.table);
        accepted, tried := done + more, done + attempted;
        Composes(old(catalog), done, more, old(log), old(sent), attempted);
        OnePart(path, done, turn, FieldPath(ApplyAll(here, turn.ddl), m.table, stable, fields[i + 1..]),
                more, attempted, error, failures == answered, failures == old(failures));
        if error.Some? {
          return;
        }
      }
      assert fields[|fields|..] == [];
      AllParts(path, accepted, failures == old(failures));
      error, tried := None, accepted;
    }

    /** Both validations of a model. */
    method Validate(m: Model) returns (error: Option<MigrationError>)
      ensures error == if m.schema.Some? && Valid(m.schema.value) then None else Some(Invalidity(m))
    {
      hide ModelRules, IsTagIndex, Broken, BadIndex, ModelError, IndexesError;
      if m.schema.None? {
        return Some(SchemaMissing);
      }
      var columns, tags := ModelColumns(m.schema.value);
      error := ValidateModelColumns(columns, tags);
      if error.Some? {
        return;
      }
      error := ValidateModelIndexes(m.schema.value);
    }

    /** CreateTable for one model. */
    method CreateModel(m: Model)
      returns (error: Option<MigrationError>, ghost accepted: seq<Ddl>, ghost tried: seq<Ddl>)
      modifies this
      ensures Advanced(accepted, tried)
      ensures Follows(CreatePath(old(catalog), m), accepted, tried, error, failures == old(failures))
      ensures Rejected(m) ==> error.Some? && tried == []
    {
      hide Follows, IndexPath, Then, Ahead, Apply, Valid;
      accepted, tried := [], [];
      error := Validate(m);
      if error.Some? {
        NothingFollows(CreatePath(catalog, m), error, true);
        return;
      }
      var schema := m.schema.value;
      ValidIndexes(schema);
      var columns, tags := ModelColumns(schema);
      var d := CreateTable(m.table, true, columns, tags);
      ghost var rest := IndexPath(Apply(catalog, d), m.table, schema, schema.indexes);
      OneStatement(catalog, d);
      var ok := Exec(d);
      if !ok {
        tried, error := [d], Some(StatementRefused);
        RefusedAtOnce(d, rest, error, failures == old(failures));
        return;
      }
      ghost var more, attempted;
      error, more, attempted := CreateMissingIndexes(m);
      accepted, tried := [d] + more, [d] + attempted;
      Composes(old(catalog), [d], more, old(log), old(sent), attempted);
      AfterFirst(d, rest, more, attempted, error, failures == old(failures));
    }

    /** AutoMigrate for one model whose table was found. */
    method MigrateModel(m: Model)
      returns (error: Option<MigrationError>, ghost accepted: seq<Ddl>, ghost tried: seq<Ddl>)
      modifies this
      ensures Advanced(accepted, tried)
      ensures Follows(MigratePath(old(catalog), m), accepted, tried, error, failures == old(failures))
      ensures Rejected(m) ==> error.Some? && tried == []
    {
      hide Follows, IndexPath, FieldPath, Ahead, Then, Apply, Valid, IsVirtual, IsStable;
      accepted, tried := [], [];
      ghost var path := MigratePath(catalog, m);
      error := Validate(m);
      if error.Some? {
        NothingFollows(path, error, failures == old(failures));
        return;
      }
      error := EnsurePhysicalTable(m.table);
      if error.Some? {
        NothingFollows(path, error, failures == old(failures));
        return;
      }
      var stable := AskStable(m.table);
      if stable.Err? {
        error := Some(stable.error);
        NothingFollows(path, error, failures == old(failures));
        return;
      }
      var schema := m.schema.value;
      ValidIndexes(schema);
      ghost var start, fields := catalog, FieldPath(catalog, m.table, stable.value, schema.fields);
      ghost var rest := IndexPath(ApplyAll(start, fields.ddl), m.table, schema, schema.indexes);
      NothingDone(path);
      assert path == Then(fields, rest);
      ghost var answered := failures;
      error, accepted, tried := AddMissingFields(m, stable.value);
      OnePart(path, [], fields, rest, accepted, tried, error, failures == answered, failures == old(failures));
      assert [] + accepted == accepted && [] + tried == tried;
      if error.Some? {
        return;
      }
      ghost var done, more, attempted := accepted, [], [];
      answered := failures;
      error, more, attempted := CreateMissingIndexes(m);
      accepted, tried := done + more, done + attempted;
      Composes(old(catalog), done, more, old(log), old(sent), attempted);
      LastPart(path, done, rest, more, attempted, error, failures == answered, failures == old(failures));
    }

    /** CreateTable for a list of models, in order, up to the first error. */
    method CreateTables(models: seq<Model>)
      returns (error: Option<MigrationError>, ghost accepted: seq<Ddl>, ghost tried: seq<Ddl>)
      modifies this
      ensures Advanced(accepted, tried)
      ensures Extends(old(catalog), catalog) && forall d <- accepted :: Safe(d)
      ensures Follows(CreateRunPath(old(catalog), models), accepted, tried, error, failures == old(failures))
      ensures failures == old(failures) && tried == accepted && DistinctModels(models) ==>
              && (error.None? <==> forall m <- models :: Creatable(old(catalog), m))
              && error == FirstObstacle(old(catalog), models, true)
      ensures (forall m <- models :: ResolvingToTags(m)) ==> NoSecondIndex(old(catalog), accepted)
      ensures (forall m <- models :: ResolvingToTags(m)) && OneIndexPerTag(old(catalog)) ==> OneIndexPerTag(catalog)
    {
      hide DistinctModels, FirstObstacle, Creatable, Follows, CreatePath, CreateRunPath, Ahead, Then, Safe,
           NoSecondIndex, ResolvingToTags, Extends, Apply,
          OneIndexPerTag;
      ghost var path := CreateRunPath(catalog, models);
      accepted := [];
      NothingDone(path);
      RunBegins(catalog, models);
      assert models[0..] == models;
      for i := 0 to |models|
        invariant Advanced(accepted, accepted)
        invariant path == Ahead(accepted, CreateRunPath(catalog, models[i..]))
        invariant forall d <- accepted :: Safe(d)
        invariant (forall m <- models :: ResolvingToTags(m)) ==> NoSecondIndex(old(catalog), accepted)
      {
        assert models[i] in models && models[i..][1..] == models[i + 1..];
        ghost var here, done, answered := catalog, accepted, failures;
        ghost var more, attempted;
        CreateRunTurns(here, models[i..]);
        error, more, attempted := CreateModel(models[i]);
        accepted, tried := done + more, done + attempted;
        Composes(old(catalog), done, more, old(log), old(sent), attempted);
        CreatedIsFollowed(here, models[i], more, attempted, error, failures == answered);
        PathIsSafe(here, models[i], more);
        ModelKeepsIndexes(old(catalog), here, models, models[i], done, more);
        OnePart(path, done, CreatePath(here, models[i]),
                CreateRunPath(ApplyAll(here, CreatePath(here, models[i]).ddl), models[i + 1..]),
                more, attempted, error, failures == answered, failures == old(failures));
        if error.Some? {
          RunEnds(old(catalog), accepted);
          CleanCreation(old(catalog), models, accepted, tried, error, failures == old(failures));
          return;
        }
      }
      assert models[|models|..] == [];
      NoModelsLeft(catalog);
      AllParts(path, accepted, failures == old(failures));
      RunEnds(old(catalog), accepted);
      error, tried := None, accepted;
      CleanCreation(old(catalog), models, accepted, tried, error, failures == old(failures));
    }

    /** The body of AutoMigrate's loop. */
    method MigrateOne(m: Model)
      returns (error: Option<MigrationError>, ghost accepted: seq<Ddl>, ghost tried: seq<Ddl>)
      modifies this
      ensures Advanced(accepted, tried)
      ensures FollowsModel(old(catalog), m, accepted, tried, error, failures == old(failures))
      ensures Rejected(m) ==> error.Some? && tried == []
    {
      hide Follows, CreatePath, MigratePath;
      var found := HasTable(m.table);
      ghost var answered := failures;
      if !found {
        error, accepted, tried := CreateModel(m);
        LessClean(CreatePath(old(catalog), m), accepted, tried, error, failures == answered, failures == old(failures));
      } else {
        error, accepted, tried := MigrateModel(m);
        LessClean(MigratePath(old(catalog), m), accepted, tried, error, failures == answered,
                      failures == old(failures));
      }
    }

    /**
      AutoMigrate. Whatever fails, everything in the catalog is unchanged, what was added
      is explained by the models' plans, safe, and adds no second index to a tag. When
      every query is answered, it follows the plan of the run.
     */
    method AutoMigrate(models: seq<Model>)
      returns (error: Option<MigrationError>, ghost accepted: seq<Ddl>, ghost tried: seq<Ddl>)
      modifies this
      ensures Advanced(accepted, tried)
      ensures Extends(old(catalog), catalog)
      ensures Explained(old(catalog), models, accepted, error.None?)
      ensures forall d <- accepted :: Safe(d)
      ensures (forall m <- models :: ResolvingToTags(m)) ==> NoSecondIndex(old(catalog), accepted)
      ensures (forall m <- models :: ResolvingToTags(m)) && OneIndexPerTag(old(catalog)) ==> OneIndexPerTag(catalog)
      ensures failures == old(failures) ==> Follows(RunPath(old(catalog), models), accepted, tried, error, true)
      ensures failures == old(failures) && error.None? && (forall m <- models :: Resolving(m)) ==>
              forall m <- models :: Complete(catalog, m)
      ensures failures == old(failures) && tried == accepted && DistinctModels(models) ==>
              && (error.None? <==> forall m <- models :: Migratable(old(catalog), m))
              && error == FirstObstacle(old(catalog), models, false)
    {
      hide DistinctModels, FirstObstacle, Migratable, OneIndexPerTag, Resolving, Complete, Explained, Follows,
           FollowsModel, RunPath, ModelPath, Ahead, Then, Safe,
           NoSecondIndex, ResolvingToTags, Extends, Apply;
      ghost var path := RunPath(catalog, models);
      accepted := [];
      NothingDone(path);
      RunBegins(catalog, models);
      assert models[0..] == models;
      for i := 0 to |models|
        invariant Advanced(accepted, accepted)
        invariant failures == old(failures) ==> path == Ahead(accepted, RunPath(catalog, models[i..]))
        invariant forall rest: seq<Ddl>, ok: bool ::
          Explained(catalog, models[i..], rest, ok) ==> Explained(old(catalog), models, accepted + rest, ok)
        invariant forall d <- accepted :: Safe(d)
        invariant (forall m <- models :: ResolvingToTags(m)) ==> NoSecondIndex(old(catalog), accepted)
      {
        assert models[i] in models && models[i..][1..] == models[i + 1..];
        ghost var here, done, answered := catalog, accepted, failures;
        ghost var more, attempted;
        error, more, attempted := MigrateOne(models[i]);
        accepted, tried := done + more, done + attempted;
        Composes(old(catalog), done, more, old(log), old(sent), attempted);
        ModelIsFollowed(here, models[i], more, attempted, error, failures == answered);
        PathIsSafe(here, models[i], more);
        ModelKeepsIndexes(old(catalog), here, models, models[i], done, more);
        ModelIsExplained(here, models[i..], more, attempted, error, failures == answered);
        Rejoins(old(catalog), here, catalog, models, i, done, more);
        ModelFollowed(here, models[i], more, attempted, error, failures == answered);
        if failures == old(failures) {
          RunPathTurns(here, models[i..]);
          OnePart(path, done, ModelPath(here, models[i]),
              RunPath(ApplyAll(here, ModelPath(here, models[i]).ddl), models[i + 1..]),
                  more, attempted, error, true, true);
        }
        if error.Some? {
          RunEnds(old(catalog), accepted);
          CleanRun(old(catalog), models, accepted, tried, error, failures == old(failures));
          return;
        }
      }
      assert models[|models|..] == [];
      NoModelsLeft(catalog);
      assert accepted + [] == accepted;
      RunEnds(old(catalog), accepted);
      if failures == old(failures) {
        AllParts(path, accepted, true);
        CleanRunCompletes(old(catalog), models, accepted);
      }
      CleanRun(old(catalog), models, accepted, accepted, None, failures == old(failures));
      error, tried := None, accepted;
    }

    /** AddColumn: one field by its column name or Go name, after a placement check. */
    method AddColumn(m: Model, name: string)
      returns (error: Option<MigrationError>, ghost accepted: seq<Ddl>, ghost tried: seq<Ddl>)
      modifies this
      ensures Advanced(accepted, tried)
      ensures forall d <- accepted :: Safe(d)
      ensures Follows(ColumnPath(old(catalog), m, name), accepted, tried, error, failures == old(failures))
      ensures failures == old(failures) && tried == accepted ==>
              (error.None? <==> ColumnAddable(old(catalog), m, name)) && error == ColumnObstacle(old(catalog), m, name)
      ensures error.None? ==> m.schema.Some? && LookUpField(m.schema.value.fields, name).Some?
      ensures error.None? && LookUpField(m.schema.value.fields, name).value.ignoreMigration ==> accepted == []
      ensures error.None? && !LookUpField(m.schema.value.fields, name).value.ignoreMigration ==>
              Arrived(old(catalog), catalog, m.table, LookUpField(m.schema.value.fields, name).value)
    {
      ColumnPathSucceeds(catalog, m, name);
      hide Arrived, ColumnAddable, ColumnObstacle, IsTag, HasOption, DataTypeOf, Apply, WellPlaced, IsVirtual, IsStable,
           LookUpField;
      accepted, tried := [], [];
      if m.schema.None? {
        return Some(SchemaMissing), [], [];
      }
      var found := LookUpField(m.schema.value.fields, name);
      if found.None? {
        return Some(FieldNotFound(name)), [], [];
      }
      var field := found.value;
      error := None;
      if field.ignoreMigration {
        return;
      }
      error := EnsurePhysicalTable(m.table);
      if error.Some? {
        return;
      }
      var stable := AskStable(m.table);
      if stable.Err? {
        return Some(stable.error), [], [];
      }
      var column := ColumnDefinition(field);
      if column.compositeKey {
        return Some(CompositeKeyMigrationUnsupported(m.table, field.dbName)), [], [];
      }
      error := PlacementError(column, IsTag(field));
      if error.Some? {
        return;
      }
      if IsTag(field) && !stable.value {
        return Some(NotASupertable(m.table)), [], [];
      }
      AdditionIsNew(catalog, m.table, stable.value, field);
      OneStatement(catalog, Addition(m.table, stable.value, field));
      error, accepted, tried := Alter(Addition(m.table, stable.value, field));
    }

    /** Any sequence of migration calls; each one may fail without stopping the next. */
    method Run(operations: seq<Operation>) returns (ghost accepted: seq<Ddl>)
      modifies this
      ensures log == old(log) + accepted && catalog == ApplyAll(old(catalog), accepted)
      ensures Extends(old(catalog), catalog) && SameKeys(old(catalog), catalog)
      ensures (forall o <- operations :: !o.RunAddStableColumn?) ==> NewIsPlaced(old(catalog), catalog)
    {
      hide Safe, Extends, SameKeys, NewIsPlaced, Apply, NoSecondIndex, ResolvingToTags, Explained, Follows, RunPath;
      accepted := [];
      for i := 0 to |operations|
        invariant log == old(log) + accepted && catalog == ApplyAll(old(catalog), accepted)
        invariant forall d <- accepted :: KeepsKeys(d)
        invariant (forall o <- operations :: !o.RunAddStableColumn?) ==> forall d <- accepted :: Safe(d)
      {
        assert operations[i] in operations;
        ghost var here, done, more := catalog, accepted, [];
        match operations[i] {
          case RunCreateTable(models) =>
            var _, more', _ := CreateTables(models);
            more := more';
            SafeKeepsKeys(more);
          case RunAutoMigrate(models) =>
            var _, more', _ := AutoMigrate(models);
            more := more';
            SafeKeepsKeys(more);
          case RunAddColumn(m, name) =>
            var _, more', _ := AddColumn(m, name);
            more := more';
            SafeKeepsKeys(more);
          case RunAddStableColumn(table, column) =>
            var _, more', _ := Alter(AddStableColumn(table, column));
            more := more';
        }
        accepted := done + more;
        Composes(old(catalog), done, more, old(log), [], []);
      }
      RunsOnlyAdd(old(catalog), accepted);
      RunKeepsKeys(old(catalog), accepted);
      if forall o <- operations :: !o.RunAddStableColumn? {
        RunIsPlaced(old(catalog), accepted);
      }
    }

    /**
      AutoMigrate twice. If the first run ends without an error, every query of both runs is
      answered and the index names resolve, then every model is complete, and the second run
      sends nothing and reports no error.
     */
    method AutoMigrateTwice(models: seq<Model>) returns (first: Option<MigrationError>, second: Option<MigrationError>)
      modifies this
      ensures first.None? && failures == old(failures) && (forall m <- models :: Resolving(m)) ==>
              && (forall m <- models :: Complete(catalog, m))
              && second.None?
              && var ddl := RunPath(old(catalog), models).ddl;
              sent == old(sent) + ddl && log == old(log) + ddl
    {
      hide Extends, Safe, Explained, NoSecondIndex, ResolvingToTags, Resolving, RunPath, Complete, Apply;
      ghost var start := catalog;
      ghost var accepted, tried, accepted', tried';
      first, accepted, tried := AutoMigrate(models);
      ghost var middle := catalog;
      second, accepted', tried' := AutoMigrate(models);
      if first.None? && failures == old(failures) && forall m <- models :: Resolving(m) {
        RunPathCompletes(start, models);
        SecondRunIsIdle(start, models);
        assert middle == ApplyAll(start, RunPath(start, models).ddl);
        assert accepted' == [] && tried' == [];
        assert catalog == middle;
      }
    }
  }

  datatype Operation =
    | RunCreateTable(models: seq<Model>)
    | RunAutoMigrate(models: seq<Model>)
    | RunAddColumn(m: Model, name: string)
    | RunAddStableColumn(table: string, column: Column)

  /** The field was not there, and is the table's last column or, exactly if it is one, its last tag. */
  ghost predicate Arrived(before: Catalog, after: Catalog, table: string, f: Field) {
    && table in before.tables && table in after.tables
    && var (a, b, c) := (before.tables[table], after.tables[table],
                         Column(f.dbName, DataTypeOf(f), 0, HasOption(f, "compositekey"), "", "", ""));
    && (forall x <- a.columns + a.tags :: !EqualFold(x.name, f.dbName))
    && b.columns == a.columns + (if HasOption(f, "tag") then [] else [c])
    && b.tags == a.tags + (if HasOption(f, "tag") then [c] else [])
  }

  lemma AdditionIsNew(cat: Catalog, table: string, stable: bool, field: Field)
    ensures var d := Addition(table, stable, field); Accepts(cat, d) ==> Arrived(cat, Apply(cat, d), table, field)
  {
    hide HasOption, DataTypeOf, EqualFold;
    if Accepts(cat, Addition(table, stable, field)) {
      AdditionAdds(table, stable, field);
      AdditionArrives(cat, Addition(table, stable, field), table, stable, field);
    }
  }

  lemma SafeKeepsKeys(log: seq<Ddl>)
    requires forall d <- log :: Safe(d)
    ensures forall d <- log :: KeepsKeys(d)
  {
    hide ModelRules, WellPlaced;
  }

  lemma {:induction false} StaysPhysical(cat: Catalog, log: seq<Ddl>, table: string)
    requires !IsVirtual(cat, table)
    ensures !IsVirtual(ApplyAll(cat, log), table)
    decreases |log|
  {
    if log != [] {
      StaysPhysical(Apply(cat, log[0]), log[1..], table);
    }
  }

  lemma RefusedAtOnce(d: Ddl, rest: Path, error: Option<MigrationError>, clean: bool)
    requires error == Some(StatementRefused)
    ensures Follows(Then(Path([d], None), rest), [], [d], error, clean)
  {
  }

  lemma AfterFirst(d: Ddl, rest: Path, more: seq<Ddl>, attempted: seq<Ddl>, error: Option<MigrationError>, clean: bool)
    requires Follows(rest, more, attempted, error, clean)
    ensures Follows(Then(Path([d], None), rest), [d] + more, [d] + attempted, error, clean)
  {
  }

  lemma LastPart(path: Path, done: seq<Ddl>, rest: Path, more: seq<Ddl>, attempted: seq<Ddl>,
                 error: Option<MigrationError>, clean: bool, allClean: bool)
    requires path == Ahead(done, rest) && Follows(rest, more, attempted, error, clean) && (allClean ==> clean)
    ensures Follows(path, done + more, done + attempted, error, allClean)
  {
  }

  lemma LessClean(path: Path, accepted: seq<Ddl>, tried: seq<Ddl>, error: Option<MigrationError>, clean: bool,
      allClean: bool)
    requires Follows(path, accepted, tried, error, clean) && (allClean ==> clean)
    ensures Follows(path, accepted, tried, error, allClean)
  {
  }

  /** Two moves in a row are one. */
  lemma Composes(cat: Catalog, done: seq<Ddl>, more: seq<Ddl>, log: seq<Ddl>, sent: seq<Ddl>, tried: seq<Ddl>)
    ensures log + done + more == log + (done + more) && sent + done + tried == sent + (done + tried)
    ensures ApplyAll(ApplyAll(cat, done), more) == ApplyAll(cat, done + more)
  {
    Associates(log, done, more);
    Associates(sent, done, tried);
    ApplySplits(cat, done, more);
  }

  // ------------------------------------------------------------- laws of a whole run

  lemma RunBegins(cat: Catalog, models: seq<Model>)
    ensures forall rest: seq<Ddl> :: [] + rest == rest
    ensures NoSecondIndex(cat, [])
  {
  }

  lemma NoModelsLeft(cat: Catalog)
    ensures Explained(cat, [], [], true) && RunPath(cat, []) == DONE && CreateRunPath(cat, []) == DONE
  {
  }

  lemma CreateRunTurns(cat: Catalog, models: seq<Model>)
    requires models != []
    ensures var path := CreatePath(cat, models[0]);
            CreateRunPath(cat, models) == Then(path, CreateRunPath(ApplyAll(cat, path.ddl), models[1..]))
  {
  }

  /** What every run of models leaves behind, wherever it stops. */
  lemma RunEnds(cat: Catalog, accepted: seq<Ddl>)
    requires forall d <- accepted :: Safe(d)
    ensures Extends(cat, ApplyAll(cat, accepted))
    ensures OneIndexPerTag(cat) && NoSecondIndex(cat, accepted) ==> OneIndexPerTag(ApplyAll(cat, accepted))
  {
    hide OneIndexPerTag, NoSecondIndex, Extends, ModelRules, WellPlaced;
    RunsOnlyAdd(cat, accepted);
    if OneIndexPerTag(cat) && NoSecondIndex(cat, accepted) {
      UniqueAfter(cat, accepted);
    }
  }

  /** A clean run that follows its plan succeeds exactly when the models are fit for it. */
  lemma CleanRun(cat: Catalog, models: seq<Model>, accepted: seq<Ddl>, tried: seq<Ddl>,
                 error: Option<MigrationError>, clean: bool)
    requires clean ==> Follows(RunPath(cat, models), accepted, tried, error, true)
    ensures clean && tried == accepted && DistinctModels(models) ==>
            && (error.None? <==> forall m <- models :: Migratable(cat, m))
            && error == FirstObstacle(cat, models, false)
  {
    hide RunPath, DistinctModels, Migratable, FirstObstacle;
    if DistinctModels(models) {
      RunPathSucceeds(cat, models);
    }
  }

  lemma CleanCreation(cat: Catalog, models: seq<Model>, accepted: seq<Ddl>, tried: seq<Ddl>,
                      error: Option<MigrationError>, clean: bool)
    requires Follows(CreateRunPath(cat, models), accepted, tried, error, clean)
    ensures clean && tried == accepted && DistinctModels(models) ==>
            && (error.None? <==> forall m <- models :: Creatable(cat, m))
            && error == FirstObstacle(cat, models, true)
  {
    hide CreateRunPath, DistinctModels, Creatable, FirstObstacle;
    if DistinctModels(models) {
      CreateRunSucceeds(cat, models);
    }
  }

  lemma CleanRunCompletes(cat: Catalog, models: seq<Model>, accepted: seq<Ddl>)
    requires RunPath(cat, models) == Ahead(accepted, DONE)
    ensures (forall m <- models :: Resolving(m)) ==> forall m <- models :: Complete(ApplyAll(cat, accepted), m)
  {
    hide RunPath, Resolving, Complete;
    assert accepted + [] == accepted;
    if forall m <- models :: Resolving(m) {
      RunPathCompletes(cat, models);
    }
  }

  lemma RunPathTurns(cat: Catalog, models: seq<Model>)
    requires models != []
    ensures var path := ModelPath(cat, models[0]);
            RunPath(cat, models) == Then(path, RunPath(ApplyAll(cat, path.ddl), models[1..]))
  {
  }

  lemma ModelFollowed(cat: Catalog, m: Model, more: seq<Ddl>, tried: seq<Ddl>, error: Option<MigrationError>,
      clean: bool)
    requires FollowsModel(cat, m, more, tried, error, clean)
    ensures clean ==> Follows(ModelPath(cat, m), more, tried, error, true)
    ensures error.None? ==> tried == more
  {
    hide CreatePath, MigratePath, ModelPath;
  }

  lemma ModelIsFollowed(cat: Catalog, m: Model, more: seq<Ddl>, tried: seq<Ddl>, error: Option<MigrationError>,
      clean: bool)
    requires FollowsModel(cat, m, more, tried, error, clean)
    ensures more <= CreatePath(cat, m).ddl || more <= MigratePath(cat, m).ddl
  {
    hide CreatePath, MigratePath, ModelPath;
  }

  lemma CreatedIsFollowed(cat: Catalog, m: Model, more: seq<Ddl>, tried: seq<Ddl>, error: Option<MigrationError>,
      clean: bool)
    requires Follows(CreatePath(cat, m), more, tried, error, clean)
    ensures more <= CreatePath(cat, m).ddl && (error.None? ==> tried == more)
  {
    hide CreatePath;
  }

  lemma ModelKeepsIndexes(start: Catalog, cat: Catalog, models: seq<Model>, m: Model, done: seq<Ddl>, more: seq<Ddl>)
    requires m in models && cat == ApplyAll(start, done)
    requires more <= CreatePath(cat, m).ddl || more <= MigratePath(cat, m).ddl
    requires (forall x <- models :: ResolvingToTags(x)) ==> NoSecondIndex(start, done)
    ensures (forall x <- models :: ResolvingToTags(x)) ==> NoSecondIndex(start, done + more)
  {
    hide NoSecondIndex, CreatePath, MigratePath, ResolvingToTags;
    if forall x <- models :: ResolvingToTags(x) {
      PathAddsNoSecond(cat, m, more);
      NoSecondSplits(start, done, more);
    }
  }

  /** What one model did explains the beginning of the rest of the run. */
  lemma ModelIsExplained(cat: Catalog, models: seq<Model>, more: seq<Ddl>, tried: seq<Ddl>,
      error: Option<MigrationError>, clean: bool)
    requires models != [] && FollowsModel(cat, models[0], more, tried, error, clean)
    ensures error.Some? ==> Explained(cat, models, more, false)
    ensures error.None? ==> forall rest: seq<Ddl>, ok: bool ::
              Explained(ApplyAll(cat, more), models[1..], rest, ok) ==> Explained(cat, models, more + rest, ok)
  {
    hide CreatePath, MigratePath, ModelPath;
    if error.None? {
      forall rest: seq<Ddl>, ok: bool | Explained(ApplyAll(cat, more), models[1..], rest, ok)
        ensures Explained(cat, models, more + rest, ok)
      {
        SplitsBack(more, rest);
        var path := if Follows(CreatePath(cat, models[0]), more, tried, error, clean) then CreatePath(cat, models[0])
                    else MigratePath(cat, models[0]);
        assert Ends(cat, models, path, more + rest, ok);
      }
    }
  }

  /** The explanation so far, extended by one model. */
  lemma Rejoins(start: Catalog, here: Catalog, next: Catalog, models: seq<Model>, i: nat, done: seq<Ddl>,
      more: seq<Ddl>)
    requires i < |models| && next == ApplyAll(here, more)
    requires forall rest: seq<Ddl>, ok: bool ::
               Explained(here, models[i..], rest, ok) ==> Explained(start, models, done + rest, ok)
    ensures Explained(here, models[i..], more, false) ==> Explained(start, models, done + more, false)
    ensures (forall rest: seq<Ddl>, ok: bool ::
               Explained(next, models[i + 1..], rest, ok) ==> Explained(here, models[i..], more + rest, ok)) ==>
            (forall rest: seq<Ddl>, ok: bool ::
               Explained(next, models[i + 1..], rest, ok) ==> Explained(start, models, (done + more) + rest, ok))
  {
    hide Explained;
    forall rest: seq<Ddl> ensures (done + more) + rest == done + (more + rest) {
      Associates(done, more, rest);
    }
  }
}
