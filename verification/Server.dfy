/**
  The server as a reader of SQL. It sees the text of every statement and nothing else,
  so its columns carry the types that the text spells: a field of type VARCHAR(64) is
  stored as the constant VARCHAR with length 64. Apart from that its catalog is the one
  the plans and the migrator talk about.
 */
module Server {
  import opened Common
  import opened Ascii
  import opened Decimal
  import opened Column
  import opened Schema
  import opened Catalog
  import opened Plan
  import opened TableParser
  import opened Statements

  // ------------------------------------------------------------ canonical columns

  /** How a type can change on its way through text: its length moves out of the name. */
  lemma CanonicalType(c: Column)
    ensures Canonical(c).columnType == c.columnType
         || (Canonical(c).columnType in SIZED
             && exists rest: string ::
                  && c.columnType == Canonical(c).columnType + rest && rest != ""
                  && rest[0] == '(' && rest[|rest| - 1] == ')')
  {
    hide FormatUint, ParseUint;
    if c.columnType in SIZED {
      SizedAreWords(c.columnType);
      SizedRoundTrips(c.columnType, c.length);
      Associates4(c.columnType, "(", FormatUint(c.length), ")");
    } else {
      assert TypeSpec(c) == c.columnType;
      var (word, rest) := Span(IsLetter, c.columnType);
      assert c.columnType == word + rest;
    }
  }

  lemma SizedIsNoTimestamp(word: string)
    requires word in SIZED
    ensures |word| > 1 && UpperByte(word[0]) != 'T'
  {
  }

  /** No rule of the migrator looks at the part of a type that moves. */
  lemma CanonicalIsAlike(c: Column)
    ensures Canonical(c).name == c.name && Canonical(c).compositeKey == c.compositeKey
    ensures BaseType(Canonical(c).columnType) == BaseType(c.columnType)
    ensures IsTimestamp(Canonical(c)) <==> IsTimestamp(c)
  {
    hide Canonical, TrimSpace, BaseType;
    CanonicalType(c);
    CanonicalKeeps(c);
    var word := Canonical(c).columnType;
    if word != c.columnType {
      var rest :| c.columnType == word + rest && rest != "" && rest[0] == '(' && rest[|rest| - 1] == ')';
      SizedAreWords(word);
      SizedIsNoTimestamp(word);
      BaseTypeOfWord(word, rest);
      BaseTypeOfWord(word, "");
      assert word + "" == word;
      assert "TIMESTAMP"[0] == 'T';
    }
  }

  lemma CanonicalKeeps(c: Column)
    ensures Canonical(c).name == c.name && Canonical(c).compositeKey == c.compositeKey
  {
  }

  lemma {:induction false} CanonicalAt(columns: seq<Column>)
    ensures |CanonicalAll(columns)| == |columns|
    ensures forall i :: 0 <= i < |columns| ==> CanonicalAll(columns)[i] == Canonical(columns[i])
  {
    hide Canonical;
    if columns != [] {
      CanonicalAt(columns[1..]);
    }
  }

  lemma CanonicalSplits(columns: seq<Column>, more: seq<Column>)
    ensures CanonicalAll(columns + more) == CanonicalAll(columns) + CanonicalAll(more)
  {
    hide Canonical, CanonicalAll;
    CanonicalAt(columns);
    CanonicalAt(more);
    CanonicalAt(columns + more);
  }

  // ------------------------------------------------------------ canonical catalogs

  function CanonicalInfo(info: TableInfo): TableInfo {
    info.(columns := CanonicalAll(info.columns), tags := CanonicalAll(info.tags))
  }

  /** The catalog of a server that read every statement from its text. */
  ghost function CanonicalCatalog(cat: Catalog): Catalog {
    Catalog(map t | t in cat.tables :: CanonicalInfo(cat.tables[t]), cat.naming)
  }

  lemma NamesAreAlike(columns: seq<Column>, name: string)
    ensures (exists c <- CanonicalAll(columns) :: Named(c, name)) <==> (exists c <- columns :: Named(c, name))
    ensures (exists c <- CanonicalAll(columns) :: c.name == name) <==> (exists c <- columns :: c.name == name)
    ensures DistinctNames(CanonicalAll(columns)) <==> DistinctNames(columns)
  {
    hide Canonical, CanonicalAll, EqualFold;
    CanonicalAt(columns);
    forall c <- columns ensures Canonical(c) in CanonicalAll(columns) && Canonical(c).name == c.name {
      var i :| 0 <= i < |columns| && columns[i] == c;
      assert CanonicalAll(columns)[i] == Canonical(c);
      CanonicalKeeps(c);
    }
    forall c <- CanonicalAll(columns) ensures exists x <- columns :: c == Canonical(x) && c.name == x.name {
      var i :| 0 <= i < |columns| && CanonicalAll(columns)[i] == c;
      CanonicalKeeps(columns[i]);
    }
    forall i | 0 <= i < |columns| ensures CanonicalAll(columns)[i].name == columns[i].name {
      CanonicalKeeps(columns[i]);
    }
  }

  /** Every query has the same answer. */
  lemma QueriesAreAlike(cat: Catalog, table: string, name: string, column: string)
    ensures HasColumn(CanonicalCatalog(cat), table, name) <==> HasColumn(cat, table, name)
    ensures HasIndex(CanonicalCatalog(cat), table, name, column) <==> HasIndex(cat, table, name, column)
    ensures IsVirtual(CanonicalCatalog(cat), table) <==> IsVirtual(cat, table)
    ensures IsStable(CanonicalCatalog(cat), table) <==> IsStable(cat, table)
  {
    hide CanonicalAll, Named;
    if table in cat.tables {
      CanonicalSplits(cat.tables[table].columns, cat.tables[table].tags);
      NamesAreAlike(cat.tables[table].columns + cat.tables[table].tags, name);
    }
  }

  /** The server that reads the text accepts the same statements. */
  lemma AcceptsAlike(cat: Catalog, d: Ddl)
    ensures Accepts(CanonicalCatalog(cat), CanonicalDdl(d)) <==> Accepts(cat, d)
  {
    hide CanonicalAll, Named, DistinctNames, Canonical, HasColumn;
    match d {
      case CreateTable(_, _, columns, tags) =>
        CanonicalSplits(columns, tags);
        NamesAreAlike(columns + tags, "");
      case CreateIndex(_, table, tag) =>
        QueriesAreAlike(cat, table, "", "");
        if table in cat.tables {
          NamesAreAlike(cat.tables[table].tags, tag);
        }
      case _ =>
        CanonicalKeeps(d.column);
        QueriesAreAlike(cat, d.table, d.column.name, "");
    }
  }

  /** Reading a statement from its text and applying it commute. */
  lemma AppliesAlike(cat: Catalog, d: Ddl)
    ensures Apply(CanonicalCatalog(cat), CanonicalDdl(d)) == CanonicalCatalog(Apply(cat, d))
  {
    hide Canonical, CanonicalAll;
    if d.CreateTable? {
      CanonicalAt(d.tags);
      CanonicalAt([]);
      if d.tags != [] {
        CanonicalKeeps(d.tags[0]);
      }
    } else if d.table in cat.tables && !d.CreateIndex? {
      CanonicalSplits(cat.tables[d.table].columns, [d.column]);
      CanonicalSplits(cat.tables[d.table].tags, [d.column]);
      OneCanonical(d.column);
    }
    assert Apply(CanonicalCatalog(cat), CanonicalDdl(d)).tables == CanonicalCatalog(Apply(cat, d)).tables;
  }

  lemma OneCanonical(c: Column)
    ensures CanonicalAll([c]) == [Canonical(c)]
  {
    hide Canonical;
    assert CanonicalAll([c][1..]) == [];
  }

  /** Text changes nothing about a statement's safety. */
  lemma SafeAlike(d: Ddl)
    ensures KeepsKeys(CanonicalDdl(d)) <==> KeepsKeys(d)
    ensures Safe(CanonicalDdl(d)) <==> Safe(d)
  {
    hide Canonical, CanonicalAll, ModelRules, BaseType;
    if d.CreateTable? {
      RulesAlike(d.columns, d.tags);
    } else if !d.CreateIndex? {
      CanonicalIsAlike(d.column);
    }
  }

  lemma RulesAlike(columns: seq<Column>, tags: seq<Column>)
    ensures ModelRules(CanonicalAll(columns), CanonicalAll(tags)) <==> ModelRules(columns, tags)
  {
    hide Canonical, CanonicalAll, BaseType, IsTimestamp;
    CanonicalAt(columns);
    CanonicalAt(tags);
    forall c: Column
      ensures Canonical(c).compositeKey == c.compositeKey && (IsTimestamp(Canonical(c)) <==> IsTimestamp(c))
      ensures BaseType(Canonical(c).columnType) == BaseType(c.columnType)
    {
      CanonicalIsAlike(c);
    }
    PlacedAlike(columns, false);
    PlacedAlike(tags, true);
    forall i | 0 <= i < |columns| ensures KeyAllowed(CanonicalAll(columns)[i], i) <==> KeyAllowed(columns[i], i) {
    }
    UniqueAlike(columns);
  }

  lemma PlacedAlike(columns: seq<Column>, tag: bool)
    ensures (forall c <- CanonicalAll(columns) :: WellPlaced(c, tag)) <==> (forall c <- columns :: WellPlaced(c, tag))
    ensures (forall c <- CanonicalAll(columns) :: !c.compositeKey) <==> (forall c <- columns :: !c.compositeKey)
  {
    hide Canonical, CanonicalAll, BaseType;
    CanonicalAt(columns);
    forall i | 0 <= i < |columns|
      ensures CanonicalAll(columns)[i] in CanonicalAll(columns) && columns[i] in columns
      ensures WellPlaced(CanonicalAll(columns)[i], tag) <==> WellPlaced(columns[i], tag)
      ensures CanonicalAll(columns)[i].compositeKey == columns[i].compositeKey
    {
      CanonicalIsAlike(columns[i]);
    }
  }

  lemma UniqueAlike(columns: seq<Column>)
    ensures Unique(IsKey, CanonicalAll(columns)) <==> Unique(IsKey, columns)
    ensures Unique(IsBlob, CanonicalAll(columns)) <==> Unique(IsBlob, columns)
  {
    hide Canonical, CanonicalAll, BaseType;
    CanonicalAt(columns);
    forall i | 0 <= i < |columns|
      ensures IsKey(CanonicalAll(columns)[i]) <==> IsKey(columns[i])
      ensures IsBlob(CanonicalAll(columns)[i]) <==> IsBlob(columns[i])
    {
      CanonicalIsAlike(columns[i]);
    }
  }

  // -------------------------------------------------------------- runs as texts

  ghost function Texts(log: seq<Ddl>): seq<string> {
    if log == [] then [] else [DdlText(log[0])] + Texts(log[1..])
  }

  /** What the server makes of the texts it is sent, if it can read all of them. */
  ghost function Served(cat: Catalog, texts: seq<string>): Option<Catalog>
    decreases |texts|
  {
    if texts == [] then Some(cat)
    else if ReadDdl(texts[0]).None? then None
    else Served(Apply(cat, ReadDdl(texts[0]).value), texts[1..])
  }

  /** The texts of a run lead the server to the run's catalog. */
  lemma {:induction false} TextsAreServed(cat: Catalog, log: seq<Ddl>)
    requires forall d <- log :: Sayable(d)
    ensures Served(CanonicalCatalog(cat), Texts(log)) == Some(CanonicalCatalog(ApplyAll(cat, log)))
    decreases |log|
  {
    hide ReadDdl, DdlText, Sayable, Apply, CanonicalCatalog, CanonicalDdl;
    if log != [] {
      var d, more := log[0], log[1..];
      DdlRoundTrip(d);
      AppliesAlike(cat, d);
      TextsAreServed(Apply(cat, d), more);
      assert Texts(log)[1..] == Texts(more);
    }
  }

  lemma CompleteAlike(cat: Catalog, m: Model)
    ensures Complete(CanonicalCatalog(cat), m) <==> Complete(cat, m)
  {
    hide HasColumn, HasIndex, IsVirtual, IsMigrated, Valid, IsTagIndex;
    if m.schema.Some? && Valid(m.schema.value) {
      ValidIndexes(m.schema.value);
      QueriesAreAlike(cat, m.table, "", "");
      forall f <- m.schema.value.fields
        ensures Settled(CanonicalCatalog(cat), m.table, f) <==> Settled(cat, m.table, f)
      {
        QueriesAreAlike(cat, m.table, f.dbName, "");
      }
      forall i <- m.schema.value.indexes
        ensures HasIndex(CanonicalCatalog(cat), m.table, i.name, IndexColumn(i))
            <==> HasIndex(cat, m.table, i.name, IndexColumn(i))
      {
        QueriesAreAlike(cat, m.table, i.name, IndexColumn(i));
      }
    }
  }

  /**
    The migration of a spellable model, sent as text: the server ends in the catalog of the
    plan, and when the plan has no error and the index names resolve, that catalog is complete.
   */
  lemma MigrationIsServed(cat: Catalog, m: Model)
    requires m.schema.Some? && Spellable(m.table, m.schema.value)
    ensures var path := ModelPath(cat, m);
            && Served(CanonicalCatalog(cat), Texts(path.ddl)) == Some(CanonicalCatalog(ApplyAll(cat, path.ddl)))
            && (path.ok && Resolving(m) ==> Complete(CanonicalCatalog(ApplyAll(cat, path.ddl)), m))
  {
    hide Sayable, ModelPath, Resolving, Complete, CanonicalCatalog, Apply, CreatePath, MigratePath, Spellable;
    var path := ModelPath(cat, m);
    ModelPathIsSayable(cat, m);
    TextsAreServed(cat, path.ddl);
    if path.ok && Resolving(m) {
      ModelPathCompletes(cat, m);
      CompleteAlike(ApplyAll(cat, path.ddl), m);
    }
  }

  lemma ModelPathIsSayable(cat: Catalog, m: Model)
    requires m.schema.Some? && Spellable(m.table, m.schema.value)
    ensures forall d <- ModelPath(cat, m).ddl :: Sayable(d)
  {
    hide Sayable, Spellable, CreatePath, MigratePath;
    forall d <- ModelPath(cat, m).ddl ensures Sayable(d) {
      PlannedIsSayable(cat, m, d);
    }
  }
}
