/**
  When the index loop keeps its promises. createMissingIndexes checks an index by its
  own name and tag, but CreateIndex looks the name up again, and that lookup also
  matches Go field names. On a server that accepts a second index on a tag, a model's
  migration keeps both promises exactly when these lookups agree; on a server that
  refuses one, a migration without an error is complete for every model.
 */
module IndexNames {
  import opened Common
  import opened Ascii
  import opened Column
  import opened Schema
  import opened Catalog
  import opened Plan

  /** What GORM makes of a struct whose columns can share a table: indexes are on the model's own columns. */
  ghost predicate Parsed(m: Model) {
    m.schema.Some? ==>
      var (fields, indexes) := (m.schema.value.fields, m.schema.value.indexes);
      && (forall i <- indexes :: forall f <- i.fields :: f.field in fields && IsMigrated(f.field))
      && (forall i, j :: 0 <= i < j < |indexes| ==> indexes[i].name != indexes[j].name)
      && (forall i, j :: 0 <= i < j < |fields| && IsMigrated(fields[i]) && IsMigrated(fields[j]) ==>
            !EqualFold(fields[i].dbName, fields[j].dbName))
  }

  /** A migration without an error leaves the model complete, whatever the catalog was. */
  ghost predicate Completes(m: Model) {
    forall cat: Catalog :: Reachable(cat) && ModelPath(cat, m).ok && AllAccepted(cat, ModelPath(cat, m).ddl) ==>
      Complete(ApplyAll(cat, ModelPath(cat, m).ddl), m)
  }

  /** Tags that had at most one index still have at most one. */
  ghost predicate KeepsOnePerTag(m: Model) {
    forall cat: Catalog :: Reachable(cat) && OneIndexPerTag(cat) && AllAccepted(cat, ModelPath(cat, m).ddl) ==>
      OneIndexPerTag(ApplyAll(cat, ModelPath(cat, m).ddl))
  }

  // ------------------------------------------------------------------ fresh names

  function Long(n: nat): (s: string)
    ensures |s| == n
  {
    if n == 0 then "" else "x" + Long(n - 1)
  }

  function Extra(n: nat): Column { Column(Long(n), "INT", 0, false, "", "", "") }

  function Extras(n: nat, count: nat): (columns: seq<Column>)
    ensures |columns| == count && forall k :: 0 <= k < count ==> columns[k] == Extra(n + k)
    decreases count
  {
    if count == 0 then [] else [Extra(n)] + Extras(n + 1, count - 1)
  }

  /** No name is as long as n. */
  ghost predicate Short(schema: Schema, n: nat) {
    (forall f <- schema.fields :: |f.dbName| < n) && forall i <- schema.indexes :: |i.name| < n
  }

  function FieldBound(fields: seq<Field>): (n: nat)
    ensures forall f <- fields :: |f.dbName| < n
  {
    if fields == [] then 0 else |fields[0].dbName| + 1 + FieldBound(fields[1..])
  }

  function IndexBound(indexes: seq<Index>): (n: nat)
    ensures forall i <- indexes :: |i.name| < n
  {
    if indexes == [] then 0 else |indexes[0].name| + 1 + IndexBound(indexes[1..])
  }

  // ----------------------------------------------------- the columns of the table

  lemma {:induction false} DefinitionsAreDistinct(fields: seq<Field>, tags: bool)
    requires DistinctFields(fields)
    ensures DistinctNames(Definitions(fields, tags))
  {
    hide IsMigrated, IsTag, EqualFold, HasOption, DataTypeOf;
    if fields != [] {
      var (f, more) := (fields[0], fields[1..]);
      DefinitionsAreDistinct(more, tags);
      forall c <- Definitions(more, tags) ensures IsMigrated(f) ==> !Named(ColumnDefinition(f), c.name) {
        var k := DefinitionOrigin(more, tags, c);
        assert more[k] == fields[k + 1];
      }
      DistinctInFront(ColumnDefinition(f), Definitions(more, tags));
      assert Definitions(fields, tags) == [ColumnDefinition(f)] + Definitions(more, tags)
          || Definitions(fields, tags) == [] + Definitions(more, tags) == Definitions(more, tags);
    }
  }

  lemma DistinctInFront(c: Column, columns: seq<Column>)
    requires DistinctNames(columns)
    ensures (forall x <- columns :: !Named(c, x.name)) ==> DistinctNames([c] + columns)
  {
    hide Named;
  }

  lemma DistinctTogether(a: seq<Column>, b: seq<Column>)
    requires DistinctNames(a) && DistinctNames(b) && forall x <- a, y <- b :: !Named(x, y.name)
    ensures DistinctNames(a + b)
  {
    hide Named;
    var all := a + b;
    forall i, j | 0 <= i < j < |all| ensures !Named(all[i], all[j].name) {
      assert i < |a| ==> all[i] in a;
      assert j >= |a| ==> all[j] in b;
    }
  }

  lemma ModelColumnsAreDistinct(fields: seq<Field>)
    requires DistinctFields(fields)
    ensures DistinctNames(Definitions(fields, false) + Definitions(fields, true))
  {
    hide IsMigrated, IsTag, EqualFold, HasOption, DataTypeOf, DistinctNames;
    var (columns, tags) := (Definitions(fields, false), Definitions(fields, true));
    DefinitionsAreDistinct(fields, false);
    DefinitionsAreDistinct(fields, true);
    forall c <- columns, t <- tags ensures !Named(c, t.name) {
      var i := DefinitionOrigin(fields, false, c);
      var j := DefinitionOrigin(fields, true, t);
      if i > j {
        FoldIsSymmetric(c.name, t.name);
      }
    }
    DistinctTogether(columns, tags);
  }

  lemma FoldIsSymmetric(s: string, t: string)
    ensures EqualFold(s, t) <==> EqualFold(t, s)
  {
  }

  lemma LengthsTellApart(c: Column, name: string)
    requires |c.name| != |name|
    ensures !Named(c, name)
  {
    assert |Lower(c.name)| == |c.name| && |Lower(name)| == |name|;
  }

  lemma ExtrasAreDistinct(n: nat, count: nat)
    ensures DistinctNames(Extras(n, count))
  {
    hide Named;
    var extras := Extras(n, count);
    forall i, j | 0 <= i < j < count ensures !Named(extras[i], extras[j].name) {
      LengthsTellApart(extras[i], extras[j].name);
    }
  }

  function AllTags(schema: Schema, n: nat): seq<Column> { Extras(n, |schema.indexes| + 1) + TagColumns(schema) }

  /** The model's columns and tags, with as many further tags as it has indexes and one more. */
  lemma TableIsDistinct(schema: Schema, n: nat)
    requires DistinctFields(schema.fields) && Short(schema, n)
    ensures DistinctNames(DataColumns(schema) + AllTags(schema, n))
  {
    hide IsMigrated, IsTag, EqualFold, HasOption, DataTypeOf, DistinctNames, Named, Extras;
    var (columns, tags, extras) := (DataColumns(schema), TagColumns(schema), Extras(n, |schema.indexes| + 1));
    ModelColumnsAreDistinct(schema.fields);
    ExtrasAreDistinct(n, |schema.indexes| + 1);
    forall c: Column | c in columns + tags ensures |c.name| < n {
      var k := DefinitionOrigin(schema.fields, c !in columns, c);
    }
    forall c <- columns + tags, e <- extras ensures !Named(c, e.name) && !Named(e, c.name) {
      LengthsTellApart(c, e.name);
      LengthsTellApart(e, c.name);
    }
    DistinctParts(columns, tags);
    DistinctTogether(extras, tags);
    forall c <- columns, t <- extras + tags ensures !Named(c, t.name) {
      assert c in columns + tags;
    }
    DistinctTogether(columns, extras + tags);
  }

  lemma DistinctParts(a: seq<Column>, b: seq<Column>)
    requires DistinctNames(a + b)
    ensures DistinctNames(a) && DistinctNames(b) && forall x <- a, y <- b :: !Named(x, y.name)
  {
    hide Named;
    var all := a + b;
    forall i, j | 0 <= i < j < |a| ensures !Named(a[i], a[j].name) {
      assert all[i] == a[i] && all[j] == a[j];
    }
    forall i, j | 0 <= i < j < |b| ensures !Named(b[i], b[j].name) {
      assert all[|a| + i] == b[i] && all[|a| + j] == b[j];
    }
    forall x <- a, y <- b ensures !Named(x, y.name) {
      var i :| 0 <= i < |a| && a[i] == x;
      var j :| 0 <= j < |b| && b[j] == y;
      assert all[i] == x && all[|a| + j] == y;
    }
  }

  // ----------------------------------------------------- the indexes of the table

  /** For every index but two: an index of its name on a tag of its own. */
  function Others(indexes: seq<Index>, one: string, two: string, n: nat): seq<IndexInfo> {
    if indexes == [] then [] else
      var rest := Others(indexes[1..], one, two, n + 1);
      if indexes[0].name in [one, two] then rest else [IndexInfo(indexes[0].name, Long(n))] + rest
  }

  ghost predicate OnTags(e: IndexInfo, n: nat, m: nat) { exists k: nat :: n <= k < m && e.column == Long(k) }

  /** The name of an index, but for two. */
  ghost predicate NameOfOther(indexes: seq<Index>, one: string, two: string, name: string) {
    name !in [one, two] && exists i <- indexes :: i.name == name
  }

  lemma {:induction false} OthersAreOnTags(indexes: seq<Index>, one: string, two: string, n: nat)
    ensures forall e <- Others(indexes, one, two, n) ::
              NameOfOther(indexes, one, two, e.name) && OnTags(e, n, n + |indexes|)
  {
    if indexes != [] {
      var (index, more) := (indexes[0], indexes[1..]);
      OthersAreOnTags(more, one, two, n + 1);
      var rest := Others(more, one, two, n + 1);
      assert indexes == [index] + more && index in indexes;
      forall e <- rest ensures NameOfOther(indexes, one, two, e.name) && OnTags(e, n, n + |indexes|) {
        var i :| i in more && i.name == e.name;
        assert i in indexes;
      }
      assert index.name !in [one, two] ==> OnTags(IndexInfo(index.name, Long(n)), n, n + |indexes|);
    }
  }

  ghost predicate HasName(entries: seq<IndexInfo>, name: string) { exists e <- entries :: e.name == name }

  lemma {:induction false} OthersCover(indexes: seq<Index>, one: string, two: string, n: nat)
    ensures forall i <- indexes :: i.name in [one, two] || HasName(Others(indexes, one, two, n), i.name)
  {
    if indexes != [] {
      var (index, more) := (indexes[0], indexes[1..]);
      OthersCover(more, one, two, n + 1);
      var (rest, all) := (Others(more, one, two, n + 1), Others(indexes, one, two, n));
      assert indexes == [index] + more && forall e <- rest :: e in all;
      assert index.name in [one, two] || all[0].name == index.name;
    }
  }

  ghost predicate DistinctIndexNames(indexes: seq<Index>) {
    forall i, j :: 0 <= i < j < |indexes| ==> indexes[i].name != indexes[j].name
  }

  /** Distinct names, each on another column. */
  ghost predicate DistinctEntries(entries: seq<IndexInfo>) {
    forall i, j :: 0 <= i < j < |entries| ==>
        entries[i].name != entries[j].name && entries[i].column != entries[j].column
  }

  lemma {:induction false} OthersAreDistinct(indexes: seq<Index>, one: string, two: string, n: nat)
    requires DistinctIndexNames(indexes)
    ensures DistinctEntries(Others(indexes, one, two, n))
  {
    if indexes != [] {
      var (index, more) := (indexes[0], indexes[1..]);
      OthersAreDistinct(more, one, two, n + 1);
      OthersAreOnTags(more, one, two, n + 1);
      var rest := Others(more, one, two, n + 1);
      forall e <- rest ensures e.name != index.name && e.column != Long(n) {
        assert NameOfOther(more, one, two, e.name) && OnTags(e, n + 1, n + 1 + |more|);
      }
    }
  }

  /** An automatic index, one on the tag that the lookup finds, and one for every other index. */
  function Entries(schema: Schema, tag: string, one: string, two: string, n: nat): seq<IndexInfo> {
    [IndexInfo(Long(n), Long(n)), IndexInfo(Long(n + 1), tag)] + Others(schema.indexes, one, two, n + 1)
  }

  lemma EntriesAreDistinct(schema: Schema, tag: string, one: string, two: string, n: nat)
    requires DistinctIndexNames(schema.indexes) && Short(schema, n) && |tag| < n
    ensures DistinctEntries(Entries(schema, tag, one, two, n))
  {
    hide Others;
    var (entries, others) := (Entries(schema, tag, one, two, n), Others(schema.indexes, one, two, n + 1));
    OthersAreDistinct(schema.indexes, one, two, n + 1);
    OthersAreOnTags(schema.indexes, one, two, n + 1);
    forall e <- others ensures |e.name| < n < |e.column| {
      assert NameOfOther(schema.indexes, one, two, e.name) && OnTags(e, n + 1, n + 1 + |schema.indexes|);
    }
    forall i, j | 0 <= i < j < |entries|
      ensures entries[i].name != entries[j].name && entries[i].column != entries[j].column
    {
      assert i >= 2 ==> entries[i] == others[i - 2];
      assert j >= 2 ==> entries[j] == others[j - 2] && others[j - 2] in others;
    }
  }

  lemma EntriesMiss(schema: Schema, tag: string, one: string, two: string, column: string, n: nat)
    requires tag != column && |one| < n && |column| < n
    ensures forall e <- Entries(schema, tag, one, two, n) :: e.name != one && e.column != column
  {
    hide Others;
    var others := Others(schema.indexes, one, two, n + 1);
    OthersAreOnTags(schema.indexes, one, two, n + 1);
    forall e <- others ensures e.name != one && e.column != column {
      assert NameOfOther(schema.indexes, one, two, e.name) && OnTags(e, n + 1, n + 1 + |schema.indexes|);
    }
  }

  lemma EntriesMissTwo(schema: Schema, tag: string, one: string, two: string, n: nat)
    requires |two| < n
    ensures forall e <- Entries(schema, tag, one, two, n) :: e.name != two
  {
    hide Others;
    var others := Others(schema.indexes, one, two, n + 1);
    OthersAreOnTags(schema.indexes, one, two, n + 1);
    forall e <- others ensures e.name != two {
      assert NameOfOther(schema.indexes, one, two, e.name);
    }
  }

  lemma EntriesCover(schema: Schema, tag: string, one: string, two: string, n: nat)
    ensures forall i <- schema.indexes :: i.name in [one, two] || HasName(Entries(schema, tag, one, two, n), i.name)
    ensures IndexInfo(Long(n + 1), tag) in Entries(schema, tag, one, two, n)
  {
    hide Others;
    var (others, entries) := (Others(schema.indexes, one, two, n + 1), Entries(schema, tag, one, two, n));
    OthersCover(schema.indexes, one, two, n + 1);
    assert forall e <- others :: e in entries;
    assert entries[1] == IndexInfo(Long(n + 1), tag);
  }

  // ------------------------------------------------ a catalog the server can have

  /** A table with these indexes and nothing else. */
  function With(table: string, info: TableInfo, entries: seq<IndexInfo>, naming: (string, string) -> string): Catalog {
    Catalog(map[table := info.(indexes := entries)], naming)
  }

  function Creations(table: string, entries: seq<IndexInfo>): seq<Ddl> {
    if entries == [] then [] else
      [CreateIndex(entries[0].name, table, entries[0].column)] + Creations(table, entries[1..])
  }

  lemma {:induction false} IndexesAreAccepted(table: string, info: TableInfo, made: seq<IndexInfo>,
                                              more: seq<IndexInfo>, naming: (string, string) -> string)
    requires info.kind == Super && DistinctEntries(made + more)
    requires forall e <- more :: exists c <- info.tags :: c.name == e.column
    ensures AllAccepted(With(table, info, made, naming), Creations(table, more))
    ensures ApplyAll(With(table, info, made, naming), Creations(table, more)) == With(table, info, made + more, naming)
    decreases |more|
  {
    var cat := With(table, info, made, naming);
    if more == [] {
      assert made + more == made;
    } else {
      var (e, rest) := (more[0], more[1..]);
      var d := CreateIndex(e.name, table, e.column);
      assert made + more == (made + [e]) + rest && e in more;
      assert (made + more)[|made|] == e;
      forall i <- made ensures i.name != e.name {
        var k :| 0 <= k < |made| && made[k] == i;
        assert (made + more)[k] == i;
      }
      assert Accepts(cat, d);
      assert Apply(cat, d) == With(table, info, made + [e], naming);
      IndexesAreAccepted(table, info, made + [e], rest, naming);
      assert Creations(table, more)[1..] == Creations(table, rest);
    }
  }

  /** Such a table comes about by creating it and its indexes, from nothing. */
  lemma TableIsReachable(table: string, columns: seq<Column>, tags: seq<Column>, entries: seq<IndexInfo>,
                         naming: (string, string) -> string)
    requires tags != [] && DistinctNames(columns + tags) && DistinctEntries(entries)
    requires entries != [] && entries[0] == IndexInfo(naming(table, tags[0].name), tags[0].name)
    requires forall e <- entries :: exists c <- tags :: c.name == e.column
    ensures Reachable(With(table, TableInfo(Super, false, columns, tags, []), entries, naming))
  {
    hide DistinctNames, DistinctEntries;
    var info := TableInfo(Super, false, columns, tags, []);
    var empty := Catalog(NO_TABLES, naming);
    var d := CreateTable(table, true, columns, tags);
    var (first, rest) := ([entries[0]], entries[1..]);
    assert entries == first + rest;
    assert Apply(empty, d).tables == With(table, info, first, naming).tables;
    IndexesAreAccepted(table, info, first, rest, naming);
    var log := [d] + Creations(table, rest);
    assert log[1..] == Creations(table, rest);
    assert AllAccepted(empty, log) && ApplyAll(empty, log) == With(table, info, entries, naming);
  }

  // ------------------------------------------------------- what the loop does there

  /** If every index but one is there, the loop sends what the lookup of that one finds. */
  lemma {:induction false} OneIsMissing(cat: Catalog, table: string, schema: Schema, indexes: seq<Index>, x: Index)
    requires forall i <- schema.indexes :: IsTagIndex(i)
    requires forall i <- indexes :: IsTagIndex(i) && i in schema.indexes
    requires DistinctIndexNames(indexes) && x in indexes && IsStable(cat, table) && !IsVirtual(cat, table)
    requires forall i <- indexes :: i == x || HasIndex(cat, table, i.name, IndexColumn(i))
    requires !HasIndex(cat, table, x.name, IndexColumn(x)) && LookIndex(schema.indexes, x.name).Some?
    ensures IndexPath(cat, table, schema, indexes)
         == Path([IndexStatement(table, LookIndex(schema.indexes, x.name).value)], None)
    decreases |indexes|
  {
    hide LookIndex, IsTagIndex, HasIndex, IsStable, IsVirtual, Apply;
    var (index, more) := (indexes[0], indexes[1..]);
    assert indexes == [index] + more && index in indexes;
    IndexPathTurns(cat, table, schema, indexes);
    NamedIndexIsFound(schema.indexes, index);
    if index != x {
      OneIsMissing(cat, table, schema, more, x);
    } else {
      var d := IndexStatement(table, LookIndex(schema.indexes, x.name).value);
      var next := Apply(cat, d);
      StatementsOnlyAdd(cat, d);
      forall i <- more
        ensures HasIndex(next, table, i.name, IndexColumn(i)) && LookIndex(schema.indexes, i.name).Some?
      {
        var k :| 0 <= k < |more| && more[k] == i;
        assert indexes[k + 1] == i && indexes[0].name != indexes[k + 1].name;
        IndexIsMonotone(cat, next, table, i);
        NamedIndexIsFound(schema.indexes, i);
      }
      IndexPathIsIdle(next, table, schema, more);
      assert [d] + [] == [d];
    }
  }

  /** Under distinct names, a lookup that goes astray finds another index on another tag. */
  lemma {:induction false} SameName(indexes: seq<Index>, x: Index, y: Index)
    requires DistinctIndexNames(indexes) && x in indexes && y in indexes && x.name == y.name
    ensures x == y
  {
  }

  /** The two conditions are one. */
  lemma OneCondition(m: Model)
    requires Parsed(m)
    ensures Resolving(m) <==> ResolvingToTags(m)
  {
    hide LookIndex, IsTagIndex, ModelRules;
    if m.schema.Some? && Valid(m.schema.value) {
      ValidIndexes(m.schema.value);
      var indexes := m.schema.value.indexes;
      forall x <- indexes ensures Resolves(indexes, x) <==> ResolvesToTag(indexes, x) {
        NamedIndexIsFound(indexes, x);
        var found := LookIndex(indexes, x.name).value;
        if found.name == x.name {
          SameName(indexes, x, found);
        }
      }
    }
  }

  /** The model's table, with everything but the index x, and another index on the tag that x's lookup finds. */
  function Counter(m: Model, schema: Schema, x: Index, found: Index, n: nat): Catalog
    requires IsTagIndex(found)
  {
    With(m.table, TableInfo(Super, false, DataColumns(schema), AllTags(schema, n), []),
         Entries(schema, IndexColumn(found), x.name, found.name, n), (table: string, tag: string) => Long(n))
  }

  ghost predicate Astray(m: Model, x: Index) {
    && m.schema.Some? && Valid(m.schema.value) && Parsed(m) && x in m.schema.value.indexes
    && var indexes := m.schema.value.indexes;
    && LookIndex(indexes, x.name).Some?
    && var found := LookIndex(indexes, x.name).value;
    IsTagIndex(found) && IsTagIndex(x) && IndexColumn(found) != IndexColumn(x)
  }

  lemma IndexedTag(m: Model, x: Index)
    requires Parsed(m) && m.schema.Some? && x in m.schema.value.indexes && IsTagIndex(x)
    ensures exists c <- TagColumns(m.schema.value) :: c.name == IndexColumn(x)
    ensures exists f <- m.schema.value.fields :: f.dbName == IndexColumn(x)
  {
    hide HasOption, DataTypeOf, Definitions;
    assert x.fields[0] in x.fields;
    DefinitionMembers(m.schema.value.fields, x.fields[0].field);
  }

  lemma CounterIsReachable(m: Model, x: Index, found: Index, n: nat)
    requires Astray(m, x) && found == LookIndex(m.schema.value.indexes, x.name).value && Short(m.schema.value, n)
    ensures IsTagIndex(found) && Reachable(Counter(m, m.schema.value, x, found, n))
    ensures OneIndexPerTag(Counter(m, m.schema.value, x, found, n))
  {
    hide Others, Valid, LookIndex, IsTagIndex, Definitions, DistinctNames, Reachable;
    var (schema, tag) := (m.schema.value, IndexColumn(found));
    var (tags, entries) := (AllTags(schema, n), Entries(schema, tag, x.name, found.name, n));
    IndexedTag(m, found);
    TableIsDistinct(schema, n);
    EntriesAreDistinct(schema, tag, x.name, found.name, n);
    OthersAreOnTags(schema.indexes, x.name, found.name, n + 1);
    forall e <- entries ensures exists c <- tags :: c.name == e.column {
      if e == IndexInfo(Long(n + 1), tag) {
        var c :| c in TagColumns(schema) && c.name == tag;
        assert c in tags;
      } else if e == IndexInfo(Long(n), Long(n)) {
        assert tags[0] == Extra(n) && tags[0] in tags;
      } else {
        assert OnTags(e, n + 1, n + 1 + |schema.indexes|);
        var k: nat :| n + 1 <= k < n + 1 + |schema.indexes| && e.column == Long(k);
        assert tags[k - n] == Extra(k) && tags[k - n] in tags;
      }
    }
    TableIsReachable(m.table, DataColumns(schema), tags, entries, (table: string, tag: string) => Long(n));
  }

  /** On that catalog everything but x is there. */
  lemma CounterMissesOne(m: Model, x: Index, found: Index, n: nat)
    requires Astray(m, x) && found == LookIndex(m.schema.value.indexes, x.name).value && Short(m.schema.value, n)
    ensures IsTagIndex(found)
    ensures var cat := Counter(m, m.schema.value, x, found, n);
            && !HasIndex(cat, m.table, x.name, IndexColumn(x))
            && forall i <- m.schema.value.indexes :: IsTagIndex(i)
                && (i == x || HasIndex(cat, m.table, i.name, IndexColumn(i)))
  {
    hide Entries, LookIndex, IsTagIndex, Definitions, ModelRules, AllTags;
    var schema := m.schema.value;
    var cat := Counter(m, schema, x, found, n);
    var (entries, tag) := (Entries(schema, IndexColumn(found), x.name, found.name, n), IndexColumn(found));
    assert cat.tables[m.table].indexes == entries;
    ValidIndexes(schema);
    IndexedTag(m, x);
    EntriesMiss(schema, tag, x.name, found.name, IndexColumn(x), n);
    EntriesCover(schema, tag, x.name, found.name, n);
    forall i <- schema.indexes ensures i == x || HasIndex(cat, m.table, i.name, IndexColumn(i)) {
      if i.name == x.name {
        SameName(schema.indexes, i, x);
      } else if i.name == found.name {
        SameName(schema.indexes, i, found);
      } else {
        assert HasName(entries, i.name);
      }
    }
  }

  lemma CounterHasFields(m: Model, schema: Schema, x: Index, found: Index, n: nat)
    requires IsTagIndex(found)
    ensures FieldsPresent(Counter(m, schema, x, found, n), m.table, schema.fields)
  {
    hide IsTag, IsMigrated, Definitions, DataTypeOf, HasOption, Others, Extras;
    var cat := Counter(m, schema, x, found, n);
    AllDefined(schema.fields, DataColumns(schema), TagColumns(schema));
    var info := cat.tables[m.table];
    forall f <- schema.fields ensures Settled(cat, m.table, f) {
      if IsMigrated(f) {
        assert ColumnDefinition(f) in info.columns + info.tags;
        assert Named(ColumnDefinition(f), f.dbName);
      }
    }
  }

  /** There the model's whole plan is one index on a tag that has one already. */
  lemma CounterPlan(m: Model, x: Index, found: Index, n: nat)
    requires Astray(m, x) && found == LookIndex(m.schema.value.indexes, x.name).value && Short(m.schema.value, n)
    ensures IsTagIndex(found)
    ensures ModelPath(Counter(m, m.schema.value, x, found, n), m) == Path([IndexStatement(m.table, found)], None)
  {
    hide Entries, LookIndex, IsTagIndex, HasIndex, ModelRules, FieldPath, IndexPath, FieldsPresent, AllTags, Apply;
    var (cat, schema) := (Counter(m, m.schema.value, x, found, n), m.schema.value);
    CounterHasFields(m, schema, x, found, n);
    CounterMissesOne(m, x, found, n);
    FieldPathIsIdle(cat, m.table, true, schema.fields);
    OneIsMissing(cat, m.table, schema, schema.indexes, x);
    var ddl := [IndexStatement(m.table, found)];
    assert [] + ddl == ddl;
  }

  /** The server may accept that statement, and then x is still missing and the tag has two indexes. */
  lemma CounterFails(m: Model, x: Index, found: Index, n: nat)
    requires Astray(m, x) && found == LookIndex(m.schema.value.indexes, x.name).value && Short(m.schema.value, n)
    ensures IsTagIndex(found)
    ensures var cat := Counter(m, m.schema.value, x, found, n);
            var d := IndexStatement(m.table, found);
            && Accepts(cat, d) && !OneIndexPerTag(Apply(cat, d))
            && !HasIndex(Apply(cat, d), m.table, x.name, IndexColumn(x))
  {
    hide Others, LookIndex, IsTagIndex, Definitions, ModelRules;
    var schema := m.schema.value;
    var (cat, d) := (Counter(m, schema, x, found, n), IndexStatement(m.table, found));
    CounterMissesOne(m, x, found, n);
    IndexedTag(m, found);
    var c :| c in TagColumns(schema) && c.name == IndexColumn(found);
    assert c in cat.tables[m.table].tags;
    EntriesMissTwo(schema, IndexColumn(found), x.name, found.name, n);
    assert Accepts(cat, d);
    var (before, after) := (cat.tables[m.table].indexes, Apply(cat, d).tables[m.table].indexes);
    assert after == before + [IndexInfo(found.name, IndexColumn(found))];
    assert after[1].column == after[|before|].column;
    if found.name == x.name {
      SameName(schema.indexes, found, x);
    }
  }

  lemma Counterexample(m: Model, x: Index)
    requires Astray(m, x)
    ensures !Completes(m) && !KeepsOnePerTag(m)
  {
    hide Valid, Parsed, LookIndex, IsTagIndex, ModelPath, Counter, Accepts, Reachable, OneIndexPerTag, Apply, HasIndex;
    var schema := m.schema.value;
    var found := LookIndex(schema.indexes, x.name).value;
    var n := FieldBound(schema.fields) + IndexBound(schema.indexes);
    CounterIsReachable(m, x, found, n);
    CounterPlan(m, x, found, n);
    CounterFails(m, x, found, n);
    var (cat, d) := (Counter(m, schema, x, found, n), IndexStatement(m.table, found));
    OneStatement(cat, d);
    assert AllAccepted(cat, [d]) by {
      assert AllAccepted(Apply(cat, d), [d][1..]);
    }
    assert !Complete(Apply(cat, d), m);
  }

  lemma AstrayExists(m: Model)
    requires Parsed(m) && !ResolvingToTags(m)
    ensures exists x :: Astray(m, x)
  {
    hide LookIndex, IsTagIndex, ModelRules, Parsed;
    var indexes := m.schema.value.indexes;
    ValidIndexes(m.schema.value);
    var x :| x in indexes && !ResolvesToTag(indexes, x);
    NamedIndexIsFound(indexes, x);
    assert Astray(m, x);
  }

  /**
    A migration without an error completes the model on every catalog if and only if each
    index name looks up to an index on the same tag.
   */
  lemma CompletesIffResolving(m: Model)
    requires Parsed(m)
    ensures Completes(m) <==> Resolving(m)
  {
    hide Resolving, ResolvingToTags, ModelPath, Complete, Reachable, Parsed, AllAccepted;
    OneCondition(m);
    if Resolving(m) {
      forall cat: Catalog | ModelPath(cat, m).ok ensures Complete(ApplyAll(cat, ModelPath(cat, m).ddl), m) {
        ModelPathCompletes(cat, m);
      }
    } else {
      AstrayExists(m);
      var x :| Astray(m, x);
      Counterexample(m, x);
    }
  }

  /** A migration keeps one index per tag on every catalog if and only if the same holds. */
  lemma OnePerTagIffResolving(m: Model)
    requires Parsed(m)
    ensures KeepsOnePerTag(m) <==> Resolving(m)
  {
    hide Resolving, ResolvingToTags, CreatePath, MigratePath, OneIndexPerTag, Reachable, Parsed, AllAccepted;
    OneCondition(m);
    if Resolving(m) {
      forall cat: Catalog | OneIndexPerTag(cat) ensures OneIndexPerTag(ApplyAll(cat, ModelPath(cat, m).ddl)) {
        PathAddsNoSecond(cat, m, ModelPath(cat, m).ddl);
        UniqueAfter(cat, ModelPath(cat, m).ddl);
      }
    } else {
      AstrayExists(m);
      var x :| Astray(m, x);
      Counterexample(m, x);
    }
  }

  // ----------------------------------------- a server that refuses a second index

  /** A lookup finds the index itself or one before it. */
  lemma {:induction false} LookupIsEarly(done: seq<Index>, x: Index, more: seq<Index>)
    ensures var found := LookIndex(done + [x] + more, x.name);
            found.Some? && (found.value in done || found.value == x)
  {
    var all := done + [x] + more;
    if done == [] {
      assert all[0] == x;
    } else {
      LookupIsEarly(done[1..], x, more);
      assert all[1..] == done[1..] + [x] + more && all[0] == done[0];
    }
  }

  /** An index is sent only if what its name finds is missing, and then it finds itself. */
  lemma {:induction false} RefusedOrComplete(cat: Catalog, table: string, schema: Schema, done: seq<Index>,
      indexes: seq<Index>)
    requires (forall i <- schema.indexes :: IsTagIndex(i)) && schema.indexes == done + indexes
    requires (forall i <- done :: i in schema.indexes) && (forall i <- indexes :: i in schema.indexes)
    requires IndexesPresent(cat, table, done) && IndexPath(cat, table, schema, indexes).ok
    requires AllAccepted(cat, IndexPath(cat, table, schema, indexes).ddl)
    requires NoSecondIndex(cat, IndexPath(cat, table, schema, indexes).ddl)
    ensures IndexesPresent(ApplyAll(cat, IndexPath(cat, table, schema, indexes).ddl), table, schema.indexes)
    decreases |indexes|
  {
    hide IsTagIndex, LookIndex, Apply, HasIndex, Accepts, AddsNoSecondIndex, IsVirtual, IsStable;
    if indexes == [] {
      assert done + indexes == done;
    } else {
      var (x, more) := (indexes[0], indexes[1..]);
      assert indexes == [x] + more && schema.indexes == done + [x] + more && schema.indexes == (done + [x]) + more;
      IndexPathTurns(cat, table, schema, indexes);
      LookupIsEarly(done, x, more);
      if HasIndex(cat, table, x.name, IndexColumn(x)) {
        RefusedOrComplete(cat, table, schema, done + [x], more);
      } else {
        var found := LookIndex(schema.indexes, x.name).value;
        var d := IndexStatement(table, found);
        assert IndexPath(cat, table, schema, indexes).ddl[0] == d;
        NotPresentIsNotDone(cat, table, done, found);
        assert found == x;
        var next := Apply(cat, d);
        IndexIsMade(cat, table, x, x);
        StatementsOnlyAdd(cat, d);
        IndexesStay(cat, next, table, done);
        assert IndexPath(cat, table, schema, indexes).ddl[1..] == IndexPath(next, table, schema, more).ddl;
        RefusedOrComplete(next, table, schema, done + [x], more);
      }
    }
  }

  lemma NotPresentIsNotDone(cat: Catalog, table: string, done: seq<Index>, found: Index)
    requires IsTagIndex(found) && (forall i <- done :: IsTagIndex(i)) && IndexesPresent(cat, table, done)
    requires Accepts(cat, IndexStatement(table, found)) && AddsNoSecondIndex(cat, IndexStatement(table, found))
    ensures found !in done
  {
    hide IsTagIndex;
    assert !HasIndex(cat, table, found.name, IndexColumn(found));
  }

  lemma {:induction false} AcceptedSplits(cat: Catalog, log: seq<Ddl>, more: seq<Ddl>)
    requires AllAccepted(cat, log + more) && NoSecondIndex(cat, log + more)
    ensures AllAccepted(ApplyAll(cat, log), more) && NoSecondIndex(ApplyAll(cat, log), more)
    decreases |log|
  {
    hide Accepts, Apply, AddsNoSecondIndex;
    if log == [] {
      assert log + more == more;
    } else {
      assert (log + more)[1..] == log[1..] + more;
      AcceptedSplits(Apply(cat, log[0]), log[1..], more);
    }
  }

  /**
    On a server that refuses a second index on a tag, a migration that ends without an error
    has completed the model, whatever its index names.
   */
  lemma RefusingServerCompletes(cat: Catalog, m: Model)
    requires ModelPath(cat, m).ok
    requires AllAccepted(cat, ModelPath(cat, m).ddl) && NoSecondIndex(cat, ModelPath(cat, m).ddl)
    ensures Complete(ApplyAll(cat, ModelPath(cat, m).ddl), m)
  {
    hide Valid, IndexPath, FieldsPresent, IndexesPresent, IsVirtual, ModelPath, Apply, AllAccepted, NoSecondIndex,
        IsTagIndex;
    var first := FieldsThenIndexes(cat, m);
    var (next, schema) := (ApplyAll(cat, first), m.schema.value);
    var rest := IndexPath(next, m.table, schema, schema.indexes).ddl;
    AcceptedSplits(cat, first, rest);
    ApplySplits(cat, first, rest);
    assert [] + schema.indexes == schema.indexes;
    NothingMissing(next, m.table);
    RefusedOrComplete(next, m.table, schema, [], schema.indexes);
    IndexPathAddsIndexes(next, m.table, schema, schema.indexes);
    RunsOnlyAdd(next, rest);
    FieldsStay(next, ApplyAll(next, rest), m.table, schema.fields);
    StaysThere(next, ApplyAll(next, rest), m.table);
    QueriesAreMonotone(next, ApplyAll(next, rest), m.table, "", "");
  }

  lemma NothingMissing(cat: Catalog, table: string)
    ensures IndexesPresent(cat, table, [])
  {
  }

  // ------------------------------------------------------------------ a witness

  /** A time column, two tags, and an index on each tag; the second is named like the first tag's Go field. */
  function Confusing(table: string, t: Field, l: Field, g: Field, first: string): Model {
    Model(table, Some(Schema([t, l, g], [
      Index(first, [IndexField(l, "", "", "", 0)], "", "", ""),
      Index(l.name, [IndexField(g, "", "", "", 0)], "", "", "")])))
  }

  /** Fields that validation accepts in these roles. */
  ghost predicate Fit(t: Field, l: Field, g: Field) {
    && IsMigrated(t) && IsMigrated(l) && IsMigrated(g)
    && !IsTag(t) && IsTag(l) && IsTag(g)
    && !IsKeyField(t) && !IsKeyField(l) && !IsKeyField(g)
    && IsTimestamp(ColumnDefinition(t)) && WellPlaced(ColumnDefinition(t), false)
    && WellPlaced(ColumnDefinition(l), true) && WellPlaced(ColumnDefinition(g), true)
    && !EqualFold(t.dbName, l.dbName) && !EqualFold(t.dbName, g.dbName) && !EqualFold(l.dbName, g.dbName)
  }

  lemma ConfusingColumns(t: Field, l: Field, g: Field)
    requires Fit(t, l, g)
    ensures Definitions([t, l, g], false) == [ColumnDefinition(t)]
    ensures Definitions([t, l, g], true) == [ColumnDefinition(l), ColumnDefinition(g)]
  {
    hide ColumnDefinition, IsTag, IsMigrated, WellPlaced, EqualFold, IsTimestamp, IsKeyField;
    var fields := [t, l, g];
    assert fields[1..] == [l, g] && [l, g][1..] == [g] && [g][1..] == [];
    assert Definitions([g], false) == [] + [] && Definitions([g], true) == [ColumnDefinition(g)] + [];
    assert Definitions([l, g], false) == [] + Definitions([g], false);
    assert Definitions([l, g], true) == [ColumnDefinition(l)] + Definitions([g], true);
    assert Definitions(fields, false) == [ColumnDefinition(t)] + Definitions([l, g], false);
    assert Definitions(fields, true) == [] + Definitions([l, g], true);
  }

  lemma ConfusingIsValid(table: string, t: Field, l: Field, g: Field, first: string)
    requires Fit(t, l, g) && first != l.name
    ensures var m := Confusing(table, t, l, g, first); Valid(m.schema.value) && Parsed(m)
  {
    hide DataTypeOf, HasOption, WellPlaced, EqualFold, Definitions, IsTimestamp;
    ConfusingColumns(t, l, g);
  }

  lemma ConfusingPlan(table: string, t: Field, l: Field, g: Field, first: string, naming: (string, string) -> string)
    requires Fit(t, l, g) && l.dbName != g.dbName && first != l.name && naming(table, l.dbName) !in [first, l.name]
    ensures var (empty, m) := (Catalog(NO_TABLES, naming), Confusing(table, t, l, g, first));
            ModelPath(empty, m)
            == Path([CreateTable(table, true, [ColumnDefinition(t)], [ColumnDefinition(l), ColumnDefinition(g)]),
                     CreateIndex(first, table, l.dbName)], None)
  {
    hide DataTypeOf, HasOption, Definitions, IsTimestamp, Valid, Fit, IsTag;
    var (empty, m) := (Catalog(NO_TABLES, naming), Confusing(table, t, l, g, first));
    var (schema, d) := (m.schema.value, CreateIndex(first, table, l.dbName));
    ConfusingColumns(t, l, g);
    ConfusingIsValid(table, t, l, g, first);
    ValidIndexes(schema);
    var (x, y) := (schema.indexes[0], schema.indexes[1]);
    assert LookIndex(schema.indexes, y.name) == Some(x);
    var create := CreateTable(table, true, DataColumns(schema), TagColumns(schema));
    var next := Apply(empty, create);
    var auto := IndexInfo(naming(table, l.dbName), l.dbName);
    assert next.tables[table].indexes == [auto];
    assert auto in next.tables[table].indexes && !HasIndex(next, table, y.name, IndexColumn(y));
    OneIsMissing(next, table, schema, schema.indexes, y);
    assert [create] + [d] == [create, d];
  }

  lemma ConfusingRun(table: string, t: Field, l: Field, g: Field, first: string, naming: (string, string) -> string)
    requires Fit(t, l, g) && l.dbName != g.dbName && first != l.name && naming(table, l.dbName) !in [first, l.name]
    ensures var (empty, m) := (Catalog(NO_TABLES, naming), Confusing(table, t, l, g, first));
            var path := ModelPath(empty, m);
            && path.ok && AllAccepted(empty, path.ddl)
            && !Complete(ApplyAll(empty, path.ddl), m) && !OneIndexPerTag(ApplyAll(empty, path.ddl))
  {
    hide DataTypeOf, HasOption, IsTimestamp, IsTag, IsMigrated, WellPlaced, IsKeyField, ModelPath, EqualFold;
    var (empty, m) := (Catalog(NO_TABLES, naming), Confusing(table, t, l, g, first));
    ConfusingPlan(table, t, l, g, first, naming);
    var create := CreateTable(table, true, [ColumnDefinition(t)], [ColumnDefinition(l), ColumnDefinition(g)]);
    var d := CreateIndex(first, table, l.dbName);
    var next := Apply(empty, create);
    assert Accepts(empty, create);
    var info := next.tables[table];
    assert info.tags[0] in info.tags && Accepts(next, d);
    OneStatement(next, d);
    assert [create, d][1..] == [d] && [d][1..] == [];
    assert AllAccepted(next, [d]);
    var end := Apply(next, d).tables[table].indexes;
    assert end == [IndexInfo(naming(table, l.dbName), l.dbName), IndexInfo(first, l.dbName)];
    assert end[0].column == end[1].column;
    var y := m.schema.value.indexes[1];
    assert y in m.schema.value.indexes && !HasIndex(Apply(next, d), table, y.name, g.dbName);
  }

  const TIME := Field("Ts", "ts", false, "time", 0, 0, 0, "")
  const LOCATION := Field("Location", "location", false, "string", 64, 0, 0, "tag")
  const GROUP := Field("Group", "group_id", false, "int", 32, 0, 0, "tag")

  lemma OneOption(field: Field, expected: string)
    requires ',' !in field.tdengine && TrimSpace(field.tdengine) == field.tdengine
    ensures HasOption(field, expected) <==> EqualFold(field.tdengine, expected)
  {
    hide TrimSpace, EqualFold, Before;
    var s := field.tdengine;
    StopsBefore(s, "", ',');
    assert s + "" == s;
    assert Split(s, ',') == [s];
    assert s in [s];
  }

  lemma FoldKeepsLength(s: string, t: string)
    ensures EqualFold(s, t) ==> |s| == |t|
  {
    assert |Lower(s)| == |s| && |Lower(t)| == |t|;
  }

  lemma FoldsDiffer(s: string, t: string)
    requires s != "" && t != "" && LowerByte(s[0]) != LowerByte(t[0])
    ensures !EqualFold(s, t)
  {
    assert Lower(s)[0] == LowerByte(s[0]) && Lower(t)[0] == LowerByte(t[0]);
  }

  lemma Roles(field: Field)
    requires field.tdengine in ["", "tag"]
    ensures IsTag(field) <==> field.tdengine == "tag"
    ensures !IsKeyField(field)
  {
    hide HasOption, TrimSpace, EqualFold;
    EmptyText();
    Trimmed("tag");
    OneOption(field, "tag");
    OneOption(field, "compositekey");
    FoldKeepsLength(field.tdengine, "tag");
    FoldKeepsLength(field.tdengine, "compositekey");
    FoldIsReflexive("tag");
  }

  lemma FoldIsReflexive(s: string)
    ensures EqualFold(s, s)
  {
  }

  lemma TimeIsTimestamp(field: Field)
    requires field.dataType == "time"
    ensures DataTypeOf(field) == "TIMESTAMP"
  {
    hide FormatInt;
    assert |Upper("time")| == 4 && Upper("time")[0] == 'T';
  }

  lemma TypeOfTime(field: Field)
    requires field.dataType == "time"
    ensures IsTimestamp(ColumnDefinition(field)) && WellPlaced(ColumnDefinition(field), false)
  {
    hide FormatInt, BaseType, TrimSpace, HasOption, DataTypeOf;
    TimeIsTimestamp(field);
    assert "TIMESTAMP" + "" == "TIMESTAMP";
    Trimmed("TIMESTAMP");
    TimestampWord("TIMESTAMP");
    BaseTypeOfWord("TIMESTAMP", "");
  }

  lemma TimestampWord(word: string)
    requires word == "TIMESTAMP"
    ensures Upper(word) == word && forall c <- word :: IsLetter(c)
  {
    assert forall i :: 0 <= i < |word| ==> Upper(word)[i] == word[i];
  }

  lemma TypeOfTag(field: Field, word: string, arguments: string)
    requires DataTypeOf(field) == word + arguments && |word| > 1 && (forall c <- word :: IsLetter(c))
    requires UpperByte(word[0]) in "IN"
        && (arguments == "" || (arguments[0] == '(' && arguments[|arguments| - 1] == ')'))
    ensures WellPlaced(ColumnDefinition(field), true)
  {
    hide BaseType, DataTypeOf, HasOption;
    BaseTypeOfWord(word, arguments);
    assert Upper(word)[0] == UpperByte(word[0]);
  }

  lemma TagTypes()
    ensures WellPlaced(ColumnDefinition(LOCATION), true) && WellPlaced(ColumnDefinition(GROUP), true)
  {
    hide FormatInt, WellPlaced, HasOption;
    KindIsNotExplicit(LOCATION);
    KindIsNotExplicit(GROUP);
    Associates4("NCHAR", "(", FormatInt(64), ")");
    TypeOfTag(LOCATION, "NCHAR", "(" + FormatInt(64) + ")");
    assert "int" + "" == "int";
    TypeOfTag(GROUP, "int", "");
  }

  lemma WitnessFits()
    ensures Fit(TIME, LOCATION, GROUP)
  {
    hide IsTag, IsKeyField, IsTimestamp, WellPlaced, EqualFold, HasOption, DataTypeOf;
    Roles(TIME);
    Roles(LOCATION);
    Roles(GROUP);
    TypeOfTime(TIME);
    TagTypes();
    FoldKeepsLength("ts", "location");
    FoldKeepsLength("ts", "group_id");
    FoldsDiffer("location", "group_id");
  }

  lemma NothingIsReachable(cat: Catalog)
    requires cat.tables == NO_TABLES
    ensures Reachable(cat)
  {
    var nothing: seq<Ddl> := [];
    assert AllAccepted(Catalog(NO_TABLES, cat.naming), nothing);
  }

  /**
    A valid model, from nothing, with every statement accepted and no error: the index
    on the group tag is missing, and the location tag has two.
   */
  lemma ConfusingNamesFail(naming: (string, string) -> string)
    requires naming("meters", "location") !in ["idx_location", "Location"]
    ensures var (empty, m) := (Catalog(NO_TABLES, naming), Confusing("meters", TIME, LOCATION, GROUP, "idx_location"));
            var path := ModelPath(empty, m);
            && Valid(m.schema.value) && Parsed(m) && !Resolving(m)
            && Reachable(empty) && path.ok && AllAccepted(empty, path.ddl)
            && !Complete(ApplyAll(empty, path.ddl), m) && !OneIndexPerTag(ApplyAll(empty, path.ddl))
  {
    hide Fit, Valid, Parsed, ModelPath, AllAccepted, Complete, OneIndexPerTag, ApplyAll, Resolving, Confusing;
    WitnessFits();
    assert "idx_location"[0] != "Location"[0] && "location"[0] != "group_id"[0];
    ConfusingIsValid("meters", TIME, LOCATION, GROUP, "idx_location");
    ConfusingRun("meters", TIME, LOCATION, GROUP, "idx_location", naming);
    var (empty, m) := (Catalog(NO_TABLES, naming), Confusing("meters", TIME, LOCATION, GROUP, "idx_location"));
    NothingIsReachable(empty);
    if Resolving(m) {
      ModelPathCompletes(empty, m);
    }
  }
}
