/**
  Models and their columns: DataTypeOf (tdengine.go), the partition of a model's
  fields into columns and tags, and the validation of both (migrator.go, index.go).
 */
module Schema {
  import opened Common
  import opened Ascii
  import opened Decimal
  import opened Identifier
  import opened Column

  /** A parsed field; dataType is GORM's kind or the explicit type of the struct tag. */
  datatype Field = Field(
    name: string,
    dbName: string,
    ignoreMigration: bool,
    dataType: string,
    size: int,
    precision: int,
    scale: int,
    tdengine: string)

  datatype IndexField = IndexField(field: Field, expression: string, sort: string, collate: string, length: int)

  datatype Index = Index(name: string, fields: seq<IndexField>, class_: string, type_: string, where_: string)

  datatype Schema = Schema(fields: seq<Field>, indexes: seq<Index>)

  /** A migration target; the schema is absent when GORM could not parse one. */
  datatype Model = Model(table: string, schema: Option<Schema>)

  datatype MigrationError =
    | SchemaMissing
    | NoDataColumns
    | TimestampFirst
    | JSONMustBeTag(column: string)
    | UnsupportedTagType(column: string)
    | CompositeKeyInvalid(at: Option<string>)    // no name when there are too many keys
    | TooManyBlobs
    | TooManyTags
    | SingleTagIndexOnly
    | TagIndexOnly
    | IndexNotFound(name: string)
    | FieldNotFound(name: string)
    | CompositeKeyMigrationUnsupported(table: string, column: string)
    | NotASupertable(table: string)
    | VirtualTableUnsupported(table: string)
    | QueryFailed
    | StatementRefused

  // ------------------------------------------------------------------ DataTypeOf

  function FormatInt(n: int): string { if n < 0 then "-" + FormatUint(-n) else FormatUint(n) }

  function SizeOf(field: Field): int { if field.size == 0 then 64 else field.size }

  function BySize(field: Field, suffix: string): string {
    (if field.size <= 8 then "tinyint"
     else if field.size <= 16 then "smallint"
     else if field.size <= 32 then "int"
     else "bigint")
    + suffix
  }

  /** The first switch: explicit types, whatever their case. */
  function ExplicitType(field: Field): Option<string> {
    var explicit := Upper(field.dataType);
    if explicit in ["VARCHAR", "BINARY", "NCHAR", "VARBINARY", "GEOMETRY"] then
      Some(explicit + "(" + FormatInt(SizeOf(field)) + ")")
    else if explicit == "DECIMAL" then
      var precision := if field.precision == 0 then 18 else field.precision;
      Some("DECIMAL" + "(" + (FormatInt(precision) + if field.scale > 0 then "," + FormatInt(field.scale) else "")
          + ")")
    else if explicit in ["JSON", "BLOB"] then Some(explicit)
    else None
  }

  /** The second switch: GORM's kinds; anything else is taken as it is. */
  function KindType(field: Field): string {
    if field.dataType == "bool" then "bool"
    else if field.dataType == "int" then BySize(field, "")
    else if field.dataType == "uint" then BySize(field, " unsigned")
    else if field.dataType == "float" then (if field.size <= 32 then "float" else "double")
    else if field.dataType == "string" then "NCHAR" + "(" + FormatInt(SizeOf(field)) + ")"
    else if field.dataType == "time" then "TIMESTAMP"
    else if field.dataType == "bytes" then "BINARY" + "(" + FormatInt(SizeOf(field)) + ")"
    else field.dataType
  }

  function DataTypeOf(field: Field): string {
    if ExplicitType(field).Some? then ExplicitType(field).value else KindType(field)
  }

  // ---------------------------------------------------------------- definitions

  /** hasTDengineOption: one of the comma-separated options of the struct tag. */
  predicate HasOption(field: Field, expected: string) {
    exists option <- Split(field.tdengine, ',') :: EqualFold(TrimSpace(option), expected)
  }

  predicate IsTag(field: Field) { HasOption(field, "tag") }

  predicate IsMigrated(field: Field) { !field.ignoreMigration && field.dbName != "" }

  function ColumnDefinition(field: Field): Column {
    Column(field.dbName, DataTypeOf(field), 0, HasOption(field, "compositekey"), "", "", "")
  }

  function Migrated(fields: seq<Field>): seq<Field> {
    if fields == [] then [] else (if IsMigrated(fields[0]) then [fields[0]] else []) + Migrated(fields[1..])
  }

  /** The definitions of the fields with the given role, in field order. */
  function Definitions(fields: seq<Field>, tags: bool): seq<Column> {
    if fields == [] then [] else
      (if IsMigrated(fields[0]) && IsTag(fields[0]) == tags then [ColumnDefinition(fields[0])] else [])
      + Definitions(fields[1..], tags)
  }

  function DataColumns(schema: Schema): seq<Column> { Definitions(schema.fields, false) }

  function TagColumns(schema: Schema): seq<Column> { Definitions(schema.fields, true) }

  /** modelColumns: one pass that appends every migrated field to one of two slices. */
  method ModelColumns(schema: Schema) returns (columns: seq<Column>, tags: seq<Column>)
    ensures columns == DataColumns(schema) && tags == TagColumns(schema)
  {
    hide ColumnDefinition, IsTag, IsMigrated;
    columns, tags := [], [];
    var i := 0;
    while i < |schema.fields|
      invariant 0 <= i <= |schema.fields|
      invariant columns + Definitions(schema.fields[i..], false) == DataColumns(schema)
      invariant tags + Definitions(schema.fields[i..], true) == TagColumns(schema)
    {
      var field := schema.fields[i];
      DefinitionStep(columns, schema.fields, i, false);
      DefinitionStep(tags, schema.fields, i, true);
      if IsMigrated(field) {
        if IsTag(field) {
          tags := tags + [ColumnDefinition(field)];
        } else {
          columns := columns + [ColumnDefinition(field)];
        }
      }
      i := i + 1;
    }
    assert schema.fields[i..] == [];
  }

  lemma DefinitionStep(before: seq<Column>, fields: seq<Field>, i: nat, tags: bool)
    requires i < |fields|
    ensures before + Definitions(fields[i..], tags)
         == before + (if IsMigrated(fields[i]) && IsTag(fields[i]) == tags then [ColumnDefinition(fields[i])] else [])
            + Definitions(fields[i + 1..], tags)
    ensures before + [] == before
  {
    hide ColumnDefinition, IsTag, IsMigrated;
    assert fields[i..][1..] == fields[i + 1..];
    Associates(before, if IsMigrated(fields[i]) && IsTag(fields[i]) == tags then [ColumnDefinition(fields[i])] else [],
               Definitions(fields[i + 1..], tags));
  }

  /** Puts columns and tags back in field order. */
  function Weave(fields: seq<Field>, columns: seq<Column>, tags: seq<Column>): seq<Column> {
    if fields == [] then columns + tags
    else if IsTag(fields[0]) && tags != [] then [tags[0]] + Weave(fields[1..], columns, tags[1..])
    else if !IsTag(fields[0]) && columns != [] then [columns[0]] + Weave(fields[1..], columns[1..], tags)
    else Weave(fields[1..], columns, tags)
  }

  function DefinitionsOf(fields: seq<Field>): seq<Column> {
    if fields == [] then [] else [ColumnDefinition(fields[0])] + DefinitionsOf(fields[1..])
  }

  /** The partition loses nothing and keeps both orders. */
  lemma {:induction false} PartitionIsLossFree(fields: seq<Field>)
    ensures Weave(Migrated(fields), Definitions(fields, false), Definitions(fields, true))
        == DefinitionsOf(Migrated(fields))
  {
    hide ColumnDefinition, IsTag, IsMigrated;
    if fields != [] {
      var f, more := fields[0], fields[1..];
      PartitionIsLossFree(more);
      if IsMigrated(f) {
        assert Migrated(fields) == [f] + Migrated(more);
        assert Migrated(fields)[1..] == Migrated(more);
        assert [ColumnDefinition(f)] + Definitions(more, IsTag(f)) == Definitions(fields, IsTag(f));
        assert Definitions(fields, IsTag(f))[1..] == Definitions(more, IsTag(f));
        assert Definitions(fields, !IsTag(f)) == [] + Definitions(more, !IsTag(f)) == Definitions(more, !IsTag(f));
      } else {
        assert Migrated(fields) == [] + Migrated(more) == Migrated(more);
        assert Definitions(fields, false) == [] + Definitions(more, false) == Definitions(more, false);
        assert Definitions(fields, true) == [] + Definitions(more, true) == Definitions(more, true);
      }
    }
  }

  lemma {:induction false} DefinitionMembers(fields: seq<Field>, f: Field)
    requires f in fields && IsMigrated(f)
    ensures ColumnDefinition(f) in Definitions(fields, IsTag(f))
  {
    hide ColumnDefinition, IsTag, IsMigrated;
    if f != fields[0] {
      assert f in fields[1..];
      DefinitionMembers(fields[1..], f);
    }
  }

  lemma {:induction false} DefinitionOrigin(fields: seq<Field>, tags: bool, c: Column) returns (k: nat)
    requires c in Definitions(fields, tags)
    ensures k < |fields| && IsMigrated(fields[k]) && IsTag(fields[k]) == tags && c == ColumnDefinition(fields[k])
  {
    hide IsMigrated, IsTag, ColumnDefinition;
    if IsMigrated(fields[0]) && IsTag(fields[0]) == tags && c == ColumnDefinition(fields[0]) {
      k := 0;
    } else {
      k := DefinitionOrigin(fields[1..], tags, c);
      k := k + 1;
    }
  }

  /** Column names that can share a table: no two migrated fields agree up to case. */
  ghost predicate DistinctFields(fields: seq<Field>) {
    forall i, j :: 0 <= i < j < |fields| && IsMigrated(fields[i]) && IsMigrated(fields[j]) ==>
      !EqualFold(fields[i].dbName, fields[j].dbName)
  }

  // ----------------------------------------------------------------- validation

  predicate IsTimestamp(c: Column) { "TIMESTAMP" <= Upper(TrimSpace(c.columnType)) }

  predicate SupportsCompositeKey(typeName: string) {
    typeName in ["TINYINT", "SMALLINT", "INT", "BIGINT", "TINYINT UNSIGNED", "SMALLINT UNSIGNED",
                 "INT UNSIGNED", "BIGINT UNSIGNED", "VARCHAR"]
  }

  predicate IsBlob(c: Column) { BaseType(c.columnType) == "BLOB" }

  /** validateColumnPlacement returns nil. */
  predicate WellPlaced(c: Column, tag: bool) {
    if tag then BaseType(c.columnType) !in ["DECIMAL", "BLOB"] else BaseType(c.columnType) != "JSON"
  }

  function PlacementError(c: Column, tag: bool): Option<MigrationError> {
    if WellPlaced(c, tag) then None
    else if tag then Some(UnsupportedTagType(c.name)) else Some(JSONMustBeTag(c.name))
  }

  /** What a table may look like. */
  ghost predicate ModelRules(columns: seq<Column>, tags: seq<Column>) {
    && columns != [] && IsTimestamp(columns[0])
    && (forall c <- columns :: WellPlaced(c, false))
    && (forall i :: 0 <= i < |columns| ==> KeyAllowed(columns[i], i))
    && Unique(IsKey, columns) && Unique(IsBlob, columns)
    && (forall t <- tags :: !t.compositeKey && WellPlaced(t, true))
    && |tags| <= 128
  }

  /** The rules spelled out: the words and numbers that decide. */
  lemma RulesInWords(columns: seq<Column>, tags: seq<Column>)
    ensures ModelRules(columns, tags) <==>
            && columns != [] && "TIMESTAMP" <= Upper(TrimSpace(columns[0].columnType))
            && (forall c <- columns :: BaseType(c.columnType) != "JSON")
            && (forall t <- tags :: BaseType(t.columnType) != "DECIMAL" && BaseType(t.columnType) != "BLOB")
            && (forall t <- tags :: !t.compositeKey) && |tags| <= 128
            && (forall i :: 0 <= i < |columns| && columns[i].compositeKey ==>
                  i >= 1 && BaseType(columns[i].columnType) in {
                    "TINYINT", "SMALLINT", "INT", "BIGINT", "VARCHAR",
                    "TINYINT UNSIGNED", "SMALLINT UNSIGNED", "INT UNSIGNED", "BIGINT UNSIGNED"})
            && (forall i, j :: 0 <= i < j < |columns| ==>
                  && !(columns[i].compositeKey && columns[j].compositeKey)
                  && !(BaseType(columns[i].columnType) == "BLOB" && BaseType(columns[j].columnType) == "BLOB"))
  {
    hide BaseType, KeyAllowed, Unique, TrimSpace, Upper;
    KeysInWords(columns);
    OnceInWords(columns);
    assert forall c: Column :: WellPlaced(c, false) <==> BaseType(c.columnType) != "JSON";
    assert forall c: Column ::
        WellPlaced(c, true) <==> BaseType(c.columnType) != "DECIMAL" && BaseType(c.columnType) != "BLOB";
    hide WellPlaced;
  }

  lemma KeysInWords(columns: seq<Column>)
    ensures (forall i :: 0 <= i < |columns| ==> KeyAllowed(columns[i], i)) <==>
            forall i :: 0 <= i < |columns| && columns[i].compositeKey ==>
              i >= 1 && BaseType(columns[i].columnType) in {
                "TINYINT", "SMALLINT", "INT", "BIGINT", "VARCHAR",
                "TINYINT UNSIGNED", "SMALLINT UNSIGNED", "INT UNSIGNED", "BIGINT UNSIGNED"}
  {
    hide BaseType;
    KeyTypesInWords();
    hide SupportsCompositeKey;
  }

  lemma OnceInWords(columns: seq<Column>)
    ensures Unique(IsKey, columns) && Unique(IsBlob, columns) <==>
            forall i, j :: 0 <= i < j < |columns| ==>
              && !(columns[i].compositeKey && columns[j].compositeKey)
              && !(BaseType(columns[i].columnType) == "BLOB" && BaseType(columns[j].columnType) == "BLOB")
  {
    hide BaseType;
  }

  lemma KeyTypesInWords()
    ensures forall t :: SupportsCompositeKey(t) <==> t in {
              "TINYINT", "SMALLINT", "INT", "BIGINT", "VARCHAR",
              "TINYINT UNSIGNED", "SMALLINT UNSIGNED", "INT UNSIGNED", "BIGINT UNSIGNED"}
  {
  }

  /** The error names a rule that is broken, and the column that breaks it. */
  ghost predicate Broken(error: MigrationError, columns: seq<Column>, tags: seq<Column>) {
    match error
    case NoDataColumns => columns == []
    case TimestampFirst => columns != [] && !IsTimestamp(columns[0])
    case JSONMustBeTag(name) => exists c <- columns :: c.name == name && BaseType(c.columnType) == "JSON"
    case UnsupportedTagType(name) =>
      exists t <- tags :: t.name == name && BaseType(t.columnType) in ["DECIMAL", "BLOB"]
    case CompositeKeyInvalid(None) => !Unique(IsKey, columns)
    case CompositeKeyInvalid(Some(name)) =>
      || (exists i :: 0 <= i < |columns| && columns[i].name == name && !KeyAllowed(columns[i], i))
      || exists t <- tags :: t.name == name && t.compositeKey
    case TooManyBlobs => !Unique(IsBlob, columns)
    case TooManyTags => |tags| > 128
    case _ => false
  }

  function TagError(t: Column): Option<MigrationError> {
    if t.compositeKey then Some(CompositeKeyInvalid(Some(t.name))) else PlacementError(t, true)
  }

  /** What the tag loop returns from its i-th turn on. */
  function TagsError(tags: seq<Column>, i: nat): Option<MigrationError>
    requires i <= |tags|
    decreases |tags| - i
  {
    if i == |tags| then None else if TagError(tags[i]).Some? then TagError(tags[i]) else TagsError(tags, i + 1)
  }

  lemma {:induction false} TagsErrorInWords(columns: seq<Column>, tags: seq<Column>, i: nat)
    requires i <= |tags|
    ensures TagsError(tags, i).None? <==>
            forall j :: i <= j < |tags| ==>
              && !tags[j].compositeKey
              && BaseType(tags[j].columnType) != "DECIMAL" && BaseType(tags[j].columnType) != "BLOB"
    ensures TagsError(tags, i).Some? ==> Broken(TagsError(tags, i).value, columns, tags)
    decreases |tags| - i
  {
    hide BaseType;
    if i < |tags| {
      assert tags[i] in tags;
      TagsErrorInWords(columns, tags, i + 1);
    }
  }

  method ValidateTags(tags: seq<Column>) returns (error: Option<MigrationError>)
    ensures error == TagsError(tags, 0)
    ensures error.None? <==>
            forall t <- tags ::
              !t.compositeKey && BaseType(t.columnType) != "DECIMAL" && BaseType(t.columnType) != "BLOB"
  {
    hide PlacementError, BaseType;
    TagsErrorInWords([], tags, 0);
    for i := 0 to |tags|
      invariant TagsError(tags, i) == TagsError(tags, 0)
    {
      if tags[i].compositeKey {
        return Some(CompositeKeyInvalid(Some(tags[i].name)));
      }
      error := PlacementError(tags[i], true);
      if error.Some? {
        return;
      }
    }
    error := None;
  }

  /** How many columns satisfy p: the source's counters. */
  ghost function Count(p: Column -> bool, columns: seq<Column>): nat {
    if columns == [] then 0 else
      var last := |columns| - 1;
      Count(p, columns[..last]) + if p(columns[last]) then 1 else 0
  }

  ghost predicate Unique(p: Column -> bool, columns: seq<Column>) {
    forall i, j :: 0 <= i < j < |columns| ==> !(p(columns[i]) && p(columns[j]))
  }

  /** One more column keeps uniqueness unless it is the second with the property. */
  lemma UniqueGrows(p: Column -> bool, columns: seq<Column>)
    requires columns != []
    ensures var (fewer, last) := (columns[..|columns| - 1], columns[|columns| - 1]);
            Unique(p, columns) <==> Unique(p, fewer) && (p(last) ==> forall c <- fewer :: !p(c))
  {
    var k := |columns| - 1;
    var fewer := columns[..k];
    if Unique(p, columns) && p(columns[k]) {
      forall c <- fewer ensures !p(c) {
        var i :| 0 <= i < k && columns[i] == c;
      }
    }
    if Unique(p, fewer) && (p(columns[k]) ==> forall c <- fewer :: !p(c)) {
      forall i, j | 0 <= i < j < |columns| ensures !(p(columns[i]) && p(columns[j])) {
        assert columns[i] == fewer[i] && fewer[i] in fewer;
        assert j < k ==> columns[j] == fewer[j];
      }
    }
  }

  lemma {:induction false} CountsUpToOne(p: Column -> bool, columns: seq<Column>)
    ensures Count(p, columns) == 0 <==> forall c <- columns :: !p(c)
    ensures Count(p, columns) <= 1 <==> Unique(p, columns)
  {
    if columns != [] {
      hide Unique;
      var last := |columns| - 1;
      CountsUpToOne(p, columns[..last]);
      UniqueGrows(p, columns);
      assert columns == columns[..last] + [columns[last]];
    }
  }

  predicate IsKey(c: Column) { c.compositeKey }

  predicate KeyAllowed(c: Column, index: nat) {
    c.compositeKey ==> index >= 1 && SupportsCompositeKey(BaseType(c.columnType))
  }

  function ColumnError(c: Column, index: nat): Option<MigrationError> {
    if PlacementError(c, false).Some? then PlacementError(c, false)
    else if c.compositeKey && (index == 0 || !SupportsCompositeKey(BaseType(c.columnType))) then
      Some(CompositeKeyInvalid(Some(c.name)))
    else None
  }

  /** What the column loop returns from its i-th turn on. */
  function ColumnsError(columns: seq<Column>, i: nat): Option<MigrationError>
    requires i <= |columns|
    decreases |columns| - i
  {
    if i == |columns| then None
    else if ColumnError(columns[i], i).Some? then ColumnError(columns[i], i)
    else ColumnsError(columns, i + 1)
  }

  lemma {:induction false} ColumnsErrorInWords(columns: seq<Column>, tags: seq<Column>, i: nat)
    requires i <= |columns|
    ensures ColumnsError(columns, i).None? <==>
            forall j :: i <= j < |columns| ==> WellPlaced(columns[j], false) && KeyAllowed(columns[j], j)
    ensures ColumnsError(columns, i).Some? ==> Broken(ColumnsError(columns, i).value, columns, tags)
    decreases |columns| - i
  {
    hide BaseType, SupportsCompositeKey;
    if i < |columns| {
      assert columns[i] in columns;
      ColumnsErrorInWords(columns, tags, i + 1);
    }
  }

  /** The column loop: placement, composite keys, and two counters. */
  method ValidateColumns(columns: seq<Column>) returns (error: Option<MigrationError>, blobs: nat, keys: nat)
    ensures error == ColumnsError(columns, 0)
    ensures error.None? <==>
            && (forall c <- columns :: BaseType(c.columnType) != "JSON")
            && forall i :: 0 <= i < |columns| ==> KeyAllowed(columns[i], i)
    ensures error.None? ==> blobs == Count(IsBlob, columns) && keys == Count(IsKey, columns)
  {
    hide BaseType, SupportsCompositeKey, IsBlob;
    ColumnsErrorInWords(columns, [], 0);
    assert forall i :: 0 <= i < |columns| ==> columns[i] in columns;
    hide PlacementError, KeyAllowed, WellPlaced;
    blobs, keys := 0, 0;
    for i := 0 to |columns|
      invariant ColumnsError(columns, i) == ColumnsError(columns, 0)
      invariant blobs == Count(IsBlob, columns[..i]) && keys == Count(IsKey, columns[..i])
    {
      var c := columns[i];
      assert columns[..i + 1][..i] == columns[..i];
      error := PlacementError(c, false);
      if error.Some? {
        return;
      }
      if c.compositeKey {
        keys := keys + 1;
        if i == 0 || !SupportsCompositeKey(BaseType(c.columnType)) {
          return Some(CompositeKeyInvalid(Some(c.name))), blobs, keys;
        }
      }
      if IsBlob(c) {
        blobs := blobs + 1;
      }
    }
    assert columns[..|columns|] == columns;
    error := None;
  }

  /** The first rule that validateModelColumns finds broken. */
  ghost function ModelError(columns: seq<Column>, tags: seq<Column>): Option<MigrationError> {
    if columns == [] then Some(NoDataColumns)
    else if !IsTimestamp(columns[0]) then Some(TimestampFirst)
    else if ColumnsError(columns, 0).Some? then ColumnsError(columns, 0)
    else if Count(IsBlob, columns) > 1 then Some(TooManyBlobs)
    else if TagsError(tags, 0).Some? then TagsError(tags, 0)
    else if |tags| > 128 then Some(TooManyTags)
    else if Count(IsKey, columns) > 1 then Some(CompositeKeyInvalid(None))
    else None
  }

  /** There is none exactly if the rules hold, and otherwise it is broken. */
  lemma ModelErrorInWords(columns: seq<Column>, tags: seq<Column>)
    ensures ModelError(columns, tags).None? <==> ModelRules(columns, tags)
    ensures ModelError(columns, tags).Some? ==> Broken(ModelError(columns, tags).value, columns, tags)
  {
    hide BaseType, KeyAllowed, IsBlob, IsTimestamp, Unique, Count, TagsError, ColumnsError;
    CountsUpToOne(IsBlob, columns);
    CountsUpToOne(IsKey, columns);
    ColumnsErrorInWords(columns, tags, 0);
    TagsErrorInWords(columns, tags, 0);
    assert forall i :: 0 <= i < |columns| ==> columns[i] in columns;
    assert forall i :: 0 <= i < |tags| ==> tags[i] in tags;
  }

  /** validateModelColumns accepts exactly what ModelRules describes. */
  method ValidateModelColumns(columns: seq<Column>, tags: seq<Column>) returns (error: Option<MigrationError>)
    ensures error == ModelError(columns, tags)
    ensures error.None? <==> ModelRules(columns, tags)
    ensures error.Some? ==> Broken(error.value, columns, tags)
  {
    ModelErrorInWords(columns, tags);
    hide BaseType, IsTimestamp, Count, TagsError, ColumnsError, ModelRules, Broken;
    if columns == [] {
      return Some(NoDataColumns);
    }
    if !IsTimestamp(columns[0]) {
      return Some(TimestampFirst);
    }
    var columnError, blobs, keys := ValidateColumns(columns);
    if columnError.Some? {
      return columnError;
    }
    if blobs > 1 {
      return Some(TooManyBlobs);
    }
    var tagError := ValidateTags(tags);
    if tagError.Some? {
      return tagError;
    }
    if |tags| > 128 {
      return Some(TooManyTags);
    }
    if keys > 1 {
      return Some(CompositeKeyInvalid(None));
    }
    error := None;
  }

  // -------------------------------------------------------------------- indexes

  /** An index that TDengine supports: exactly one tag, and nothing else asked for. */
  predicate IsTagIndex(index: Index) {
    && |index.fields| == 1 && IsTag(index.fields[0].field)
    && index.fields[0].expression == "" && index.fields[0].sort == "" && index.fields[0].collate == ""
    && index.fields[0].length == 0 && index.class_ == "" && index.type_ == "" && index.where_ == ""
  }

  function IndexColumn(index: Index): string
    requires IsTagIndex(index)
  {
    index.fields[0].field.dbName
  }

  function IndexError(index: Index): Option<MigrationError> {
    if |index.fields| != 1 then Some(SingleTagIndexOnly) else if !IsTagIndex(index) then Some(TagIndexOnly) else None
  }

  /** What validateModelIndexes returns from its i-th turn on. */
  function IndexesError(indexes: seq<Index>, i: nat): Option<MigrationError>
    requires i <= |indexes|
    decreases |indexes| - i
  {
    if i == |indexes| then None
    else if IndexError(indexes[i]).Some? then IndexError(indexes[i])
    else IndexesError(indexes, i + 1)
  }

  lemma {:induction false} IndexesErrorInWords(indexes: seq<Index>, i: nat)
    requires i <= |indexes|
    ensures IndexesError(indexes, i).None? <==> forall j :: i <= j < |indexes| ==> IsTagIndex(indexes[j])
    ensures IndexesError(indexes, i).Some? ==> BadIndex(IndexesError(indexes, i).value, indexes)
    decreases |indexes| - i
  {
    hide IsTag;
    if i < |indexes| {
      assert indexes[i] in indexes;
      IndexesErrorInWords(indexes, i + 1);
    }
  }

  /** An index error fits an index of the model. */
  ghost predicate BadIndex(error: MigrationError, indexes: seq<Index>) {
    || (error.SingleTagIndexOnly? && exists i <- indexes :: |i.fields| != 1)
    || (error.TagIndexOnly? && exists i <- indexes :: |i.fields| == 1 && !IsTagIndex(i))
  }

  /** validateModelIndexes. */
  method ValidateModelIndexes(schema: Schema) returns (error: Option<MigrationError>)
    ensures error == IndexesError(schema.indexes, 0)
    ensures error.None? <==> forall i <- schema.indexes :: IsTagIndex(i)
    ensures error.Some? ==> BadIndex(error.value, schema.indexes)
  {
    IndexesErrorInWords(schema.indexes, 0);
    hide IsTagIndex, BadIndex;
    assert forall i :: 0 <= i < |schema.indexes| ==> schema.indexes[i] in schema.indexes;
    for i := 0 to |schema.indexes|
      invariant IndexesError(schema.indexes, i) == IndexesError(schema.indexes, 0)
    {
      if |schema.indexes[i].fields| != 1 {
        return Some(SingleTagIndexOnly);
      }
      if !IsTagIndex(schema.indexes[i]) {
        return Some(TagIndexOnly);
      }
    }
    error := None;
  }

  /** GORM's LookIndex: the first index of that name, or with a field of that Go name. */
  function LookIndex(indexes: seq<Index>, name: string): (found: Option<Index>)
    ensures found.Some? ==> found.value in indexes
  {
    if indexes == [] then None
    else if indexes[0].name == name || exists f <- indexes[0].fields :: f.field.name == name then Some(indexes[0])
    else LookIndex(indexes[1..], name)
  }

  /** GORM's LookUpField: by column name first, then by Go name. */
  function LookUpField(fields: seq<Field>, name: string): (found: Option<Field>)
    ensures found.Some? ==> found.value in fields
  {
    var byColumn := FieldNamed(fields, name, true);
    if byColumn.Some? then byColumn else FieldNamed(fields, name, false)
  }

  function FieldNamed(fields: seq<Field>, name: string, column: bool): (found: Option<Field>)
    ensures found.Some? ==> found.value in fields
    ensures found.Some? && column ==> found.value.dbName == name
    ensures found.None? ==> forall f <- fields :: (if column then f.dbName else f.name) != name || name == ""
  {
    if fields == [] then None
    else if name != "" && (if column then fields[0].dbName else fields[0].name) == name then Some(fields[0])
    else FieldNamed(fields[1..], name, column)
  }

  /** A model that passes both validations. */
  ghost predicate Valid(schema: Schema) {
    ModelRules(DataColumns(schema), TagColumns(schema)) && forall i <- schema.indexes :: IsTagIndex(i)
  }

  /** Why a model is turned down: the first validation that it fails. */
  ghost function Invalidity(m: Model): MigrationError
    requires m.schema.Some? ==> !Valid(m.schema.value)
  {
    if m.schema.None? then SchemaMissing else
      var schema := m.schema.value;
      var error := ModelError(DataColumns(schema), TagColumns(schema));
      ModelErrorInWords(DataColumns(schema), TagColumns(schema));
      IndexesErrorInWords(schema.indexes, 0);
      if error.Some? then error.value else IndexesError(schema.indexes, 0).value
  }

  /** The error names a rule that the model breaks. */
  lemma InvalidityInWords(m: Model)
    requires m.schema.Some? ==> !Valid(m.schema.value)
    ensures m.schema.None? ==> Invalidity(m) == SchemaMissing
    ensures m.schema.Some? ==>
              var schema := m.schema.value;
              Broken(Invalidity(m), DataColumns(schema), TagColumns(schema)) || BadIndex(Invalidity(m), schema.indexes)
  {
    if m.schema.Some? {
      var schema := m.schema.value;
      ModelErrorInWords(DataColumns(schema), TagColumns(schema));
      IndexesErrorInWords(schema.indexes, 0);
    }
  }

  // ------------------------------------------------- what DataTypeOf promises

  /** Text and byte types keep the field's length, 64 when none is given. */
  lemma LengthsArrive(field: Field)
    requires 0 <= field.size < 0x8000_0000_0000_0000
    ensures var length := if field.size == 0 then 64 else field.size;
            && (Upper(field.dataType) in {"VARCHAR", "BINARY", "NCHAR", "VARBINARY", "GEOMETRY"} ==>
                  DecodeSpec(DataTypeOf(field)) == (Upper(field.dataType), length))
            && (field.dataType == "string" ==> DecodeSpec(DataTypeOf(field)) == ("NCHAR", length))
            && (field.dataType == "bytes" ==> DecodeSpec(DataTypeOf(field)) == ("BINARY", length))
  {
    hide DecodeSpec, FormatUint, WellTyped, KindType;
    if Upper(field.dataType) in SIZED {
      SizedAreWords(Upper(field.dataType));
      SizedRoundTrips(Upper(field.dataType), SizeOf(field));
    } else if field.dataType in ["string", "bytes"] {
      KindIsNotExplicit(field);
      KindLengthsArrive(field);
    }
    if field.dataType in ["string", "bytes"] {
      NoExplicitWord(field.dataType);
    }
  }

  lemma KindLengthsArrive(field: Field)
    requires 0 <= field.size < 0x8000_0000_0000_0000 && field.dataType in ["string", "bytes"]
    ensures DecodeSpec(KindType(field)) == (if field.dataType == "string" then "NCHAR" else "BINARY", SizeOf(field))
  {
    hide DecodeSpec, FormatUint, WellTyped;
    SizedAreWords("NCHAR");
    SizedAreWords("BINARY");
    SizedRoundTrips("NCHAR", SizeOf(field));
    SizedRoundTrips("BINARY", SizeOf(field));
  }

  lemma KindIsNotExplicit(field: Field)
    requires field.dataType in ["string", "bytes", "int", "uint"]
    ensures ExplicitType(field).None? && DataTypeOf(field) == KindType(field)
  {
    hide FormatInt, KindType;
    NoExplicitWord(field.dataType);
  }

  lemma NoExplicitWord(kind: string)
    requires kind in ["string", "bytes", "int", "uint"]
    ensures Upper(kind) !in SIZED + ["DECIMAL", "JSON", "BLOB"]
  {
    var upper := Upper(kind);
    assert |upper| == |kind| && upper[0] == UpperByte(kind[0]);
    DifferentWords(upper);
  }

  lemma DifferentWords(word: string)
    requires |word| == 3 || (|word| == 4 && word[0] == 'U')
          || (|word| == 5 && word[0] == 'B') || (|word| == 6 && word[0] == 'S')
    ensures word !in SIZED + ["DECIMAL", "JSON", "BLOB"]
  {
  }

  /** The bits of TDengine's integer types, signed or not. */
  function Bits(integerType: string): nat {
    if "tinyint" <= integerType then 8 else if "smallint" <= integerType then 16
    else if "int" <= integerType then 32 else if "bigint" <= integerType then 64 else 0
  }

  predicate EndsWith(s: string, suffix: string) { |suffix| <= |s| && s[|s| - |suffix|..] == suffix }

  /** An integer field gets the narrowest type that holds it, unsigned only for an unsigned field. */
  lemma IntegersFit(field: Field)
    requires field.dataType in ["int", "uint"]
    ensures field.size <= 64 ==> field.size <= Bits(DataTypeOf(field))
    ensures forall bits <- [8, 16, 32, 64] :: field.size <= bits ==> Bits(DataTypeOf(field)) <= bits
    ensures Bits(DataTypeOf(field)) in [8, 16, 32, 64]
    ensures EndsWith(DataTypeOf(field), " unsigned") <==> field.dataType == "uint"
  {
    hide Bits, BySize;
    KindIsNotExplicit(field);
    SizesFit(field, if field.dataType == "uint" then " unsigned" else "");
  }

  lemma SizesFit(field: Field, suffix: string)
    requires suffix in ["", " unsigned"]
    ensures var bits := Bits(BySize(field, suffix));
            bits == if field.size <= 8 then 8 else if field.size <= 16 then 16 else if field.size <= 32 then 32 else 64
    ensures EndsWith(BySize(field, suffix), " unsigned") <==> suffix != ""
  {
    var t := BySize(field, suffix);
    assert t[0] == if field.size <= 8 then 't' else if field.size <= 16 then 's' else if field.size <= 32 then 'i'
        else 'b';
    assert "tinyint"[0] == 't' && "smallint"[0] == 's' && "int"[0] == 'i' && "bigint"[0] == 'b';
  }

  // --------------------------------------------- what the migrator prints can be read

  /** The kinds DataTypeOf knows, with sizes that are not negative. */
  predicate KnownType(field: Field) {
    && field.size >= 0 && field.precision >= 0
    && (Upper(field.dataType) in SIZED + ["DECIMAL", "JSON", "BLOB"]
        || field.dataType in ["bool", "int", "uint", "float", "string", "time", "bytes"])
  }

  lemma FormatIntIsArguments(n: int)
    requires n >= 0
    ensures forall c <- FormatInt(n) :: InArguments(c)
  {
    FormatParses(n);
  }

  /** Every definition of a field of a known type round trips through the DDL parser. */
  lemma DefinitionIsPrintable(field: Field)
    requires KnownType(field) && Dotted(field.dbName)
    ensures Printable(ColumnDefinition(field))
  {
    hide FormatInt, BaseType, Dotted;
    var text := DataTypeOf(field);
    TypeIsTyped(field);
    assert text !in SIZED;
    assert TypeSpec(ColumnDefinition(field)) == text + "" == text;
  }

  /** WordIsTyped and ArgumentsAreTyped for a text that is not a bare sized constant. */
  lemma WordTyped(word: string, sign: string)
    requires word != "" && (forall c <- word :: IsLetter(c)) && sign in ["", " unsigned"] && word !in SIZED
    ensures WellTyped(word + sign) && word + sign !in SIZED && (sign == "" ==> word + sign == word)
  {
    hide WellTyped;
    WordIsTyped(word, sign);
    assert sign == "" ==> word + sign == word;
    if sign != "" {
      assert (word + sign)[|word|] == ' ';
    }
  }

  lemma ArgumentsTyped(word: string, arguments: string)
    requires word != "" && (forall c <- word :: IsLetter(c)) && forall c <- arguments :: InArguments(c)
    ensures WellTyped(word + "(" + arguments + ")") && word + "(" + arguments + ")" !in SIZED
  {
    hide WellTyped;
    ArgumentsAreTyped(word, arguments);
    var text := word + "(" + arguments + ")";
    assert text[|text| - 1] == ')';
  }

  lemma TypeIsTyped(field: Field)
    requires KnownType(field)
    ensures WellTyped(DataTypeOf(field)) && DataTypeOf(field) !in SIZED
  {
    hide ExplicitType, KindType, WellTyped;
    if ExplicitType(field).Some? {
      ExplicitIsTyped(field);
    } else {
      NotExplicit(field);
      KindIsTyped(field);
    }
  }

  lemma NotExplicit(field: Field)
    requires ExplicitType(field).None?
    ensures Upper(field.dataType) !in SIZED + ["DECIMAL", "JSON", "BLOB"]
  {
    hide FormatInt;
  }

  lemma ExplicitIsTyped(field: Field)
    requires KnownType(field) && ExplicitType(field).Some?
    ensures WellTyped(ExplicitType(field).value) && ExplicitType(field).value !in SIZED
  {
    hide FormatInt, WellTyped, IsLetter;
    var explicit := Upper(field.dataType);
    if explicit in SIZED {
      FormatIntIsArguments(SizeOf(field));
      SizedAreWords(explicit);
      ArgumentsTyped(explicit, FormatInt(SizeOf(field)));
    } else if explicit == "DECIMAL" {
      DecimalIsTyped(field);
    } else {
      JSONAndBlob(explicit);
    }
  }

  lemma JSONAndBlob(word: string)
    requires word in ["JSON", "BLOB"]
    ensures WellTyped(word) && word !in SIZED
  {
    hide WellTyped;
    WordTyped(word, "");
  }

  lemma DecimalIsTyped(field: Field)
    requires KnownType(field) && Upper(field.dataType) == "DECIMAL"
    ensures ExplicitType(field).Some? && WellTyped(ExplicitType(field).value) && ExplicitType(field).value !in SIZED
  {
    hide FormatInt, WellTyped, Upper;
    var precision := if field.precision == 0 then 18 else field.precision;
    var arguments := FormatInt(precision) + if field.scale > 0 then "," + FormatInt(field.scale) else "";
    FormatIntIsArguments(precision);
    if field.scale > 0 {
      FormatIntIsArguments(field.scale);
    }
    ArgumentsTyped("DECIMAL", arguments);
  }

  lemma KindIsTyped(field: Field)
    requires field.size >= 0 && field.dataType in ["bool", "int", "uint", "float", "string", "time", "bytes"]
    ensures WellTyped(KindType(field)) && KindType(field) !in SIZED
  {
    hide FormatInt, WellTyped, BySize;
    FormatIntIsArguments(SizeOf(field));
    SizedIntIsTyped(field, "");
    SizedIntIsTyped(field, " unsigned");
    ArgumentsTyped("NCHAR", FormatInt(SizeOf(field)));
    ArgumentsTyped("BINARY", FormatInt(SizeOf(field)));
    OtherKinds();
  }

  lemma OtherKinds()
    ensures WellTyped("bool") && WellTyped("float") && WellTyped("double") && WellTyped("TIMESTAMP")
    ensures "bool" !in SIZED && "float" !in SIZED && "double" !in SIZED && "TIMESTAMP" !in SIZED
  {
    hide WellTyped;
    WordTyped("bool", "");
    WordTyped("float", "");
    WordTyped("double", "");
    WordTyped("TIMESTAMP", "");
  }

  lemma SizedIntIsTyped(field: Field, sign: string)
    requires sign in ["", " unsigned"]
    ensures WellTyped(BySize(field, sign)) && BySize(field, sign) !in SIZED
  {
    hide WellTyped;
    if field.size <= 8 {
      WordTyped("tinyint", sign);
    } else if field.size <= 16 {
      WordTyped("smallint", sign);
    } else if field.size <= 32 {
      WordTyped("int", sign);
    } else {
      WordTyped("bigint", sign);
    }
  }
}
