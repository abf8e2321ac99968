/**
  CREATE TABLE clauses (clause/create/table.go) and table options
  (clause/create/options.go): the mutable Table, what the clause prints and binds
  for it, and the builder methods.
 */
module Table {
  import opened Common
  import opened Ascii
  import opened Decimal
  import opened Identifier
  import opened Builder
  import opened Column
  import opened SortedNames

  const STABLE := 1
  const COMMON := 2

  datatype Retention = Retention(value: uint64, unit: string)

  datatype TableOptions = TableOptions(comment: string, ttl: uint32, sma: seq<string>, keep: Option<Retention>)

  const NO_OPTIONS := TableOptions("", 0, [], None)

  /** The contents of a Table at one moment. */
  datatype TableDef = TableDef(
    kind: int,
    name: string,
    ifNotExists: bool,
    stable: string,
    tags: map<string, Value>,
    columns: seq<Column>,
    tagColumns: seq<Column>,
    options: TableOptions)
  {
    predicate IsSubtable() { kind == COMMON && stable != "" }
  }

  /** create.Table: the With methods assign its options in place. */
  class Table {
    var kind: int
    var name: string
    var ifNotExists: bool
    var stable: string
    var tags: map<string, Value>
    var columns: seq<Column>
    var tagColumns: seq<Column>
    var options: TableOptions

    function Def(): TableDef
      reads this
    {
      TableDef(kind, name, ifNotExists, stable, tags, columns, tagColumns, options)
    }

    constructor NewTable(name: string, ifNotExists: bool, columns: seq<Column>, stable: string,
                         tags: map<string, Value>)
      ensures Def() == TableDef(COMMON, name, ifNotExists, stable, tags, columns, [], NO_OPTIONS)
    {
      kind, this.name, this.ifNotExists, this.stable := COMMON, name, ifNotExists, stable;
      this.tags, this.columns, tagColumns, options := tags, columns, [], NO_OPTIONS;
    }

    constructor NewSTable(name: string, ifNotExists: bool, columns: seq<Column>, tagColumns: seq<Column>)
      ensures Def() == TableDef(STABLE, name, ifNotExists, "", map[], columns, tagColumns, NO_OPTIONS)
    {
      kind, this.name, this.ifNotExists, stable := STABLE, name, ifNotExists, "";
      tags, this.columns, this.tagColumns, options := map[], columns, tagColumns, NO_OPTIONS;
    }

    method WithComment(comment: string) returns (t: Table)
      modifies this
      ensures t == this && Def() == old(Def()).(options := old(options).(comment := comment))
    {
      options := options.(comment := comment);
      t := this;
    }

    method WithTTL(days: uint32) returns (t: Table)
      modifies this
      ensures t == this && Def() == old(Def()).(options := old(options).(ttl := days))
    {
      options := options.(ttl := days);
      t := this;
    }

    method WithSMA(columns: seq<string>) returns (t: Table)
      modifies this
      ensures t == this && Def() == old(Def()).(options := old(options).(sma := columns))
    {
      options := options.(sma := columns);
      t := this;
    }

    method WithKeep(value: uint64, unit: string) returns (t: Table)
      modifies this
      ensures t == this && Def() == old(Def()).(options := old(options).(keep := Some(Retention(value, unit))))
    {
      options := options.(keep := Some(Retention(value, unit)));
      t := this;
    }
  }

  // -------------------------------------------------------------- validation

  predicate Uncompressed(c: Column) { c.encode == "" && c.compress == "" && c.level == "" }

  /** validateTableOptions: the first rule that is broken. */
  function OptionsError(t: TableDef): Option<BuildError> {
    var o := t.options;
    if exists c <- t.tagColumns :: !Uncompressed(c) then Some(InvalidCompression)
    else if |o.comment| > 1024 then Some(CommentTooLong)
    else if o.ttl > 0x7fff_ffff then Some(InvalidTableOption)
    else if t.kind == STABLE && o.ttl != 0 then Some(TTLOnlyForTable)
    else if t.kind != STABLE && o.keep.Some? then Some(KeepOnlyForStable)
    else if t.stable != "" && o.sma != [] then Some(SMAUnsupportedSubtable)
    else if exists name <- o.sma :: TrimSpace(name) == "" then Some(InvalidTableOption)
    else if o.keep.Some? && (o.keep.value.value == 0 || o.keep.value.unit !in ["m", "h", "d"])
        then Some(InvalidTableOption)
    else None
  }

  /** The rules for options, without regard to the order of the checks. */
  lemma OptionsInWords(t: TableDef)
    ensures OptionsError(t).None? <==>
            && (forall c <- t.tagColumns :: c.encode == "" && c.compress == "" && c.level == "")
            && |t.options.comment| <= 1024 && t.options.ttl <= 2147483647
            && (t.kind == STABLE ==> t.options.ttl == 0) && (t.kind != STABLE ==> t.options.keep.None?)
            && (t.stable != "" ==> t.options.sma == [])
            && (forall name <- t.options.sma :: exists c <- name :: !IsSpace(c))
            && (t.options.keep.Some? ==> t.options.keep.value.value > 0 && t.options.keep.value.unit in {"m", "h", "d"})
  {
    hide TrimSpace, IsSpace;
    forall name <- t.options.sma ensures TrimSpace(name) != "" <==> exists c <- name :: !IsSpace(c) {
      BlankInWords(name);
    }
  }

  /** Each error names a rule that is broken. */
  lemma OptionErrorsInWords(t: TableDef)
    requires OptionsError(t).Some?
    ensures match OptionsError(t).value
            case InvalidCompression => exists c <- t.tagColumns :: c.encode != "" || c.compress != "" || c.level != ""
            case CommentTooLong => |t.options.comment| > 1024
            case TTLOnlyForTable => t.kind == STABLE && t.options.ttl > 0
            case KeepOnlyForStable => t.kind != STABLE && t.options.keep.Some?
            case SMAUnsupportedSubtable => t.stable != "" && t.options.sma != []
            case InvalidTableOption =>
              || t.options.ttl > 2147483647 || (exists name <- t.options.sma :: forall c <- name :: IsSpace(c))
              || (t.options.keep.Some?
                  && (t.options.keep.value.value == 0 || t.options.keep.value.unit !in {"m", "h", "d"}))
            case _ => false
  {
    hide TrimSpace, IsSpace;
    forall name <- t.options.sma ensures TrimSpace(name) == "" <==> forall c <- name :: IsSpace(c) {
      BlankInWords(name);
    }
  }

  // ------------------------------------------------------------ what is printed

  function ColumnsText(columns: seq<Column>): string {
    if columns == [] then "" else ColumnText(columns[0]) + if |columns| == 1 then ""
        else "," + ColumnsText(columns[1..])
  }

  function ColumnsErrors(columns: seq<Column>): seq<BuildError> {
    if columns == [] then [] else ColumnErrors(columns[0]) + ColumnsErrors(columns[1..])
  }

  function CommentText(o: TableOptions): string { if o.comment == "" then "" else " COMMENT ?" }

  function SMAText(o: TableOptions): string { if o.sma == [] then "" else " SMA(" + QuotedList(o.sma) + ")" }

  function TTLText(o: TableOptions): string { if o.ttl == 0 then "" else " TTL " + FormatUint(o.ttl) }

  function KeepText(o: TableOptions): string {
    if o.keep.None? then "" else " KEEP " + FormatUint(o.keep.value.value) + o.keep.value.unit
  }

  function OptionsText(o: TableOptions): string { CommentText(o) + SMAText(o) + TTLText(o) + KeepText(o) }

  function OptionsVars(o: TableOptions): seq<Value> { if o.comment == "" then [] else [Str(o.comment)] }

  ghost function UsingText(t: TableDef): string {
    var names := Listing(t.tags.Keys);
    " USING " + Quote(t.stable) + NamesInParens(names) + " TAGS " + ListText(|names|)
  }

  ghost function ContentsText(t: TableDef): string {
    if t.IsSubtable() then UsingText(t) else " (" + ColumnsText(t.columns) + ")"
  }

  function TagColumnsText(t: TableDef): string {
    if t.kind == STABLE then " TAGS(" + ColumnsText(t.tagColumns) + ")" else ""
  }

  function IfNotExistsText(t: TableDef): string { if t.ifNotExists then "IF NOT EXISTS " else "" }

  ghost function BodyText(t: TableDef): string {
    IfNotExistsText(t) + Quote(t.name) + ContentsText(t) + TagColumnsText(t) + OptionsText(t.options)
  }

  function CommandText(kind: int): string {
    if kind == COMMON then "CREATE TABLE " else if kind == STABLE then "CREATE STABLE " else ""
  }

  /** Nothing is printed for a table that is refused or, when a command is due, has no known kind. */
  predicate Prints(t: TableDef, command: bool) {
    OptionsError(t).None? && (command ==> t.kind == COMMON || t.kind == STABLE)
  }

  ghost function TableText(t: TableDef, command: bool): string {
    if Prints(t, command) then (if command then CommandText(t.kind) else "") + BodyText(t) else ""
  }

  /** The tag values in the order of the printed names. */
  ghost function TagValues(t: TableDef): seq<Value> {
    ListingMembers(t.tags.Keys);
    assert forall name <- Listing(t.tags.Keys) :: name in Elements(Listing(t.tags.Keys));
    if t.IsSubtable() then ValuesOf(t.tags, Listing(t.tags.Keys)) else []
  }

  /** The variables of a table, in the order of their placeholders. */
  ghost function TableVars(t: TableDef, command: bool): seq<Value> {
    if Prints(t, command) then TagValues(t) + OptionsVars(t.options) else []
  }

  ghost function ContentsErrors(t: TableDef, interpolate: bool): seq<BuildError> {
    if t.IsSubtable() then BindErrors(interpolate, TagValues(t)) else ColumnsErrors(t.columns)
  }

  function TagColumnsErrors(t: TableDef): seq<BuildError> {
    if t.kind == STABLE then ColumnsErrors(t.tagColumns) else []
  }

  ghost function TableErrors(t: TableDef, command: bool, interpolate: bool): seq<BuildError> {
    if OptionsError(t).Some? then [OptionsError(t).value]
    else if !Prints(t, command) then []
    else ContentsErrors(t, interpolate) + TagColumnsErrors(t)
  }

  // ----------------------------------------------------------------- builders

  lemma ColumnStep(text: string, errors: seq<BuildError>, columns: seq<Column>, i: nat)
    requires i < |columns|
    ensures text + ColumnsText(columns[i..])
         == text + ColumnText(columns[i]) + (if i != |columns| - 1 then "," else "") + ColumnsText(columns[i + 1..])
    ensures errors + ColumnsErrors(columns[i..])
         == errors + ColumnErrors(columns[i]) + ColumnsErrors(columns[i + 1..])
  {
    assert columns[i..][1..] == columns[i + 1..];
    Associates4(text, ColumnText(columns[i]), if i != |columns| - 1 then "," else "", ColumnsText(columns[i + 1..]));
    Associates(errors, ColumnErrors(columns[i]), ColumnsErrors(columns[i + 1..]));
  }

  /** The column loop, used for data columns and for tag columns. */
  method BuildColumns(b: Builder, columns: seq<Column>)
    modifies b`text, b`errors
    ensures b.text == old(b.text) + ColumnsText(columns)
    ensures b.errors == old(b.errors) + ColumnsErrors(columns)
  {
    var i := 0;
    while i < |columns|
      invariant 0 <= i <= |columns|
      invariant b.text + ColumnsText(columns[i..]) == old(b.text) + ColumnsText(columns)
      invariant b.errors + ColumnsErrors(columns[i..]) == old(b.errors) + ColumnsErrors(columns)
    {
      ColumnStep(b.text, b.errors, columns, i);
      BuildColumn(b, columns[i]);
      if i != |columns| - 1 {
        b.WriteString(",");
      }
      i := i + 1;
    }
    assert columns[|columns|..] == [];
  }

  method BuildParens(b: Builder, prefix: string, columns: seq<Column>)
    modifies b`text, b`errors
    ensures b.text == old(b.text) + (prefix + ColumnsText(columns) + ")")
    ensures b.errors == old(b.errors) + ColumnsErrors(columns)
  {
    b.WriteString(prefix);
    BuildColumns(b, columns);
    b.WriteString(")");
    Associates4(old(b.text), prefix, ColumnsText(columns), ")");
  }

  /** The USING part of a subtable. */
  method BuildUsing(b: Builder, t: TableDef)
    requires t.IsSubtable()
    modifies b
    ensures b.text == old(b.text) + UsingText(t)
    ensures b.vars == old(b.vars) + BoundAll(b.interpolate, TagValues(t))
    ensures b.errors == old(b.errors) + BindErrors(b.interpolate, TagValues(t))
  {
    hide QuotedList, ListText, BindErrors, UsingText, Listing, TagValues, ValuesOf;
    b.WriteString(" USING ");
    b.WriteQuoted(t.stable);
    var names := SortedKeys(t.tags);
    b.WriteParens(names);
    b.WriteString(" TAGS ");
    TagValuesAre(t, names);
    b.AddList(ValuesOf(t.tags, names));
    UsingWritten(old(b.text), t, names);
  }

  lemma TagValuesAre(t: TableDef, names: seq<string>)
    requires t.IsSubtable() && names == Listing(t.tags.Keys)
    ensures forall name <- names :: name in t.tags
    ensures TagValues(t) == ValuesOf(t.tags, names)
  {
    ListingMembers(t.tags.Keys);
    assert forall name <- names :: name in Elements(names);
  }

  lemma UsingWritten(text: string, t: TableDef, names: seq<string>)
    requires names == Listing(t.tags.Keys)
    ensures text + " USING " + Quote(t.stable) + NamesInParens(names) + " TAGS " + ListText(|names|)
        == text + UsingText(t)
  {
    Associates5(text + " USING ", Quote(t.stable), NamesInParens(names), " TAGS ", ListText(|names|));
    Associates5(" USING ", Quote(t.stable), NamesInParens(names), " TAGS ", ListText(|names|));
    Associates(text, " USING ", Quote(t.stable) + (NamesInParens(names) + (" TAGS " + ListText(|names|))));
  }

  method BuildTableOptions(b: Builder, o: TableOptions)
    modifies b
    ensures b.text == old(b.text) + OptionsText(o)
    ensures b.vars == old(b.vars) + BoundAll(b.interpolate, OptionsVars(o))
    ensures b.errors == old(b.errors)
  {
    if o.comment != "" {
      b.WriteString(" COMMENT ");
      b.AddVars([Str(o.comment)]);
      BindErrorsOfOne(b.interpolate, Str(o.comment));
      Associates(old(b.text), " COMMENT ", "?");
    }
    assert b.text == old(b.text) + CommentText(o);
    BuildSettings(b, o);
    Associates5(old(b.text), CommentText(o), SMAText(o), TTLText(o), KeepText(o));
  }

  method BuildSettings(b: Builder, o: TableOptions)
    modifies b`text
    ensures b.text == old(b.text) + SMAText(o) + TTLText(o) + KeepText(o)
  {
    hide FormatUint, QuotedList;
    if o.sma != [] {
      b.WriteString(" SMA(");
      b.WriteQuotedList(o.sma);
      b.WriteString(")");
      Associates4(old(b.text), " SMA(", QuotedList(o.sma), ")");
    }
    ghost var sma := b.text;
    if o.ttl > 0 {
      b.WriteString(" TTL ");
      b.WriteString(FormatUint(o.ttl));
      Associates(sma, " TTL ", FormatUint(o.ttl));
    }
    ghost var ttl := b.text;
    if o.keep.Some? {
      b.WriteString(" KEEP ");
      b.WriteString(FormatUint(o.keep.value.value));
      b.WriteString(o.keep.value.unit);
      Associates4(ttl, " KEEP ", FormatUint(o.keep.value.value), o.keep.value.unit);
    }
  }

  /** The tags of a subtable, or the columns of any other table. */
  method BuildContents(b: Builder, t: TableDef)
    modifies b
    ensures b.text == old(b.text) + ContentsText(t)
    ensures b.vars == old(b.vars) + BoundAll(b.interpolate, TagValues(t))
    ensures b.errors == old(b.errors) + ContentsErrors(t, b.interpolate)
  {
    hide UsingText, ColumnsText, ColumnsErrors, BindErrors;
    if t.IsSubtable() {
      BuildUsing(b, t);
    } else {
      BuildParens(b, " (", t.columns);
    }
  }

  /** buildTable after its checks and its command. */
  method BuildBody(b: Builder, t: TableDef)
    modifies b
    ensures b.text == old(b.text) + BodyText(t)
    ensures b.vars == old(b.vars) + BoundAll(b.interpolate, TagValues(t) + OptionsVars(t.options))
    ensures b.errors == old(b.errors) + ContentsErrors(t, b.interpolate) + TagColumnsErrors(t)
  {
    hide *;
    b.WriteString(IfNotExistsText(t));
    b.WriteQuoted(t.name);
    BuildContents(b, t);
    BuildTagColumns(b, t);
    BuildTableOptions(b, t.options);
    BoundSplits(b.interpolate, TagValues(t), OptionsVars(t.options));
    BodyWritten(old(b.text), t);
    Associates(old(b.vars), BoundAll(b.interpolate, TagValues(t)), BoundAll(b.interpolate, OptionsVars(t.options)));
  }

  method BuildTagColumns(b: Builder, t: TableDef)
    modifies b`text, b`errors
    ensures b.text == old(b.text) + TagColumnsText(t)
    ensures b.errors == old(b.errors) + TagColumnsErrors(t)
  {
    if t.kind == STABLE {
      BuildParens(b, " TAGS(", t.tagColumns);
    }
  }

  lemma BodyWritten(text: string, t: TableDef)
    ensures text + IfNotExistsText(t) + Quote(t.name) + ContentsText(t) + TagColumnsText(t) + OptionsText(t.options)
         == text + BodyText(t)
  {
    Associates5(text + IfNotExistsText(t), Quote(t.name), ContentsText(t), TagColumnsText(t), OptionsText(t.options));
    Associates5(IfNotExistsText(t), Quote(t.name), ContentsText(t), TagColumnsText(t), OptionsText(t.options));
    Associates(text, IfNotExistsText(t),
        Quote(t.name) + (ContentsText(t) + (TagColumnsText(t) + OptionsText(t.options))));
  }

  lemma NothingAdded(text: string, vars: seq<Value>, errors: seq<BuildError>, interpolate: bool)
    ensures text + "" == text && vars + BoundAll(interpolate, []) == vars && errors + [] == errors
  {
  }

  method BuildTable(b: Builder, table: Table?, command: bool)
    modifies b
    ensures b.text == old(b.text) + TextOf(DefOf(table), command)
    ensures b.vars == old(b.vars) + BoundAll(b.interpolate, VarsOf(DefOf(table), command))
    ensures b.errors == old(b.errors) + ErrorsOf(DefOf(table), command, b.interpolate)
    ensures table != null && OptionsError(table.Def()).Some? ==>
            && b.text == old(b.text) && b.vars == old(b.vars)
            && b.errors == old(b.errors) + [OptionsError(table.Def()).value]
    ensures table == null || (command && table.kind !in {COMMON, STABLE}) ==>
            b.text == old(b.text) && b.vars == old(b.vars)
  {
    hide BodyText, TagValues, ContentsErrors, TagColumnsErrors, OptionsError, OptionsVars, BoundAll;
    NothingAdded(b.text, b.vars, b.errors, b.interpolate);
    if table == null {
      return;
    }
    var t := table.Def();
    var refused := OptionsError(t);
    if refused.Some? {
      b.AddError(refused.value);
      return;
    }
    if command {
      if t.kind != COMMON && t.kind != STABLE {
        return;
      }
      b.WriteString(CommandText(t.kind));
    }
    BuildBody(b, t);
    Associates(old(b.text), if command then CommandText(t.kind) else "", BodyText(t));
    Associates(old(b.errors), ContentsErrors(t, b.interpolate), TagColumnsErrors(t));
  }

  // -------------------------------------------------------------- whole clause

  /** A list of tables as the clause sees it: some may be nil. */
  function Defs(tables: seq<Table?>): (defs: seq<Option<TableDef>>)
    reads set t | t in tables && t != null
    ensures |defs| == |tables|
    ensures forall i :: 0 <= i < |tables| ==> defs[i] == DefOf(tables[i])
  {
    if tables == [] then [] else [DefOf(tables[0])] + Defs(tables[1..])
  }

  function DefOf(table: Table?): Option<TableDef>
    reads if table == null then {} else {table}
  {
    if table == null then None else Some(table.Def())
  }

  predicate AllSubtables(defs: seq<Option<TableDef>>) {
    forall d <- defs :: d.Some? && d.value.IsSubtable()
  }

  ghost function TextOf(d: Option<TableDef>, command: bool): string {
    if d.None? then "" else TableText(d.value, command)
  }

  ghost function VarsOf(d: Option<TableDef>, command: bool): seq<Value> {
    if d.None? then [] else TableVars(d.value, command)
  }

  ghost function ErrorsOf(d: Option<TableDef>, command: bool, interpolate: bool): seq<BuildError> {
    if d.None? then [] else TableErrors(d.value, command, interpolate)
  }

  ghost function TablesText(defs: seq<Option<TableDef>>, command: bool): string {
    if defs == [] then "" else
      TextOf(defs[0], command) + if |defs| == 1 then "" else " " + TablesText(defs[1..], command)
  }

  ghost function TablesVars(defs: seq<Option<TableDef>>, command: bool): seq<Value> {
    if defs == [] then [] else VarsOf(defs[0], command) + TablesVars(defs[1..], command)
  }

  ghost function TablesErrors(defs: seq<Option<TableDef>>, command: bool, interpolate: bool): seq<BuildError> {
    if defs == [] then [] else ErrorsOf(defs[0], command, interpolate) + TablesErrors(defs[1..], command, interpolate)
  }

  /** Several subtables share one command. */
  predicate Merged(defs: seq<Option<TableDef>>) { |defs| > 1 && AllSubtables(defs) }

  ghost function CreateText(defs: seq<Option<TableDef>>): string {
    (if Merged(defs) then "CREATE TABLE " else "") + TablesText(defs, !Merged(defs))
  }

  /** CreateTable.Build. */
  method Build(b: Builder, tables: seq<Table?>)
    modifies b
    ensures b.text == old(b.text) + CreateText(Defs(tables))
    ensures var shared := |tables| >= 2 && forall t <- tables :: t != null && t.kind == COMMON && t.stable != "";
            && b.text == old(b.text) + (if shared then "CREATE TABLE " else "") + TablesText(Defs(tables), !shared)
            && b.vars == old(b.vars) + BoundAll(b.interpolate, TablesVars(Defs(tables), !shared))
            && b.errors == old(b.errors) + TablesErrors(Defs(tables), !shared, b.interpolate)
  {
    SharedInWords(tables);
    hide TablesText, TablesVars, TablesErrors, AllSubtables, Defs, BoundAll;
    assert old(b.text) + "" == old(b.text);
    if |tables| > 1 && AllSubtables(Defs(tables)) {
      b.WriteString("CREATE TABLE ");
      BuildTables(b, tables, false);
      Associates(old(b.text), "CREATE TABLE ", TablesText(Defs(tables), false));
    } else {
      BuildTables(b, tables, true);
    }
  }

  lemma SharedInWords(tables: seq<Table?>)
    ensures AllSubtables(Defs(tables)) <==> forall t <- tables :: t != null && t.kind == COMMON && t.stable != ""
    ensures |Defs(tables)| == |tables|
  {
    var defs := Defs(tables);
    if AllSubtables(defs) {
      forall t <- tables ensures t != null && t.kind == COMMON && t.stable != "" {
        var i :| 0 <= i < |tables| && tables[i] == t;
        assert defs[i] in defs;
      }
    }
    if forall t <- tables :: t != null && t.kind == COMMON && t.stable != "" {
      forall d <- defs ensures d.Some? && d.value.IsSubtable() {
        var i :| 0 <= i < |defs| && defs[i] == d;
        assert tables[i] in tables;
      }
    }
  }

  method BuildTables(b: Builder, tables: seq<Table?>, command: bool)
    modifies b
    ensures b.text == old(b.text) + TablesText(Defs(tables), command)
    ensures b.vars == old(b.vars) + BoundAll(b.interpolate, TablesVars(Defs(tables), command))
    ensures b.errors == old(b.errors) + TablesErrors(Defs(tables), command, b.interpolate)
  {
    hide *;
    var i := 0;
    ghost var defs := Defs(tables);
    while i < |tables|
      invariant 0 <= i <= |tables|
      invariant forall j :: 0 <= j < |tables| ==> defs[j] == DefOf(tables[j])
      invariant b.text + (if 0 < i < |defs| then " " else "") + TablesText(defs[i..], command)
             == old(b.text) + TablesText(defs, command)
      invariant b.vars + BoundAll(b.interpolate, TablesVars(defs[i..], command))
             == old(b.vars) + BoundAll(b.interpolate, TablesVars(defs, command))
      invariant b.errors + TablesErrors(defs[i..], command, b.interpolate)
             == old(b.errors) + TablesErrors(defs, command, b.interpolate)
    {
      TableStep(b.text, b.vars, b.errors, defs, i, command, b.interpolate);
      if i > 0 {
        b.WriteString(" ");
      }
      BuildTable(b, tables[i], command);
      i := i + 1;
    }
    assert defs[|defs|..] == [];
    NothingLeft(b.interpolate, command);
  }

  lemma NothingLeft(interpolate: bool, command: bool)
    ensures TablesText([], command) == "" && TablesErrors([], command, interpolate) == []
    ensures BoundAll(interpolate, TablesVars([], command)) == []
  {
  }

  lemma TableStep(text: string, vars: seq<Value>, errors: seq<BuildError>, defs: seq<Option<TableDef>>, i: nat,
      command: bool, interpolate: bool)
    requires i < |defs|
    ensures text + (if 0 < i < |defs| then " " else "") + TablesText(defs[i..], command)
         == text + (if i > 0 then " " else "") + TextOf(defs[i], command)
            + (if 0 < i + 1 < |defs| then " " else "") + TablesText(defs[i + 1..], command)
    ensures vars + BoundAll(interpolate, TablesVars(defs[i..], command))
         == vars + BoundAll(interpolate, VarsOf(defs[i], command))
             + BoundAll(interpolate, TablesVars(defs[i + 1..], command))
    ensures errors + TablesErrors(defs[i..], command, interpolate)
         == errors + ErrorsOf(defs[i], command, interpolate) + TablesErrors(defs[i + 1..], command, interpolate)
  {
    assert defs[i..][1..] == defs[i + 1..];
    Associates4(text + if i > 0 then " " else "", TextOf(defs[i], command),
                if i + 1 < |defs| then " " else "", TablesText(defs[i + 1..], command));
    BoundSplits(interpolate, VarsOf(defs[i], command), TablesVars(defs[i + 1..], command));
    Associates(vars, BoundAll(interpolate, VarsOf(defs[i], command)),
        BoundAll(interpolate, TablesVars(defs[i + 1..], command)));
    Associates(errors, ErrorsOf(defs[i], command, interpolate), TablesErrors(defs[i + 1..], command, interpolate));
  }
}
