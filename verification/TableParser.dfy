/**
  A reference parser for CREATE TABLE statements and their variables, and the proof
  that it inverts the printer: single tables, lists of tables, and merged subtables.
 */
module TableParser {
  import opened Common
  import opened Decimal
  import opened Identifier
  import opened Builder
  import opened Parsing
  import opened Column
  import opened SortedNames
  import opened Table

  // ------------------------------------------------------------------ columns

  function ReadColumns(s: string): (r: Option<(seq<Column>, string)>)
    ensures r.Some? ==> |r.value.1| < |s|
    decreases |s|
  {
    var first := ReadColumn(s);
    if first.None? then None else
      var (column, rest) := first.value;
      if rest == "" || rest[0] != ',' then Some(([column], rest)) else
        var more := ReadColumns(rest[1..]);
        if more.None? then None else Some(([column] + more.value.0, more.value.1))
  }

  function ReadColumnList(prefix: string, s: string): (r: Option<(seq<Column>, string)>)
    ensures r.Some? ==> |r.value.1| <= |s|
  {
    var inside := Eat(prefix, s);
    if inside.None? then None
    else if Eat(")", inside.value).Some? then Some(([], Eat(")", inside.value).value)) else
      var columns := ReadColumns(inside.value);
      if columns.None? then None else
        var rest := Eat(")", columns.value.1);
        if rest.None? then None else Some((columns.value.0, rest.value))
  }

  function CanonicalAll(columns: seq<Column>): seq<Column> {
    if columns == [] then [] else [Canonical(columns[0])] + CanonicalAll(columns[1..])
  }

  lemma {:induction false} ReadsColumns(columns: seq<Column>, rest: string)
    requires columns != [] && forall c <- columns :: Printable(c)
    ensures ReadColumns(ColumnsText(columns) + (")" + rest)) == Some((CanonicalAll(columns), ")" + rest))
  {
    hide ReadColumn, ColumnText, Canonical, Printable;
    var c, more := columns[0], columns[1..];
    assert columns == [c] + more && c in columns;
    var end := ")" + rest;
    if more == [] {
      assert ColumnText(c) + "" == ColumnText(c);
      assert CanonicalAll(columns) == [Canonical(c)] + [] == [Canonical(c)];
      ColumnRoundTrip(c, end);
    } else {
      var after := "," + (ColumnsText(more) + end);
      ReadsColumns(more, rest);
      ColumnRoundTrip(c, after);
      Associates4(ColumnText(c), ",", ColumnsText(more), end);
      assert ColumnsText(columns) == ColumnText(c) + ("," + ColumnsText(more));
      Associates(ColumnText(c), "," + ColumnsText(more), end);
      assert after[1..] == ColumnsText(more) + end;
    }
  }

  lemma ColumnsStartWithTick(columns: seq<Column>, rest: string)
    requires columns != [] && Printable(columns[0])
    ensures "`" <= ColumnsText(columns) + rest
  {
    var c := columns[0];
    StartsWithTick(c.name, "");
    assert "`" <= Quote(c.name) + "" == Quote(c.name);
    assert Quote(c.name) <= ColumnText(c) <= ColumnsText(columns) by {
      hide *;
      ColumnTextOn(c, "");
      TextStarts(columns);
    }
  }

  lemma TextStarts(columns: seq<Column>)
    requires columns != [] && ValidCompression(columns[0])
    ensures Quote(columns[0].name) <= ColumnText(columns[0]) <= ColumnsText(columns)
  {
  }

  lemma ReadsColumnList(prefix: string, columns: seq<Column>, rest: string)
    requires forall c <- columns :: Printable(c)
    ensures ReadColumnList(prefix, prefix + ColumnsText(columns) + ")" + rest) == Some((CanonicalAll(columns), rest))
  {
    hide ReadColumns, ColumnsText, Printable;
    var inside := ColumnsText(columns) + (")" + rest);
    Associates4(prefix, ColumnsText(columns), ")", rest);
    Eats(prefix, inside);
    Eats(")", rest);
    if columns == [] {
      assert ColumnsText(columns) == "" by { NoColumns(); }
      assert inside == ")" + rest;
    } else {
      assert columns[0] in columns;
      ColumnsStartWithTick(columns, ")" + rest);
      EatsNot(")", inside, 0);
      ReadsColumns(columns, rest);
    }
  }

  lemma NoColumns()
    ensures ColumnsText([]) == ""
  {
  }

  // -------------------------------------------------------------------- USING

  /** Pairing the printed names with the bound values gives the tag map back. */
  lemma TagsPairUp(interpolate: bool, t: TableDef)
    requires t.IsSubtable()
    ensures |BoundAll(interpolate, TagValues(t))| == |Listing(t.tags.Keys)|
    ensures Pair(Listing(t.tags.Keys), BoundAll(interpolate, TagValues(t))) == BoundTags(interpolate, t.tags)
  {
    hide Listing, TagValues;
    var names := Listing(t.tags.Keys);
    ListingMembers(t.tags.Keys);
    TagValuesAre(t, names);
    ValuesPairUp(interpolate, t.tags, names);
  }

  datatype Contents = Contents(stable: string, tags: map<string, Value>, columns: seq<Column>, rest: string,
      vars: seq<Value>)

  function ReadUsing(s: string, vars: seq<Value>): (r: Option<Contents>)
    ensures r.Some? ==> |r.value.rest| <= |s|
  {
    var stable := ReadName(s);
    if stable.None? then None else
      var names := ReadParens(stable.value.1);
      if names.None? then None else
        var n := |names.value.0|;
        var marks := Eat(" TAGS ", names.value.1);
        if marks.None? || n > |vars| then None else
          var rest := ReadList(n, marks.value);
          if rest.None? then None else
            Some(Contents(stable.value.0, Pair(names.value.0, vars[..n]), [], rest.value, vars[n..]))
  }

  function ReadContents(kind: int, s: string, vars: seq<Value>): (r: Option<Contents>)
    ensures r.Some? ==> |r.value.rest| <= |s|
  {
    var using := Eat(" USING ", s);
    if kind == COMMON && using.Some? then ReadUsing(using.value, vars) else
      var columns := ReadColumnList(" (", s);
      if columns.None? then None else Some(Contents("", map[], columns.value.0, columns.value.1, vars))
  }

  lemma ReadsUsing(interpolate: bool, t: TableDef, rest: string, vars: seq<Value>)
    requires t.IsSubtable() && Dotted(t.stable) && forall name <- t.tags :: Dotted(name)
    ensures ReadContents(COMMON, UsingText(t) + rest, BoundAll(interpolate, TagValues(t)) + vars)
         == Some(Contents(t.stable, BoundTags(interpolate, t.tags), [], rest, vars))
  {
    hide ReadName, ReadParens, ReadList, NamesInParens, ListText, Listing, Quote, Dotted, ValuesOf, BoundAll,
        TagValues, Eat;
    var names := Listing(t.tags.Keys);
    ListingMembers(t.tags.Keys);
    TagValuesAre(t, names);
    var values := BoundAll(interpolate, TagValues(t));
    TagsPairUp(interpolate, t);
    assert forall name <- names :: name in Elements(names);
    SplitsBack(values, vars);
    var marks := ListText(|names|) + rest;
    var afterStable := NamesInParens(names) + (" TAGS " + marks);
    UsingTextOn(t, names, rest);
    Eats(" USING ", Quote(t.stable) + afterStable);
    ParensEndName(names, " TAGS " + marks);
    ReadsName(t.stable, afterStable);
    ReadsParens(names, " TAGS " + marks);
    Eats(" TAGS ", marks);
    ReadsList(|names|, rest);
  }

  lemma UsingTextOn(t: TableDef, names: seq<string>, rest: string)
    requires names == Listing(t.tags.Keys)
    ensures UsingText(t) + rest
         == " USING " + (Quote(t.stable) + (NamesInParens(names) + (" TAGS " + (ListText(|names|) + rest))))
  {
    hide Listing, ListText, NamesInParens, Quote;
    var (a, b, c, d, e) := (" USING ", Quote(t.stable), NamesInParens(names), " TAGS ", ListText(|names|));
    Associates5(a + b, c, d, e, rest);
    Associates(a, b, c + (d + (e + rest)));
    assert UsingText(t) == a + b + c + d + e;
  }

  // ------------------------------------------------------------------ options

  function ReadComment(interpolate: bool, s: string, vars: seq<Value>): (r: Option<(string, string, seq<Value>)>)
    ensures r.Some? ==> |r.value.1| <= |s|
  {
    var rest := Eat(" COMMENT ?", s);
    if rest.None? then Some(("", s, vars))
    else if vars == [] then None else
      var text := ServerReads(interpolate, vars[0]);
      if text.Some? && text.value.Str? then Some((text.value.text, rest.value, vars[1..])) else None
  }

  function ReadSMA(s: string): (r: Option<(seq<string>, string)>)
    ensures r.Some? ==> |r.value.1| <= |s|
  {
    var inside := Eat(" SMA(", s);
    if inside.None? then Some(([], s)) else
      var names := ReadNames(inside.value);
      if names.None? then None else
        var rest := Eat(")", names.value.1);
        if rest.None? then None else Some((names.value.0, rest.value))
  }

  function ReadTTL(s: string): (r: Option<(uint32, string)>)
    ensures r.Some? ==> |r.value.1| <= |s|
  {
    var digits := Eat(" TTL ", s);
    if digits.None? then Some((0, s)) else
      var days := ReadUint(digits.value);
      if days.None? || days.value.0 >= 0x1_0000_0000 then None else Some((days.value.0, days.value.1))
  }

  function ReadKeep(s: string): (r: Option<(Option<Retention>, string)>)
    ensures r.Some? ==> |r.value.1| <= |s|
  {
    var digits := Eat(" KEEP ", s);
    if digits.None? then Some((None, s)) else
      var value := ReadUint(digits.value);
      if value.None? || value.value.1 == "" then None
      else Some((Some(Retention(value.value.0, value.value.1[..1])), value.value.1[1..]))
  }

  function ReadOptions(interpolate: bool, s: string, vars: seq<Value>): (r: Option<(TableOptions, string, seq<Value>)>)
    ensures r.Some? ==> |r.value.1| <= |s|
  {
    var comment := ReadComment(interpolate, s, vars);
    if comment.None? then None else
      var sma := ReadSMA(comment.value.1);
      if sma.None? then None else
        var ttl := ReadTTL(sma.value.1);
        if ttl.None? then None else
          var keep := ReadKeep(ttl.value.1);
          if keep.None? then None else
            Some((TableOptions(comment.value.0, ttl.value.0, sma.value.0, keep.value.0), keep.value.1, comment.value.2))
  }

  /** What may follow a table: the end, another command, or another merged subtable. */
  predicate EndsTable(rest: string) { rest == "" || " CREATE " <= rest || " IF " <= rest || " `" <= rest }

  ghost predicate ReadableOptions(o: TableOptions) {
    && (forall name <- o.sma :: Dotted(name))
    && (o.keep.Some? ==> o.keep.value.unit in ["m", "h", "d"])
  }

  lemma ReadsKeep(o: TableOptions, rest: string)
    requires ReadableOptions(o) && EndsTable(rest)
    ensures ReadKeep(KeepText(o) + rest) == Some((o.keep, rest))
  {
    hide FormatUint, ReadUint, Eat;
    if o.keep.None? {
      assert KeepText(o) + rest == rest;
      EatsNot(" KEEP ", rest, 1);
    } else {
      var (digits, unit) := (FormatUint(o.keep.value.value), o.keep.value.unit);
      Associates4(" KEEP ", digits, unit, rest);
      Eats(" KEEP ", digits + (unit + rest));
      ReadsUint(o.keep.value.value, unit + rest);
      SplitsBack(unit, rest);
    }
  }

  lemma ReadsTTL(o: TableOptions, rest: string)
    requires ReadableOptions(o) && EndsTable(rest)
    ensures ReadTTL(TTLText(o) + (KeepText(o) + rest)) == Some((o.ttl, KeepText(o) + rest))
  {
    hide FormatUint, ReadUint;
    var after := KeepText(o) + rest;
    assert after == rest || " KEEP " <= after;
    if o.ttl == 0 {
      assert TTLText(o) + after == after;
      EatsNot(" TTL ", after, 1);
    } else {
      Associates(" TTL ", FormatUint(o.ttl), after);
      Eats(" TTL ", FormatUint(o.ttl) + after);
      ReadsUint(o.ttl, after);
    }
  }

  lemma AfterSMA(o: TableOptions, rest: string)
    ensures var after := TTLText(o) + (KeepText(o) + rest); after == rest || " KEEP " <= after || " TTL " <= after
  {
    hide FormatUint;
  }

  lemma ReadsSMA(o: TableOptions, rest: string)
    requires ReadableOptions(o) && EndsTable(rest)
    ensures var after := TTLText(o) + (KeepText(o) + rest); ReadSMA(SMAText(o) + after) == Some((o.sma, after))
  {
    hide TTLText, KeepText, ReadNames, QuotedList, Eat, Dotted;
    var after := TTLText(o) + (KeepText(o) + rest);
    AfterSMA(o, rest);
    if o.sma == [] {
      assert SMAText(o) + after == after;
      EatsNot(" SMA(", after, 1);
    } else {
      Associates4(" SMA(", QuotedList(o.sma), ")", after);
      Eats(" SMA(", QuotedList(o.sma) + (")" + after));
      ReadsNames(o.sma, ")" + after);
      Eats(")", after);
    }
  }

  lemma ReadsComment(interpolate: bool, o: TableOptions, rest: string, vars: seq<Value>)
    requires ReadableOptions(o) && EndsTable(rest)
    ensures var after := SMAText(o) + (TTLText(o) + (KeepText(o) + rest));
            ReadComment(interpolate, CommentText(o) + after, BoundAll(interpolate, OptionsVars(o)) + vars)
            == Some((o.comment, after, vars))
  {
    hide FormatUint, QuotedList, ServerReads, Bound, Eat, SMAText, TTLText, KeepText, EndsTable;
    var after := SMAText(o) + (TTLText(o) + (KeepText(o) + rest));
    if o.comment == "" {
      AfterComment(o, rest);
      assert CommentText(o) + after == after;
      assert BoundAll(interpolate, []) + vars == vars;
    } else {
      Eats(" COMMENT ?", after);
      BoundValueArrives(interpolate, Str(o.comment));
      var bound := BoundAll(interpolate, OptionsVars(o));
      assert bound == [Bound(interpolate, Str(o.comment))];
      SplitsBack(bound, vars);
    }
  }

  lemma AfterComment(o: TableOptions, rest: string)
    requires EndsTable(rest)
    ensures Eat(" COMMENT ?", SMAText(o) + (TTLText(o) + (KeepText(o) + rest))) == None
  {
    hide TTLText, KeepText, QuotedList, Eat;
    var after := SMAText(o) + (TTLText(o) + (KeepText(o) + rest));
    AfterSMA(o, rest);
    assert after == rest || " KEEP " <= after || " TTL " <= after || " SMA(" <= after;
    NoCommentThere(after);
  }

  lemma NoCommentThere(s: string)
    requires EndsTable(s) || " KEEP " <= s || " TTL " <= s || " SMA(" <= s
    ensures Eat(" COMMENT ?", s) == None
  {
    EatsNot(" COMMENT ?", s, if " CREATE " <= s then 2 else 1);
  }

  lemma ReadsOptions(interpolate: bool, o: TableOptions, rest: string, vars: seq<Value>)
    requires ReadableOptions(o) && EndsTable(rest)
    ensures ReadOptions(interpolate, OptionsText(o) + rest, BoundAll(interpolate, OptionsVars(o)) + vars)
         == Some((o, rest, vars))
  {
    hide CommentText, SMAText, TTLText, KeepText, ReadComment, ReadSMA, ReadTTL, ReadKeep, BoundAll, OptionsVars;
    Associates5(CommentText(o), SMAText(o), TTLText(o), KeepText(o), rest);
    ReadsComment(interpolate, o, rest, vars);
    ReadsSMA(o, rest);
    ReadsTTL(o, rest);
    ReadsKeep(o, rest);
  }

  // -------------------------------------------------------------------- tables

  function ReadIfNotExists(s: string): (r: (bool, string))
    ensures |r.1| <= |s|
  {
    var rest := Eat("IF NOT EXISTS ", s);
    if rest.None? then (false, s) else (true, rest.value)
  }

  function ReadTagColumns(kind: int, s: string): (r: Option<(seq<Column>, string)>)
    ensures r.Some? ==> |r.value.1| <= |s|
  {
    if kind == STABLE then ReadColumnList(" TAGS(", s) else Some(([], s))
  }

  function ReadBody(interpolate: bool, kind: int, s: string, vars: seq<Value>)
    : (r: Option<(TableDef, string, seq<Value>)>)
    ensures r.Some? ==> |r.value.1| < |s|
  {
    var (ifNotExists, afterIf) := ReadIfNotExists(s);
    var name := ReadName(afterIf);
    if name.None? then None else
      var contents := ReadContents(kind, name.value.1, vars);
      if contents.None? then None else
        var c := contents.value;
        var tagColumns := ReadTagColumns(kind, c.rest);
        if tagColumns.None? then None else
          var options := ReadOptions(interpolate, tagColumns.value.1, c.vars);
          if options.None? then None else
            Some((TableDef(kind, name.value.0, ifNotExists, c.stable, c.tags, c.columns, tagColumns.value.0,
                           options.value.0),
                  options.value.1, options.value.2))
  }

  /** A table's own command, or none. */
  function ReadCommand(command: bool, s: string): (r: Option<(int, string)>)
    ensures r.Some? ==> |r.value.1| <= |s|
  {
    if !command then Some((COMMON, s))
    else if Eat("CREATE TABLE ", s).Some? then Some((COMMON, Eat("CREATE TABLE ", s).value))
    else if Eat("CREATE STABLE ", s).Some? then Some((STABLE, Eat("CREATE STABLE ", s).value))
    else None
  }

  function ReadTable(interpolate: bool, command: bool, s: string, vars: seq<Value>)
    : (r: Option<(TableDef, string, seq<Value>)>)
    ensures r.Some? ==> |r.value.1| < |s|
  {
    var kind := ReadCommand(command, s);
    if kind.None? then None else ReadBody(interpolate, kind.value.0, kind.value.1, vars)
  }

  /** Tables separated by spaces, either each with a command of its own or all without one. */
  function ReadTables(interpolate: bool, command: bool, s: string, vars: seq<Value>): Option<seq<TableDef>>
    decreases |s|
  {
    var table := ReadTable(interpolate, command, s, vars);
    if table.None? then None else
      var (t, rest, left) := table.value;
      if rest == "" then (if left == [] then Some([t]) else None) else
        var next := Eat(" ", rest);
        if next.None? then None else
          var more := ReadTables(interpolate, command, next.value, left);
          if more.None? then None else Some([t] + more.value)
  }

  /** A statement with one command for all of its tables. */
  function ReadShared(interpolate: bool, s: string, vars: seq<Value>): Option<seq<TableDef>> {
    var tables := Eat("CREATE TABLE ", s);
    if tables.None? then None else ReadTables(interpolate, false, tables.value, vars)
  }

  // ----------------------------------------------------------------- round trip

  /** A table of a known kind that passes validation and whose names and types can be read. */
  ghost predicate Readable(t: TableDef) {
    && OptionsError(t).None? && (t.kind == COMMON || t.kind == STABLE)
    && Dotted(t.name) && ReadableOptions(t.options)
    && (Subtable(t) ==> Dotted(t.stable) && forall name <- t.tags :: Dotted(name))
    && (!Subtable(t) ==> forall c <- t.columns :: Printable(c))
    && (t.kind == STABLE ==> forall c <- t.tagColumns :: Printable(c))
  }

  /** A table that takes its columns from a supertable. */
  predicate Subtable(t: TableDef) { t.kind == COMMON && t.stable != "" }

  /** What the statement says: fields that the kind does not use are empty, values are bound. */
  ghost function Said(interpolate: bool, t: TableDef): TableDef {
    t.(stable := if Subtable(t) then t.stable else "",
       tags := if Subtable(t) then BoundTags(interpolate, t.tags) else map[],
       columns := if Subtable(t) then [] else CanonicalAll(t.columns),
       tagColumns := if t.kind == STABLE then CanonicalAll(t.tagColumns) else [])
  }

  lemma ReadsContents(interpolate: bool, t: TableDef, rest: string, vars: seq<Value>)
    requires Readable(t)
    ensures ReadContents(t.kind, ContentsText(t) + rest, BoundAll(interpolate, TagValues(t)) + vars)
         == Some(Contents(Said(interpolate, t).stable, Said(interpolate, t).tags, Said(interpolate, t).columns, rest,
             vars))
  {
    hide UsingText, TagValues, ReadUsing, ColumnsText, Printable, ReadColumnList;
    if t.IsSubtable() {
      hide ReadContents;
      ReadsUsing(interpolate, t, rest, vars);
    } else {
      NoTagValues(interpolate, t, vars);
      ReadsColumnList(" (", t.columns, rest);
      EatsNot(" USING ", ContentsText(t) + rest, 1);
    }
  }

  lemma NoTagValues(interpolate: bool, t: TableDef, vars: seq<Value>)
    requires !t.IsSubtable()
    ensures BoundAll(interpolate, TagValues(t)) + vars == vars
  {
  }

  lemma ReadsTagColumns(t: TableDef, rest: string)
    requires t.kind == STABLE ==> forall c <- t.tagColumns :: Printable(c)
    ensures ReadTagColumns(t.kind, TagColumnsText(t) + rest)
         == Some((if t.kind == STABLE then CanonicalAll(t.tagColumns) else [], rest))
  {
    hide ReadColumnList, ColumnsText, Printable;
    if t.kind == STABLE {
      ReadsColumnList(" TAGS(", t.tagColumns, rest);
    } else {
      assert TagColumnsText(t) + rest == rest;
    }
  }

  lemma ReadsIfNotExists(t: TableDef, rest: string)
    requires "`" <= rest
    ensures ReadIfNotExists(IfNotExistsText(t) + rest) == (t.ifNotExists, rest)
  {
    if t.ifNotExists {
      Eats("IF NOT EXISTS ", rest);
    } else {
      assert IfNotExistsText(t) + rest == rest;
      EatsNot("IF NOT EXISTS ", rest, 0);
    }
  }

  /** The body of a table in front of anything that may follow a table. */
  function BodyOn(t: TableDef, contents: string, rest: string): string {
    IfNotExistsText(t) + (Quote(t.name) + (contents + (TagColumnsText(t) + (OptionsText(t.options) + rest))))
  }

  lemma BodyTextOn(t: TableDef, rest: string)
    ensures BodyText(t) + rest == BodyOn(t, ContentsText(t), rest)
  {
    hide IfNotExistsText, Quote, ContentsText, TagColumnsText, OptionsText;
    Associates5(IfNotExistsText(t) + Quote(t.name), ContentsText(t), TagColumnsText(t), OptionsText(t.options), rest);
    Associates(IfNotExistsText(t), Quote(t.name),
        ContentsText(t) + (TagColumnsText(t) + (OptionsText(t.options) + rest)));
  }

  lemma ContentsEndName(t: TableDef, rest: string)
    ensures EndsIdentifier(ContentsText(t) + rest)
  {
    hide UsingText, ColumnsText;
    if t.IsSubtable() {
      UsingStarts(t);
    }
    assert " " <= ContentsText(t);
  }

  lemma UsingStarts(t: TableDef)
    ensures " " <= UsingText(t)
  {
    UsingTextOn(t, Listing(t.tags.Keys), "");
    assert UsingText(t) + "" == UsingText(t);
  }

  /** The parser inverts the printer on one table, whatever follows it. */
  lemma BodyRoundTrip(interpolate: bool, t: TableDef, rest: string, vars: seq<Value>)
    requires Readable(t) && EndsTable(rest)
    ensures ReadBody(interpolate, t.kind, BodyText(t) + rest,
                     BoundAll(interpolate, TagValues(t) + OptionsVars(t.options)) + vars)
         == Some((Said(interpolate, t), rest, vars))
  {
    hide IfNotExistsText, Quote, ContentsText, TagColumnsText, OptionsText, BodyText, ReadIfNotExists, ReadName,
         ReadContents, ReadTagColumns, ReadOptions, BoundAll, TagValues, OptionsVars, OptionsError, Printable, Dotted,
         BoundTags, CanonicalAll;
    var tags, options := BoundAll(interpolate, TagValues(t)), BoundAll(interpolate, OptionsVars(t.options));
    BoundSplits(interpolate, TagValues(t), OptionsVars(t.options));
    Associates(tags, options, vars);
    var onOptions := OptionsText(t.options) + rest;
    var onTags := TagColumnsText(t) + onOptions;
    var onContents := ContentsText(t) + onTags;
    BodyTextOn(t, rest);
    StartsWithTick(t.name, onContents);
    ReadsIfNotExists(t, Quote(t.name) + onContents);
    ContentsEndName(t, onTags);
    ReadsName(t.name, onContents);
    ReadsContents(interpolate, t, onTags, options + vars);
    ReadsTagColumns(t, onOptions);
    ReadsOptions(interpolate, t.options, rest, vars);
  }

  lemma BodyStarts(t: TableDef, rest: string)
    requires Dotted(t.name)
    ensures "IF " <= BodyText(t) + rest || "`" <= BodyText(t) + rest
  {
    hide Quote, ContentsText, TagColumnsText, OptionsText, Dotted;
    BodyTextOn(t, rest);
    var after := ContentsText(t) + (TagColumnsText(t) + (OptionsText(t.options) + rest));
    StartsWithTick(t.name, after);
    if !t.ifNotExists {
      assert "" + (Quote(t.name) + after) == Quote(t.name) + after;
    }
  }

  lemma ReadsCommand(t: TableDef, command: bool, rest: string)
    requires Readable(t) && (!command ==> t.kind == COMMON)
    ensures ReadCommand(command, (if command then CommandText(t.kind) else "") + (BodyText(t) + rest))
         == Some((t.kind, BodyText(t) + rest))
  {
    hide BodyText, Dotted, OptionsError, Printable;
    var body := BodyText(t) + rest;
    if command {
      Eats(CommandText(t.kind), body);
      if t.kind == STABLE {
        EatsNot("CREATE TABLE ", CommandText(t.kind) + body, 7);
      }
    } else {
      assert "" + body == body;
    }
  }

  lemma TableRoundTrip(interpolate: bool, t: TableDef, command: bool, rest: string, vars: seq<Value>)
    requires Readable(t) && EndsTable(rest) && (!command ==> t.kind == COMMON)
    ensures ReadTable(interpolate, command, TableText(t, command) + rest,
                      BoundAll(interpolate, TableVars(t, command)) + vars)
         == Some((Said(interpolate, t), rest, vars))
  {
    hide BodyText, ReadCommand, ReadBody, CommandText, TagValues, OptionsVars, BoundAll, Said, OptionsError,
        Printable, Dotted;
    ReadsCommand(t, command, rest);
    Associates(if command then CommandText(t.kind) else "", BodyText(t), rest);
    BodyRoundTrip(interpolate, t, rest, vars);
  }

  lemma TableStarts(t: TableDef, command: bool, rest: string)
    requires Readable(t)
    ensures EndsTable(" " + (TableText(t, command) + rest)) && TableText(t, command) != ""
  {
    hide BodyText, Dotted, OptionsError, Printable;
    BodyStarts(t, rest);
    BodyStarts(t, "");
    assert BodyText(t) + "" == BodyText(t);
    Associates(if command then CommandText(t.kind) else "", BodyText(t), rest);
  }

  ghost function SaidAll(interpolate: bool, tables: seq<TableDef>): seq<TableDef> {
    if tables == [] then [] else [Said(interpolate, tables[0])] + SaidAll(interpolate, tables[1..])
  }

  function Somes(tables: seq<TableDef>): (defs: seq<Option<TableDef>>)
    ensures |defs| == |tables| && forall i :: 0 <= i < |tables| ==> defs[i] == Some(tables[i])
  {
    if tables == [] then [] else [Some(tables[0])] + Somes(tables[1..])
  }

  lemma {:induction false} TablesRoundTrip(interpolate: bool, tables: seq<TableDef>, command: bool)
    requires tables != [] && forall t <- tables :: Readable(t) && (!command ==> t.kind == COMMON)
    ensures ReadTables(interpolate, command, TablesText(Somes(tables), command),
        BoundAll(interpolate, TablesVars(Somes(tables), command)))
         == Some(SaidAll(interpolate, tables))
  {
    hide ReadTable, TableText, TableVars, BoundAll, Said, Readable;
    var t, more := tables[0], tables[1..];
    assert t in tables && Somes(tables)[1..] == Somes(more);
    var vars := TablesVars(Somes(more), command);
    BoundSplits(interpolate, TableVars(t, command), vars);
    if more == [] {
      LastTable(interpolate, t, command);
      assert Somes(more) == [] && vars == [];
      assert TablesText(Somes(tables), command) == TableText(t, command) + "";
      assert TablesVars(Somes(tables), command) == TableVars(t, command) + [];
      TableRoundTrip(interpolate, t, command, "", []);
      assert SaidAll(interpolate, tables) == [Said(interpolate, t)] + [] == [Said(interpolate, t)];
    } else {
      var rest := TablesText(Somes(more), command);
      TablesStart(more, command);
      TablesRoundTrip(interpolate, more, command);
      TableRoundTrip(interpolate, t, command, " " + rest, BoundAll(interpolate, vars));
      Eats(" ", rest);
    }
  }

  lemma LastTable(interpolate: bool, t: TableDef, command: bool)
    ensures TableText(t, command) + "" == TableText(t, command)
    ensures TableVars(t, command) + [] == TableVars(t, command)
    ensures BoundAll(interpolate, TableVars(t, command)) + [] == BoundAll(interpolate, TableVars(t, command))
  {
  }

  lemma TablesStart(tables: seq<TableDef>, command: bool)
    requires tables != [] && Readable(tables[0])
    ensures EndsTable(" " + TablesText(Somes(tables), command))
  {
    hide TableText, Readable;
    var t := tables[0];
    var rest := if |tables| == 1 then "" else " " + TablesText(Somes(tables)[1..], command);
    TableStarts(t, command, rest);
  }

  /** One command for several subtables, one for each table otherwise; a nil table is no subtable. */
  lemma FormInWords(defs: seq<Option<TableDef>>)
    ensures var shared := |defs| >= 2 && forall d <- defs :: d.Some? && d.value.kind == COMMON && d.value.stable != "";
            CreateText(defs) == if shared then "CREATE TABLE " + TablesText(defs, false) else TablesText(defs, true)
  {
    hide TablesText;
    assert "" + TablesText(defs, true) == TablesText(defs, true);
  }

  /**
    The DDL printer has an inverse: any list of readable tables is recovered from the text and
    the variables of its CREATE clause. Two or more subtables are read after a single command,
    in any other list each table after its own.
   */
  lemma CreateRoundTrip(interpolate: bool, tables: seq<TableDef>)
    requires tables != [] && forall t <- tables :: Readable(t)
    ensures var shared := |tables| >= 2 && forall t <- tables :: t.kind == COMMON && t.stable != "";
            var (text, vars) := (CreateText(Somes(tables)), BoundAll(interpolate, TablesVars(Somes(tables), !shared)));
            if shared then ReadShared(interpolate, text, vars) == Some(SaidAll(interpolate, tables))
            else ReadTables(interpolate, true, text, vars) == Some(SaidAll(interpolate, tables))
  {
    hide TablesText, TablesVars, Readable, ReadTables, SaidAll, BoundAll, CreateText;
    var defs := Somes(tables);
    FormInWords(defs);
    assert forall i :: 0 <= i < |tables| ==> defs[i] in defs && tables[i] in tables;
    if |tables| >= 2 && forall t <- tables :: t.kind == COMMON && t.stable != "" {
      assert forall d <- defs :: d.Some? && d.value.kind == COMMON && d.value.stable != "";
      Eats("CREATE TABLE ", TablesText(defs, false));
      TablesRoundTrip(interpolate, tables, false);
    } else {
      assert |defs| < 2 || exists d <- defs :: d.None? || d.value.kind != COMMON || d.value.stable == "" by {
        if |tables| >= 2 {
          var t :| t in tables && !(t.kind == COMMON && t.stable != "");
          var i :| 0 <= i < |tables| && tables[i] == t;
          assert defs[i] == Some(t);
        }
      }
      TablesRoundTrip(interpolate, tables, true);
    }
  }
}
