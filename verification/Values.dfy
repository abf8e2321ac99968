/** Batch inserts: buildValues in tdengine.go and a parser for what it writes. */
module Values {
  import opened Common
  import opened Identifier
  import opened Builder
  import opened Parsing

  function RowText(row: seq<Value>): string { "(" + Placeholders(|row|) + ")" }

  /** Rows follow each other with a space, without commas. */
  function RowsText(rows: seq<seq<Value>>): string {
    if rows == [] then "" else RowText(rows[0]) + if |rows| == 1 then "" else " " + RowsText(rows[1..])
  }

  function ValuesText(columns: seq<string>, rows: seq<seq<Value>>): string {
    if columns == [] then "" else "(" + QuotedList(columns) + ") VALUES " + RowsText(rows)
  }

  function Flatten(rows: seq<seq<Value>>): seq<Value> {
    if rows == [] then [] else rows[0] + Flatten(rows[1..])
  }

  // -------------------------------------------------------------- the writer

  method BuildValues(b: Builder, columns: seq<string>, rows: seq<seq<Value>>)
    modifies b
    ensures b.text == old(b.text) + ValuesText(columns, rows)
    ensures b.vars == old(b.vars) + if columns == [] then [] else BoundAll(b.interpolate, Flatten(rows))
    ensures columns == [] ==>
            b.text == old(b.text) && b.vars == old(b.vars) && b.errors == old(b.errors) + [DefaultValuesUnsupported]
    ensures columns != [] ==> b.errors == old(b.errors) + BindErrors(b.interpolate, Flatten(rows))
  {
    if columns == [] {
      b.AddError(DefaultValuesUnsupported);
      return;
    }
    b.WriteString("(");
    b.WriteQuotedList(columns);
    b.WriteString(") VALUES ");
    WriteRows(b, rows);
    Associates5(old(b.text), "(", QuotedList(columns), ") VALUES ", RowsText(rows));
  }

  /** The loop over the rows. */
  method WriteRows(b: Builder, rows: seq<seq<Value>>)
    modifies b
    ensures b.text == old(b.text) + RowsText(rows)
    ensures b.vars == old(b.vars) + BoundAll(b.interpolate, Flatten(rows))
    ensures b.errors == old(b.errors) + BindErrors(b.interpolate, Flatten(rows))
  {
    var i := 0;
    while i < |rows|
      invariant 0 <= i <= |rows|
      invariant b.text + (if 0 < i < |rows| then " " else "") + RowsText(rows[i..]) == old(b.text) + RowsText(rows)
      invariant b.vars + BoundAll(b.interpolate, Flatten(rows[i..]))
          == old(b.vars) + BoundAll(b.interpolate, Flatten(rows))
      invariant b.errors + BindErrors(b.interpolate, Flatten(rows[i..]))
          == old(b.errors) + BindErrors(b.interpolate, Flatten(rows))
    {
      RowWritten(b.text, rows, i);
      RowBound(b.interpolate, b.vars, b.errors, rows, i);
      WriteRow(b, i, rows[i]);
      i := i + 1;
    }
    assert rows[|rows|..] == [];
  }

  /** The loop's body. */
  method WriteRow(b: Builder, index: nat, row: seq<Value>)
    modifies b
    ensures b.text == old(b.text) + (if index > 0 then " " else "") + RowText(row)
    ensures b.vars == old(b.vars) + BoundAll(b.interpolate, row)
    ensures b.errors == old(b.errors) + BindErrors(b.interpolate, row)
  {
    if index > 0 {
      b.WriteString(" ");
    }
    ghost var before := b.text;
    b.WriteString("(");
    b.AddVars(row);
    b.WriteString(")");
    Associates4(before, "(", Placeholders(|row|), ")");
  }

  lemma RowWritten(text: string, rows: seq<seq<Value>>, i: nat)
    requires i < |rows|
    ensures text + (if 0 < i < |rows| then " " else "") + RowsText(rows[i..])
         == text + (if i > 0 then " " else "") + RowText(rows[i])
            + (if 0 < i + 1 < |rows| then " " else "") + RowsText(rows[i + 1..])
  {
    var before := text + if i > 0 then " " else "";
    var sep := if i + 1 < |rows| then " " else "";
    assert rows[i..][1..] == rows[i + 1..];
    assert RowsText(rows[i..]) == RowText(rows[i]) + (sep + RowsText(rows[i + 1..]));
    Associates4(before, RowText(rows[i]), sep, RowsText(rows[i + 1..]));
  }

  lemma RowBound(interpolate: bool, vars: seq<Value>, errors: seq<BuildError>, rows: seq<seq<Value>>, i: nat)
    requires i < |rows|
    ensures vars + BoundAll(interpolate, Flatten(rows[i..]))
         == vars + BoundAll(interpolate, rows[i]) + BoundAll(interpolate, Flatten(rows[i + 1..]))
    ensures errors + BindErrors(interpolate, Flatten(rows[i..]))
         == errors + BindErrors(interpolate, rows[i]) + BindErrors(interpolate, Flatten(rows[i + 1..]))
  {
    assert rows[i..][1..] == rows[i + 1..];
    var more := Flatten(rows[i + 1..]);
    BoundSplits(interpolate, rows[i], more);
    BindErrorsSplit(interpolate, rows[i], more);
    Associates(vars, BoundAll(interpolate, rows[i]), BoundAll(interpolate, more));
    Associates(errors, BindErrors(interpolate, rows[i]), BindErrors(interpolate, more));
  }

  // -------------------------------------------------------------- the reader

  function ReadRows(s: string, vars: seq<Value>): Option<seq<seq<Value>>>
    decreases |s|
  {
    if s == "" then (if vars == [] then Some([]) else None) else
      var group := ReadGroup(s);
      if group.None? || group.value.0 > |vars| then None else
        var (n, rest) := group.value;
        var after := if rest == "" then Some("") else Eat(" ", rest);
        if after.None? || (rest != "" && after.value == "") then None else
          var more := ReadRows(after.value, vars[n..]);
          if more.None? then None else Some([vars[..n]] + more.value)
  }

  /** The columns and the rows of a VALUES clause, given its variables. */
  function ReadValues(s: string, vars: seq<Value>): Option<(seq<string>, seq<seq<Value>>)> {
    var inside := Eat("(", s);
    if inside.None? then None else
      var names := ReadNames(inside.value);
      if names.None? then None else
        var rest := Eat(") VALUES ", names.value.1);
        if rest.None? then None else
          var rows := ReadRows(rest.value, vars);
          if rows.None? then None else Some((names.value.0, rows.value))
  }

  lemma {:induction false} ReadsRows(rows: seq<seq<Value>>)
    ensures ReadRows(RowsText(rows), Flatten(rows)) == Some(rows)
  {
    if rows != [] {
      var more := rows[1..];
      ReadsRows(more);
      assert rows == [rows[0]] + more;
      SplitsBack(rows[0], Flatten(more));
      var rest := if more == [] then "" else " " + RowsText(more);
      ReadsGroup(|rows[0]|, rest);
      if more != [] {
        Eats(" ", RowsText(more));
        assert RowsText(more)[0] == '(';
      }
    }
  }

  function BoundRows(interpolate: bool, rows: seq<seq<Value>>): seq<seq<Value>> {
    if rows == [] then [] else [BoundAll(interpolate, rows[0])] + BoundRows(interpolate, rows[1..])
  }

  lemma {:induction false} FlattenBound(interpolate: bool, rows: seq<seq<Value>>)
    ensures BoundAll(interpolate, Flatten(rows)) == Flatten(BoundRows(interpolate, rows))
    ensures RowsText(BoundRows(interpolate, rows)) == RowsText(rows)
    ensures |BoundRows(interpolate, rows)| == |rows|
  {
    if rows != [] {
      FlattenBound(interpolate, rows[1..]);
      BoundSplits(interpolate, rows[0], Flatten(rows[1..]));
      assert BoundRows(interpolate, rows)[1..] == BoundRows(interpolate, rows[1..]);
    }
  }

  /**
    A batch insert keeps its data: text and variables decode to the columns and to
    every row, in order, with each value bound in its own place.
   */
  lemma ValuesRoundTrip(interpolate: bool, columns: seq<string>, rows: seq<seq<Value>>)
    requires columns != [] && forall name <- columns :: Dotted(name)
    ensures ReadValues(ValuesText(columns, rows), BoundAll(interpolate, Flatten(rows)))
         == Some((columns, BoundRows(interpolate, rows)))
  {
    var bound := BoundRows(interpolate, rows);
    FlattenBound(interpolate, rows);
    ReadsRows(bound);
    Associates4("(", QuotedList(columns), ") VALUES ", RowsText(rows));
    Eats("(", QuotedList(columns) + (") VALUES " + RowsText(rows)));
    ReadsNames(columns, ") VALUES " + RowsText(rows));
    Eats(") VALUES ", RowsText(rows));
  }

  /** What the server reads for a cell, in both binding modes, is the value that was meant. */
  lemma CellArrives(interpolate: bool, rows: seq<seq<Value>>, i: nat, j: nat)
    requires i < |rows| && j < |rows[i]|
    requires OfProgram(rows[i][j])
    ensures |BoundRows(interpolate, rows)| == |rows| && |BoundRows(interpolate, rows)[i]| == |rows[i]|
    ensures ServerReads(interpolate, BoundRows(interpolate, rows)[i][j]) == Meaning(rows[i][j])
    ensures !interpolate ==> BoundRows(interpolate, rows)[i][j] == rows[i][j]
    decreases i
  {
    FlattenBound(interpolate, rows);
    if i == 0 {
      BoundValueArrives(interpolate, rows[0][j]);
    } else {
      CellArrives(interpolate, rows[1..], i - 1, j);
    }
  }
}
