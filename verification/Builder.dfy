/**
  The statement under construction: GORM's clause.Builder as the dialect drives it,
  with Dialect.QuoteTo and Dialect.BindVarTo (tdengine.go).
 */
module Builder {
  import opened Common
  import opened Identifier
  import Literal

  /** What a program binds to a placeholder. */
  datatype Value =
    | Str(text: string)
    | Bytes(data: string)
    | Scalar(id: int)                           // numbers, booleans, times, nil: never rewritten
    | Raw(sql: string)                          // sqlLiteral, already encoded
    | Valuer(outcome: Result<Value, string>)    // any other driver.Valuer

  datatype BuildError =
    | ConversionFailed(reason: string)
    | DefaultValuesUnsupported
    | InvalidCompression
    | CommentTooLong
    | InvalidTableOption
    | TTLOnlyForTable
    | KeepOnlyForStable
    | SMAUnsupportedSubtable
    | EventConditionsMissing
    | CountTooSmall
    | SlidingExceedsCount

  // ------------------------------------------------------- binding as functions

  /** driver.Valuer: an encoded literal converts to its bytes. */
  function Converted(v: Value): Result<Value, string> {
    match v
    case Valuer(outcome) => outcome
    case Raw(sql) => Ok(Bytes(sql))
    case _ => Ok(v)
  }

  /** What stands in the variable list after v was bound. */
  function Bound(interpolate: bool, v: Value): Value {
    if !interpolate then v else
      var value := if Converted(v).Ok? then Converted(v).value else v;
      match value
      case Str(text) => Raw(Literal.QuoteString(text))
      case Bytes(data) => Raw(Literal.QuoteString(data))
      case _ => v
  }

  function BoundAll(interpolate: bool, row: seq<Value>): (bound: seq<Value>)
    ensures |bound| == |row|
    ensures forall i :: 0 <= i < |row| ==> bound[i] == Bound(interpolate, row[i])
  {
    if row == [] then [] else [Bound(interpolate, row[0])] + BoundAll(interpolate, row[1..])
  }

  function BindErrors(interpolate: bool, row: seq<Value>): seq<BuildError> {
    if row == [] then []
    else (if interpolate && Converted(row[0]).Err? then [ConversionFailed(Converted(row[0]).error)] else [])
         + BindErrors(interpolate, row[1..])
  }

  /**
    What the driver splices into the SQL for a variable in interpolation mode: strings and
    bytes as they are, without quotes, and a Valuer after its conversion.
   */
  function Spliced(v: Value): Option<string> {
    match v
    case Str(text) => Some(text)
    case Bytes(data) => Some(data)
    case Raw(sql) => Some(sql)
    case Valuer(Ok(value)) => Spliced(value)
    case _ => None
  }

  /**
    The value the server reads from a variable. In interpolation mode that is whatever the
    spliced text says, if it is one literal; in prepared mode it is the converted value.
   */
  function ServerReads(interpolate: bool, v: Value): Option<Value> {
    match v
    case Scalar(_) => Some(v)
    case Valuer(Ok(value)) => ServerReads(interpolate, value)
    case Valuer(Err(_)) => None
    case _ =>
      var text := Spliced(v).value;
      if !interpolate then Some(Str(text)) else
        var scanned := Literal.Scan(text);
        if scanned.Some? && scanned.value.1 == "" then Some(Str(scanned.value.0)) else None
  }

  /** What a program means by a value: bytes are text, and a Valuer stands for what it converts to. */
  function Meaning(v: Value): Option<Value> {
    match v
    case Bytes(data) => Some(Str(data))
    case Valuer(Ok(value)) => Meaning(value)
    case Valuer(Err(_)) => None
    case _ => Some(v)
  }

  predicate IsSimple(v: Value) { v.Str? || v.Bytes? || v.Scalar? }

  /**
    A value of a program. Only BindVarTo makes literals, whose type is not exported, and a
    driver.Valuer converts to a simple value.
   */
  predicate OfProgram(v: Value) { IsSimple(v) || (v.Valuer? && (v.outcome.Ok? ==> IsSimple(v.outcome.value))) }

  /** Every value reaches the server as it was meant, in both binding modes. */
  lemma BoundValueArrives(interpolate: bool, v: Value)
    requires OfProgram(v)
    ensures ServerReads(interpolate, Bound(interpolate, v)) == Meaning(v)
    ensures !interpolate ==> Bound(interpolate, v) == v
  {
    hide Literal.QuoteString, Literal.Scan;
    if interpolate && Converted(v).Ok? {
      match Converted(v).value
      case Str(text) => LiteralIsRead(text);
      case Bytes(data) => LiteralIsRead(data);
      case _ =>
    }
  }

  lemma LiteralIsRead(text: string)
    ensures ServerReads(true, Raw(Literal.QuoteString(text))) == Some(Str(text))
  {
    Literal.LiteralIsPrefixCode(text, "");
    assert Literal.QuoteString(text) + "" == Literal.QuoteString(text);
  }

  /**
    No text escapes: what is spliced for a string or bytes, converted or not, is scanned as
    exactly that text wherever it stands, and the SQL after it is left alone.
   */
  lemma SplicedTextIsLiteral(v: Value, text: string, sql: string)
    requires v in {Str(text), Bytes(text), Valuer(Ok(Str(text))), Valuer(Ok(Bytes(text)))}
    ensures Spliced(Bound(true, v)).Some?
    ensures Literal.Scan(Spliced(Bound(true, v)).value + sql) == Some((text, sql))
    ensures Bound(false, v) == v
  {
    Literal.LiteralIsPrefixCode(text, sql);
  }

  /** A failed conversion is recorded in interpolation mode, and leaves the variable as it was. */
  lemma FailedConversionStays(interpolate: bool, v: Value, reason: string)
    requires v == Valuer(Err(reason))
    ensures Bound(interpolate, v) == v && Meaning(v) == None
    ensures BindErrors(interpolate, [v]) == if interpolate then [ConversionFailed(reason)] else []
  {
    BindErrorsOfOne(interpolate, v);
  }

  lemma BoundSplits(interpolate: bool, row: seq<Value>, more: seq<Value>)
    ensures BoundAll(interpolate, row + more) == BoundAll(interpolate, row) + BoundAll(interpolate, more)
  {
  }

  /** n placeholders separated by commas. */
  function Placeholders(n: nat): string {
    if n == 0 then "" else if n == 1 then "?" else "?," + Placeholders(n - 1)
  }

  lemma {:induction false} PlaceholdersGrow(n: nat)
    requires n > 0
    ensures Placeholders(n) + ",?" == Placeholders(n + 1)
  {
    if n == 1 {
      assert Placeholders(2) == "?," + Placeholders(1) == "?,?";
    } else {
      PlaceholdersGrow(n - 1);
      Associates("?,", Placeholders(n - 1), ",?");
    }
  }

  /** A list of values as GORM writes it for one variable. */
  function ListText(n: nat): string {
    if n == 0 then "(NULL)" else "(" + Placeholders(n) + ")"
  }

  lemma BindErrorsOfOne(interpolate: bool, v: Value)
    ensures BindErrors(interpolate, [v]) ==
            if interpolate && Converted(v).Err? then [ConversionFailed(Converted(v).error)] else []
  {
    assert [v][1..] == [];
  }

  lemma {:induction false} BindErrorsSplit(interpolate: bool, row: seq<Value>, more: seq<Value>)
    ensures BindErrors(interpolate, row + more) == BindErrors(interpolate, row) + BindErrors(interpolate, more)
  {
    if row == [] {
      assert row + more == more;
    } else {
      assert (row + more)[1..] == row[1..] + more;
      BindErrorsSplit(interpolate, row[1..], more);
      var head := BindErrors(interpolate, [row[0]]);
      BindErrorsOfOne(interpolate, row[0]);
      Associates(head, BindErrors(interpolate, row[1..]), BindErrors(interpolate, more));
    }
  }

  lemma OneMoreBound(interpolate: bool, row: seq<Value>, i: nat)
    requires i < |row|
    ensures BoundAll(interpolate, row[..i + 1]) == BoundAll(interpolate, row[..i]) + [Bound(interpolate, row[i])]
    ensures BindErrors(interpolate, row[..i + 1])
         == BindErrors(interpolate, row[..i]) + BindErrors(interpolate, [row[i]])
  {
    assert row[..i + 1] == row[..i] + [row[i]];
    BoundSplits(interpolate, row[..i], [row[i]]);
    BindErrorsSplit(interpolate, row[..i], [row[i]]);
  }

  lemma OneMoreVar(text: string, vars: seq<Value>, errors: seq<BuildError>, interpolate: bool, row: seq<Value>, i: nat)
    requires i < |row|
    ensures text + Placeholders(i) + (if i > 0 then "," else "") + "?" == text + Placeholders(i + 1)
    ensures var n := |vars + BoundAll(interpolate, row[..i])|;
            (vars + BoundAll(interpolate, row[..i]) + [row[i]])[n := Bound(interpolate, row[i])]
            == vars + BoundAll(interpolate, row[..i + 1])
    ensures errors + BindErrors(interpolate, row[..i]) + BindErrors(interpolate, [row[i]])
         == errors + BindErrors(interpolate, row[..i + 1])
  {
    OneMoreBound(interpolate, row, i);
    if i > 0 {
      PlaceholdersGrow(i);
      Associates(text + Placeholders(i), ",", "?");
      Associates(text, Placeholders(i), ",?");
    } else {
      assert text + Placeholders(0) + "" + "?" == text + Placeholders(1);
    }
    Associates(errors, BindErrors(interpolate, row[..i]), BindErrors(interpolate, [row[i]]));
    ReplacesLast(vars + BoundAll(interpolate, row[..i]), row[i], Bound(interpolate, row[i]));
    Associates(vars, BoundAll(interpolate, row[..i]), [Bound(interpolate, row[i])]);
  }

  lemma NoVars(text: string, vars: seq<Value>, errors: seq<BuildError>, interpolate: bool)
    ensures text + Placeholders(0) == text
    ensures vars + BoundAll(interpolate, []) == vars && errors + BindErrors(interpolate, []) == errors
  {
  }

  // --------------------------------------------------------------- the builder

  lemma PendingTicks(n: int)
    requires 0 <= n <= 1
    ensures Repeat("``", n) == if n == 0 then "" else "``"
  {
    assert Repeat("``", 0) == "";
    assert "``" + Repeat("``", 0) == "``";
  }

  lemma RunEnds()
    ensures forall m: Machine :: Run(m, "", true) == Finish(m)
  {
  }

  /** One turn of QuoteTo's loop keeps what is written plus what is still to come. */
  lemma Advance(before: string, m: Machine, str: string, i: nat, after: string, next: Machine)
    requires i < |str| && Step(m, str[i], true).0 == next && after == before + Step(m, str[i], true).1
    ensures before + Run(m, str[i..], true) == after + Run(next, str[i + 1..], true)
  {
    assert str[i..][1..] == str[i + 1..];
  }

  /** Quoted names separated by commas. */
  function QuotedList(names: seq<string>): string {
    if names == [] then "" else Quote(names[0]) + if |names| == 1 then "" else "," + QuotedList(names[1..])
  }

  function NamesInParens(names: seq<string>): string { if names == [] then "" else "(" + QuotedList(names) + ")" }

  lemma NameWritten(text: string, names: seq<string>, i: nat)
    requires i < |names|
    ensures text + (if i > 0 then "," else "") + QuotedList(names[i..])
         == text + (if i > 0 then "," else "") + Quote(names[i])
            + (if i + 1 < |names| then "," else "") + QuotedList(names[i + 1..])
  {
    var before := text + if i > 0 then "," else "";
    assert names[i..][1..] == names[i + 1..];
    Associates4(before, Quote(names[i]), if i + 1 < |names| then "," else "", QuotedList(names[i + 1..]));
  }

  lemma NoNames(text: string, names: seq<string>)
    ensures names[0..] == names && text + "" == text && text + "" + QuotedList(names[|names|..]) == text
  {
    assert names[|names|..] == [];
  }

  class Builder {
    var text: string
    var vars: seq<Value>
    var errors: seq<BuildError>
    const interpolate: bool    // the outcome of shouldInterpolate

    constructor (interpolate: bool)
      ensures text == "" && vars == [] && errors == [] && this.interpolate == interpolate
    {
      this.interpolate := interpolate;
      text, vars, errors := "", [], [];
    }

    method WriteString(s: string)
      modifies this`text
      ensures text == old(text) + s
    {
      text := text + s;
    }

    method AddError(error: BuildError)
      modifies this`errors
      ensures errors == old(errors) + [error]
    {
      errors := errors + [error];
    }

    /** Dialect.QuoteTo: one pass over the bytes of the name. */
    method QuoteTo(str: string)
      modifies this`text
      ensures text == old(text) + Quote(str)
    {
      hide Run;
      RunEnds();
      assert str[0..] == str;
      var underQuoted, selfQuoted := false, false;
      var ticks, shift := 0, 0;
      var i := 0;
      while i < |str|
        invariant 0 <= i <= |str| && 0 <= ticks <= 1
        invariant text + Run(Machine(underQuoted, selfQuoted, ticks, shift), str[i..], true) == old(text) + Quote(str)
      {
        var c := str[i];
        ghost var before, m := text, Machine(underQuoted, selfQuoted, ticks, shift);
        if c == TICK {
          ticks := Wrap8(ticks + 1);
          if ticks == 2 {
            text := text + "``";
            ticks := 0;
          }
          shift := Wrap8(shift + 1);
        } else if c == DOT {
          if ticks > 0 || !selfQuoted {
            shift, underQuoted, ticks := 0, false, 0;
            text := text + "`";
          }
          text := text + [c];
        } else {
          underQuoted, selfQuoted, ticks := WriteOrdinary(c, underQuoted, selfQuoted, ticks, shift);
          shift := Wrap8(shift + 1);
        }
        Advance(before, m, str, i, text, Machine(underQuoted, selfQuoted, ticks, shift));
        i := i + 1;
      }
      ghost var m := Machine(underQuoted, selfQuoted, ticks, shift);
      assert str[i..] == "" && text + Finish(m) == old(text) + Quote(str);
      ghost var before := text;
      if ticks > 0 && !selfQuoted {
        text := text + "``";
      }
      text := text + "`";
      assert text == before + Finish(m);
    }

    /** The default case of QuoteTo's switch, up to the shared increment. */
    method WriteOrdinary(c: char, underQuoted: bool, selfQuoted: bool, ticks: int, shift: int)
      returns (underQuoted': bool, selfQuoted': bool, ticks': int)
      requires Ordinary(c) && 0 <= ticks <= 1
      modifies this`text
      ensures var (next, out) := Step(Machine(underQuoted, selfQuoted, ticks, shift), c, true);
              && text == old(text) + out
              && next == Machine(underQuoted', selfQuoted', ticks', Wrap8(shift + 1))
    {
      underQuoted', selfQuoted', ticks' := underQuoted, selfQuoted, ticks;
      if Wrap8(shift - ticks') <= 0 && !underQuoted' {
        text := text + "`";
        underQuoted' := true;
        selfQuoted' := ticks' > 0;
        if selfQuoted' {
          ticks' := Wrap8(ticks' - 1);
        }
      }
      ghost var opening, pending := text, ticks';
      PendingTicks(pending);
      while ticks' > 0
        invariant 0 <= ticks' <= pending <= 1
        invariant text == if ticks' == pending then opening else opening + "``"
      {
        text := text + "``";
        ticks' := Wrap8(ticks' - 1);
      }
      text := text + [c];
    }

    /** clause.Builder.WriteQuoted for a table or column that has a name only. */
    method WriteQuoted(name: string)
      modifies this`text
      ensures text == old(text) + Quote(name)
    {
      QuoteTo(name);
    }

    /** Quoted names separated by commas; every printer of a name list has this loop. */
    method WriteQuotedList(names: seq<string>)
      modifies this`text
      ensures text == old(text) + QuotedList(names)
    {
      hide QuotedList, Quote;
      NoNames(text, names);
      var i := 0;
      while i < |names|
        invariant 0 <= i <= |names|
        invariant text + (if 0 < i < |names| then "," else "") + QuotedList(names[i..]) == old(text) + QuotedList(names)
      {
        ghost var before := text;
        if i > 0 {
          WriteString(",");
        }
        WriteQuoted(names[i]);
        NameWritten(before, names, i);
        i := i + 1;
      }
      NoNames(text, names);
    }

    /** The names of tags in parentheses; nothing without tags. */
    method WriteParens(names: seq<string>)
      modifies this`text
      ensures text == old(text) + NamesInParens(names)
    {
      if names != [] {
        WriteString("(");
        WriteQuotedList(names);
        WriteString(")");
        Associates4(old(text), "(", QuotedList(names), ")");
      }
    }

    /** Dialect.BindVarTo: rewrites the variable that was appended last. */
    method BindVarTo(v: Value)
      requires vars != [] && vars[|vars| - 1] == v
      modifies this
      ensures text == old(text) + "?"
      ensures vars == old(vars)[|old(vars)| - 1 := Bound(interpolate, v)]
      ensures errors == old(errors) + BindErrors(interpolate, [v])
    {
      BindErrorsOfOne(interpolate, v);
      if !interpolate {
        text := text + "?";
        return;
      }
      var value := v;
      if v.Valuer? || v.Raw? {
        var converted := Converted(v);
        if converted.Err? {
          AddError(ConversionFailed(converted.error));
        } else {
          value := converted.value;
        }
      }
      match value {
        case Str(s) => vars := vars[|vars| - 1 := Raw(Literal.QuoteString(s))];
        case Bytes(data) => vars := vars[|vars| - 1 := Raw(Literal.QuoteString(data))];
        case _ =>
      }
      text := text + "?";
    }

    /** GORM's Statement.AddVar for single values: append, bind, separate by commas. */
    method AddVars(row: seq<Value>)
      modifies this
      ensures text == old(text) + Placeholders(|row|)
      ensures vars == old(vars) + BoundAll(interpolate, row)
      ensures errors == old(errors) + BindErrors(interpolate, row)
    {
      hide Placeholders, BoundAll, BindErrors, Bound;
      NoVars(text, vars, errors, interpolate);
      for i := 0 to |row|
        invariant text == old(text) + Placeholders(i)
        invariant vars == old(vars) + BoundAll(interpolate, row[..i])
        invariant errors == old(errors) + BindErrors(interpolate, row[..i])
      {
        text := text + if i > 0 then "," else "";
        vars := vars + [row[i]];
        BindVarTo(row[i]);
        OneMoreVar(old(text), old(vars), old(errors), interpolate, row, i);
        assert row[..i] + [row[i]] == row[..i + 1];
      }
      assert row[..|row|] == row;
    }

    /** GORM's Statement.AddVar for one variable that is a list of values. */
    method AddList(values: seq<Value>)
      modifies this
      ensures text == old(text) + ListText(|values|)
      ensures vars == old(vars) + BoundAll(interpolate, values)
      ensures errors == old(errors) + BindErrors(interpolate, values)
    {
      if values == [] {
        text := text + "(NULL)";
      } else {
        text := text + "(";
        AddVars(values);
        text := text + ")";
        Associates(old(text), "(", Placeholders(|values|));
        Associates(old(text), "(" + Placeholders(|values|), ")");
      }
    }
  }
}
