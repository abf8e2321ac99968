/**
  Durations (clause/window/duration.go) and window clauses (clause/window/window.go),
  with a parser for the printed clause.
 */
module Window {
  import opened Common
  import opened Ascii
  import opened Decimal
  import opened Identifier
  import opened Builder
  import opened Parsing

  // ---------------------------------------------------------------- durations

  datatype Duration = Duration(value: uint64, unit: string)

  const UNITS := ["b", "u", "a", "s", "m", "h", "d", "w", "n", "q", "y"]

  datatype DurationError = NotPositive | TooShort | InvalidUnit | InvalidNumber

  // time.Duration: nanoseconds in a signed 64-bit integer.
  type int64 = n: int | -0x8000_0000_0000_0000 <= n < 0x8000_0000_0000_0000

  /** The remainder and quotient are taken on positive numbers only, where Go and Dafny agree. */
  function NewDurationFromTimeDuration(nanoseconds: int64): Result<Duration, DurationError> {
    if nanoseconds <= 0 then Err(NotPositive)
    else if nanoseconds % 1000 == 0 then Ok(Duration(nanoseconds / 1000, "u"))
    else Ok(Duration(nanoseconds, "b"))
  }

  function ParseDuration(s: string): Result<Duration, DurationError> {
    if |s| < 2 then Err(TooShort) else
      var (value, unit) := (s[..|s| - 1], s[|s| - 1..]);
      if unit !in UNITS then Err(InvalidUnit)
      else if ParseUint(value).None? then Err(InvalidNumber)
      else Ok(Duration(ParseUint(value).value, unit))
  }

  function DurationText(d: Duration): string { FormatUint(d.value) + d.unit }

  /** Nanoseconds in a unit; months, quarters and years have no fixed length. */
  function UnitNanoseconds(unit: string): Option<int> {
    if unit == "b" then Some(1)
    else if unit == "u" then Some(1000)
    else if unit == "a" then Some(1_000_000)
    else if unit == "s" then Some(1_000_000_000)
    else if unit == "m" then Some(60_000_000_000)
    else if unit == "h" then Some(3_600_000_000_000)
    else if unit == "d" then Some(86_400_000_000_000)
    else if unit == "w" then Some(604_800_000_000_000)
    else None
  }

  /** Parsing the rendered duration gives it back, for every value and unit. */
  lemma DurationRoundTrip(d: Duration)
    requires d.unit in UNITS
    ensures ParseDuration(DurationText(d)) == Ok(d)
  {
    FormatParses(d.value);
    UintRoundTrip(d.value);
    var s := DurationText(d);
    assert |d.unit| == 1;
    assert s[..|s| - 1] == FormatUint(d.value) && s[|s| - 1..] == d.unit;
  }

  /**
    Parsing yields a duration exactly for its rendered text, with or without leading zeros.
    Everything else is refused, and so are values that overflow 64 bits.
   */
  lemma DurationsAreExact(s: string, d: Duration)
    ensures ParseDuration(s) == Ok(d) <==>
            && d.unit in {"b", "u", "a", "s", "m", "h", "d", "w", "n", "q", "y"}
            && exists k :: s == Zeros(k) + DurationText(d)
  {
    assert d.unit in UNITS <==> d.unit in {"b", "u", "a", "s", "m", "h", "d", "w", "n", "q", "y"};
    if ParseDuration(s) == Ok(d) {
      var digits := s[..|s| - 1];
      var k := DigitsAreFormatted(digits);
      Associates(Zeros(k), FormatUint(d.value), d.unit);
      assert s == digits + d.unit;
    }
    if k :| d.unit in UNITS && s == Zeros(k) + DurationText(d) {
      FormatParses(d.value);
      ZerosAddNothing(k, FormatUint(d.value));
      Associates(Zeros(k), FormatUint(d.value), d.unit);
      SplitsBack(Zeros(k) + FormatUint(d.value), d.unit);
      assert |d.unit| == 1;
    }
  }

  /** The converter keeps the length of time, also through text. */
  lemma ConversionIsExact(nanoseconds: int64)
    ensures NewDurationFromTimeDuration(nanoseconds).Ok? <==> nanoseconds > 0
    ensures nanoseconds > 0 ==>
            var d := NewDurationFromTimeDuration(nanoseconds).value;
            && UnitNanoseconds(d.unit).Some? && d.value * UnitNanoseconds(d.unit).value == nanoseconds
            && (d.unit == "b" ==> nanoseconds % 1000 != 0)
            && ParseDuration(DurationText(d)) == Ok(d)
  {
    if nanoseconds > 0 {
      DurationRoundTrip(NewDurationFromTimeDuration(nanoseconds).value);
    }
  }

  // ------------------------------------------------------------------ windows

  /** A condition of an event window: SQL with placeholders, and their values. */
  datatype Condition = Condition(sql: string, values: seq<Value>)

  datatype WindowType = NoWindow | Session | State | Interval | Event | Count

  datatype Window = Window(
    windowType: WindowType,
    tsColumn: string,
    stateColumn: string,
    duration: Option<Duration>,
    offset: Option<Duration>,
    sliding: Option<Duration>,
    start: Option<Condition>,
    end: Option<Condition>,
    count: uint64,
    countSlide: uint64,
    columns: seq<string>)
  {
    // The setters have value receivers: they return a changed copy.

    function SetCountSliding(sliding: uint64): Window {
      if windowType == Count then this.(countSlide := sliding) else this
    }

    function SetOffset(offset: Duration): Window {
      if windowType == Interval then this.(offset := Some(offset)) else this
    }

    function SetSliding(sliding: Duration): Window {
      if windowType == Interval then this.(sliding := Some(sliding)) else this
    }
  }

  const ZERO := Window(NoWindow, "", "", None, None, None, None, None, 0, 0, [])

  function SetEventWindow(start: Option<Condition>, end: Option<Condition>): Window {
    ZERO.(windowType := Event, start := start, end := end)
  }

  function SetCountWindow(count: uint64, columns: seq<string>): Window {
    ZERO.(windowType := Count, count := count, columns := columns)
  }

  function SetSessionWindow(tsColumn: string, duration: Duration): Window {
    ZERO.(windowType := Session, tsColumn := tsColumn, duration := Some(duration))
  }

  function SetStateWindow(column: string): Window { ZERO.(windowType := State, stateColumn := column) }

  function SetInterval(duration: Duration): Window { ZERO.(windowType := Interval, duration := Some(duration)) }

  datatype Constructor =
    | EventOf(start: Option<Condition>, end: Option<Condition>)
    | CountOf(count: uint64, columns: seq<string>)
    | SessionOf(tsColumn: string, duration: Duration)
    | StateOf(column: string)
    | IntervalOf(duration: Duration)

  datatype Setter = CountSliding(n: uint64) | Offset(d: Duration) | Sliding(d: Duration)

  function Construct(c: Constructor): Window {
    match c
    case EventOf(start, end) => SetEventWindow(start, end)
    case CountOf(count, columns) => SetCountWindow(count, columns)
    case SessionOf(tsColumn, duration) => SetSessionWindow(tsColumn, duration)
    case StateOf(column) => SetStateWindow(column)
    case IntervalOf(duration) => SetInterval(duration)
  }

  function Apply(w: Window, s: Setter): Window {
    match s
    case CountSliding(n) => w.SetCountSliding(n)
    case Offset(d) => w.SetOffset(d)
    case Sliding(d) => w.SetSliding(d)
  }

  /** A window after a chain of setters. */
  function Chain(w: Window, setters: seq<Setter>): Window
    decreases |setters|
  {
    if setters == [] then w else Chain(Apply(w, setters[0]), setters[1..])
  }

  /** The window type a setter is meant for. */
  function MeantFor(s: Setter): WindowType { if s.CountSliding? then Count else Interval }

  function Relevant(t: WindowType, setters: seq<Setter>): seq<Setter> {
    if setters == [] then []
    else (if MeantFor(setters[0]) == t then [setters[0]] else []) + Relevant(t, setters[1..])
  }

  /** Setters for another window type change nothing, wherever they stand in the chain. */
  lemma {:induction false} OtherSettersChangeNothing(w: Window, setters: seq<Setter>)
    ensures Chain(w, setters) == Chain(w, Relevant(w.windowType, setters))
    ensures Chain(w, setters).windowType == w.windowType
    decreases |setters|
  {
    if setters != [] {
      var w1 := Apply(w, setters[0]);
      OtherSettersChangeNothing(w1, setters[1..]);
      var more := Relevant(w.windowType, setters[1..]);
      if MeantFor(setters[0]) == w.windowType {
        assert ([setters[0]] + more)[1..] == more;
      } else {
        assert [] + more == more;
      }
    }
  }

  /** The last offset, sliding and count sliding of a chain. */
  function LastSet(setters: seq<Setter>): (Option<Duration>, Option<Duration>, Option<uint64>) {
    if setters == [] then (None, None, None) else
      var (offset, sliding, count) := LastSet(setters[1..]);
      match setters[0]
      case Offset(d) => (if offset.None? then Some(d) else offset, sliding, count)
      case Sliding(d) => (offset, if sliding.None? then Some(d) else sliding, count)
      case CountSliding(n) => (offset, sliding, if count.None? then Some(n) else count)
  }

  /** Of a chain of setters the last one of each kind counts; everything else stays. */
  lemma {:induction false} LastSetterWins(w: Window, setters: seq<Setter>)
    ensures var (offset, sliding, count) := LastSet(setters);
            Chain(w, setters) ==
              if w.windowType == Interval then
                w.(offset := if offset.Some? then offset else w.offset,
                   sliding := if sliding.Some? then sliding else w.sliding)
              else if w.windowType == Count then w.(countSlide := if count.Some? then count.value else w.countSlide)
              else w
    decreases |setters|
  {
    if setters != [] {
      LastSetterWins(Apply(w, setters[0]), setters[1..]);
    }
  }

  /** Build accepts an event window with both conditions, and a count of two or more that no sliding exceeds. */
  lemma AcceptanceInWords(c: Constructor, setters: seq<Setter>)
    ensures var w := Chain(Construct(c), setters);
            var slide := if LastSet(setters).2.Some? then LastSet(setters).2.value else 0;
            WindowError(w).None? <==>
              match c
              case EventOf(start, end) => start.Some? && end.Some?
              case CountOf(count, _) => count >= 2 && slide <= count
              case _ => true
  {
    LastSetterWins(Construct(c), setters);
  }

  /** A field that belongs to another window type keeps its zero value. */
  predicate Tidy(w: Window) {
    && (w.tsColumn != "" ==> w.windowType == Session)
    && (w.stateColumn != "" ==> w.windowType == State)
    && (w.duration.Some? <==> w.windowType in {Session, Interval})
    && (w.offset.Some? || w.sliding.Some? ==> w.windowType == Interval)
    && (w.start.Some? || w.end.Some? ==> w.windowType == Event)
    && (w.count != 0 || w.countSlide != 0 || w.columns != [] ==> w.windowType == Count)
    && w.windowType != NoWindow
  }

  lemma {:induction false} ChainsAreTidy(w: Window, setters: seq<Setter>)
    requires Tidy(w)
    ensures Tidy(Chain(w, setters))
    decreases |setters|
  {
    if setters != [] {
      ChainsAreTidy(Apply(w, setters[0]), setters[1..]);
    }
  }

  // ------------------------------------------------------------------ printer

  function WindowError(w: Window): Option<BuildError> {
    if w.windowType == Event && (w.start.None? || w.end.None?) then Some(EventConditionsMissing)
    else if w.windowType == Count && w.count < 2 then Some(CountTooSmall)
    else if w.windowType == Count && w.countSlide > w.count then Some(SlidingExceedsCount)
    else None
  }

  function OffsetText(w: Window): string { if w.offset.None? then "" else "," + DurationText(w.offset.value) }

  function SlidingText(w: Window): string {
    if w.sliding.None? then "" else " SLIDING(" + DurationText(w.sliding.value) + ")"
  }

  function CountSlideText(w: Window): string { if w.countSlide == 0 then "" else "," + FormatUint(w.countSlide) }

  /** Every column after a comma. */
  function CommaNames(columns: seq<string>): string {
    if columns == [] then "" else "," + Quote(columns[0]) + CommaNames(columns[1..])
  }

  /** Between the two conditions of an event window. */
  const SEPARATOR := " END WITH "

  /** The constructors of these windows set a duration. */
  predicate Timed(w: Window) { w.windowType in {Session, Interval} ==> w.duration.Some? }

  function WindowText(w: Window): string
    requires Timed(w)
  {
    // a Window that no constructor made prints nothing
    if WindowError(w).Some? then "" else
      match w.windowType
      case NoWindow => ""
      case Session => "SESSION(" + Quote(w.tsColumn) + "," + DurationText(w.duration.value) + ")"
      case State => "STATE_WINDOW(" + Quote(w.stateColumn) + ")"
      case Interval => "INTERVAL(" + DurationText(w.duration.value) + OffsetText(w) + ")" + SlidingText(w)
      case Event => "EVENT_WINDOW START WITH " + w.start.value.sql + SEPARATOR + w.end.value.sql
      case Count => "COUNT_WINDOW(" + FormatUint(w.count) + CountSlideText(w) + CommaNames(w.columns) + ")"
  }

  /** The number of placeholders. */
  function Marks(s: string): nat {
    if s == "" then 0 else Marks(s[..|s| - 1]) + if s[|s| - 1] == '?' then 1 else 0
  }

  /** How many values have a placeholder. */
  function Placed(c: Condition): (n: nat)
    ensures n <= |c.values|
  {
    if Marks(c.sql) < |c.values| then Marks(c.sql) else |c.values|
  }

  /** clause.Expr binds a value for each placeholder; surplus values are appended as they are. */
  function ConditionVars(interpolate: bool, c: Condition): seq<Value> {
    BoundAll(interpolate, c.values[..Placed(c)]) + c.values[Placed(c)..]
  }

  function ConditionErrors(interpolate: bool, c: Condition): seq<BuildError> {
    BindErrors(interpolate, c.values[..Placed(c)])
  }

  predicate HasConditions(w: Window) { w.windowType == Event && w.start.Some? && w.end.Some? }

  function WindowVars(interpolate: bool, w: Window): seq<Value> {
    if !HasConditions(w) then [] else
      ConditionVars(interpolate, w.start.value) + ConditionVars(interpolate, w.end.value)
  }

  function WindowErrors(interpolate: bool, w: Window): seq<BuildError> {
    if WindowError(w).Some? then [WindowError(w).value]
    else if !HasConditions(w) then []
    else ConditionErrors(interpolate, w.start.value) + ConditionErrors(interpolate, w.end.value)
  }

  method WriteDuration(b: Builder, d: Duration)
    modifies b`text
    ensures b.text == old(b.text) + DurationText(d)
  {
    b.WriteString(FormatUint(d.value));
    b.WriteString(d.unit);
    Associates(old(b.text), FormatUint(d.value), d.unit);
  }

  /** Window.Build. */
  method Build(b: Builder, w: Window)
    requires Timed(w)
    modifies b
    ensures b.text == old(b.text) + WindowText(w)
    ensures b.vars == old(b.vars) + WindowVars(b.interpolate, w)
    ensures b.errors == old(b.errors) + WindowErrors(b.interpolate, w)
    ensures WindowError(w).Some? ==>
            b.text == old(b.text) && b.vars == old(b.vars) && b.errors == old(b.errors) + [WindowError(w).value]
  {
    hide ConditionVars, ConditionErrors, FormatUint, Quote, DurationText, OffsetText, SlidingText, CountSlideText,
        CommaNames;
    match w.windowType {
      case NoWindow =>
      case Session =>
        b.WriteString("SESSION(");
        b.WriteQuoted(w.tsColumn);
        b.WriteString(",");
        WriteDuration(b, w.duration.value);
        b.WriteString(")");
        Gathers5(old(b.text), "SESSION(", Quote(w.tsColumn), ",", DurationText(w.duration.value), ")");
      case State =>
        b.WriteString("STATE_WINDOW(");
        b.WriteQuoted(w.stateColumn);
        b.WriteString(")");
        Associates4(old(b.text), "STATE_WINDOW(", Quote(w.stateColumn), ")");
      case Interval =>
        BuildInterval(b, w);
      case Event =>
        if w.start.None? || w.end.None? {
          b.AddError(EventConditionsMissing);
          return;
        }
        BuildEvent(b, w);
      case Count =>
        if w.count < 2 {
          b.AddError(CountTooSmall);
          return;
        }
        if w.countSlide > w.count {
          b.AddError(SlidingExceedsCount);
          return;
        }
        BuildCount(b, w);
    }
  }

  lemma Gathers5(a: string, b: string, c: string, d: string, e: string, f: string)
    ensures a + b + c + d + e + f == a + (b + c + d + e + f)
  {
    Associates5(a + b, c, d, e, f);
    Associates(a, b, c + (d + (e + f)));
    Associates5(b, c, d, e, f);
  }

  method BuildEvent(b: Builder, w: Window)
    requires HasConditions(w)
    modifies b
    ensures b.text == old(b.text) + WindowText(w)
    ensures b.vars == old(b.vars) + WindowVars(b.interpolate, w)
    ensures b.errors == old(b.errors) + WindowErrors(b.interpolate, w)
  {
    hide ConditionVars, ConditionErrors;
    var (start, end) := (w.start.value, w.end.value);
    b.WriteString("EVENT_WINDOW START WITH ");
    BuildCondition(b, start);
    b.WriteString(SEPARATOR);
    BuildCondition(b, end);
    Associates5(old(b.text), "EVENT_WINDOW START WITH ", start.sql, SEPARATOR, end.sql);
    Associates(old(b.vars), ConditionVars(b.interpolate, start), ConditionVars(b.interpolate, end));
    Associates(old(b.errors), ConditionErrors(b.interpolate, start), ConditionErrors(b.interpolate, end));
  }

  /** GORM's clause.Expr with single values: its bytes are copied, and each placeholder binds the next value. */
  method BuildCondition(b: Builder, c: Condition)
    modifies b
    ensures b.text == old(b.text) + c.sql
    ensures b.vars == old(b.vars) + ConditionVars(b.interpolate, c)
    ensures b.errors == old(b.errors) + ConditionErrors(b.interpolate, c)
  {
    hide BoundAll, BindErrors, Bound, Placeholders, Marks;
    var n := 0;
    NothingWritten(old(b.text), old(b.vars), old(b.errors), b.interpolate, c);
    for i := 0 to |c.sql|
      invariant n == Placed(Condition(c.sql[..i], c.values))
      invariant b.text == old(b.text) + c.sql[..i]
      invariant b.vars == old(b.vars) + BoundAll(b.interpolate, c.values[..n])
      invariant b.errors == old(b.errors) + BindErrors(b.interpolate, c.values[..n])
    {
      OneMoreByte(old(b.text), c, i);
      if c.sql[i] == '?' && n < |c.values| {
        OneMoreValue(old(b.vars), old(b.errors), b.interpolate, c.values, n);
        b.AddVars([c.values[n]]);
        n := n + 1;
      } else {
        b.WriteString([c.sql[i]]);
      }
    }
    assert c.sql[..|c.sql|] == c.sql;
    b.vars := b.vars + c.values[n..];
    Associates(old(b.vars), BoundAll(b.interpolate, c.values[..n]), c.values[n..]);
  }

  lemma NothingWritten(text: string, vars: seq<Value>, errors: seq<BuildError>, interpolate: bool, c: Condition)
    ensures Marks("") == 0 && text + c.sql[..0] == text
    ensures vars + BoundAll(interpolate, c.values[..0]) == vars && errors + BindErrors(interpolate, c.values[..0])
        == errors
  {
  }

  lemma OneMoreByte(text: string, c: Condition, i: nat)
    requires i < |c.sql|
    ensures Marks(c.sql[..i + 1]) == Marks(c.sql[..i]) + if c.sql[i] == '?' then 1 else 0
    ensures text + c.sql[..i + 1] == text + c.sql[..i] + [c.sql[i]]
    ensures Placeholders(1) == "?"
  {
    assert c.sql[..i + 1] == c.sql[..i] + [c.sql[i]];
    assert c.sql[..i + 1][..i] == c.sql[..i];
  }

  lemma OneMoreValue(vars: seq<Value>, errors: seq<BuildError>, interpolate: bool, values: seq<Value>, n: nat)
    requires n < |values|
    ensures vars + BoundAll(interpolate, values[..n + 1])
         == vars + BoundAll(interpolate, values[..n]) + BoundAll(interpolate, [values[n]])
    ensures errors + BindErrors(interpolate, values[..n + 1])
         == errors + BindErrors(interpolate, values[..n]) + BindErrors(interpolate, [values[n]])
  {
    OneMoreBound(interpolate, values, n);
    Associates(vars, BoundAll(interpolate, values[..n]), [Bound(interpolate, values[n])]);
    Associates(errors, BindErrors(interpolate, values[..n]), BindErrors(interpolate, [values[n]]));
  }

  method BuildInterval(b: Builder, w: Window)
    requires Timed(w) && w.windowType == Interval
    modifies b`text
    ensures b.text == old(b.text) + WindowText(w)
  {
    hide FormatUint, DurationText, OffsetText, SlidingText;
    b.WriteString("INTERVAL(");
    WriteDuration(b, w.duration.value);
    WriteOffset(b, w);
    b.WriteString(")");
    WriteSliding(b, w);
    Gathers5(old(b.text), "INTERVAL(", DurationText(w.duration.value), OffsetText(w), ")", SlidingText(w));
  }

  method WriteOffset(b: Builder, w: Window)
    modifies b`text
    ensures b.text == old(b.text) + OffsetText(w)
  {
    hide DurationText;
    if w.offset.Some? {
      b.WriteString(",");
      WriteDuration(b, w.offset.value);
      Associates(old(b.text), ",", DurationText(w.offset.value));
    }
  }

  method WriteSliding(b: Builder, w: Window)
    modifies b`text
    ensures b.text == old(b.text) + SlidingText(w)
  {
    hide DurationText;
    if w.sliding.Some? {
      b.WriteString(" SLIDING(");
      WriteDuration(b, w.sliding.value);
      b.WriteString(")");
      Associates4(old(b.text), " SLIDING(", DurationText(w.sliding.value), ")");
    }
  }

  method BuildCount(b: Builder, w: Window)
    requires w.windowType == Count && WindowError(w).None?
    modifies b`text
    ensures b.text == old(b.text) + WindowText(w)
  {
    hide FormatUint, Quote;
    b.WriteString("COUNT_WINDOW(");
    b.WriteString(FormatUint(w.count));
    ghost var before := b.text;
    if w.countSlide > 0 {
      b.WriteString(",");
      b.WriteString(FormatUint(w.countSlide));
      Associates(before, ",", FormatUint(w.countSlide));
    }
    BuildColumnList(b, w.columns);
    b.WriteString(")");
    Gathers5(old(b.text), "COUNT_WINDOW(", FormatUint(w.count), CountSlideText(w), CommaNames(w.columns), ")");
  }

  method BuildColumnList(b: Builder, columns: seq<string>)
    modifies b`text
    ensures b.text == old(b.text) + CommaNames(columns)
  {
    hide Quote;
    var i := 0;
    while i < |columns|
      invariant 0 <= i <= |columns|
      invariant b.text + CommaNames(columns[i..]) == old(b.text) + CommaNames(columns)
    {
      assert columns[i..][1..] == columns[i + 1..];
      Associates4(b.text, ",", Quote(columns[i]), CommaNames(columns[i + 1..]));
      b.WriteString(",");
      b.WriteQuoted(columns[i]);
      i := i + 1;
    }
    assert columns[|columns|..] == [];
  }

  // ------------------------------------------------------------------- parser

  function ReadDuration(s: string): (r: Option<(Duration, string)>)
    ensures r.Some? ==> |r.value.1| < |s|
  {
    var value := ReadUint(s);
    if value.None? || value.value.1 == "" || value.value.1[..1] !in UNITS then None
    else Some((Duration(value.value.0, value.value.1[..1]), value.value.1[1..]))
  }

  lemma ReadsDuration(d: Duration, rest: string)
    requires d.unit in UNITS
    ensures ReadDuration(DurationText(d) + rest) == Some((d, rest))
  {
    hide FormatUint, ReadUint;
    Associates(FormatUint(d.value), d.unit, rest);
    assert |d.unit| == 1 && !IsDigit(d.unit[0]);
    ReadsUint(d.value, d.unit + rest);
    SplitsBack(d.unit, rest);
  }

  function ReadSession(s: string): Option<Window> {
    var name := ReadName(s);
    if name.None? then None else
      var after := Eat(",", name.value.1);
      if after.None? then None else
        var d := ReadDuration(after.value);
        if d.None? || d.value.1 != ")" then None else Some(SetSessionWindow(name.value.0, d.value.0))
  }

  function ReadState(s: string): Option<Window> {
    var name := ReadName(s);
    if name.None? || name.value.1 != ")" then None else Some(SetStateWindow(name.value.0))
  }

  function ReadSlidingPart(w: Window, s: string): Option<Window> {
    if s == "" then Some(w) else
      var d := Eat(" SLIDING(", s);
      if d.None? || ReadDuration(d.value).None? || ReadDuration(d.value).value.1 != ")" then None
      else Some(w.SetSliding(ReadDuration(d.value).value.0))
  }

  function ReadInterval(s: string): Option<Window> {
    var d := ReadDuration(s);
    if d.None? then None else
      var w := SetInterval(d.value.0);
      var comma := Eat(",", d.value.1);
      if comma.None? then
        var close := Eat(")", d.value.1);
        if close.None? then None else ReadSlidingPart(w, close.value)
      else
        var offset := ReadDuration(comma.value);
        if offset.None? then None else
          var close := Eat(")", offset.value.1);
          if close.None? then None else ReadSlidingPart(w.SetOffset(offset.value.0), close.value)
  }

  function ReadCommaNames(s: string): (r: Option<(seq<string>, string)>)
    decreases |s|
  {
    var comma := Eat(",", s);
    if comma.None? then Some(([], s)) else
      var name := ReadName(comma.value);
      if name.None? then None else
        var more := ReadCommaNames(name.value.1);
        if more.None? then None else Some(([name.value.0] + more.value.0, more.value.1))
  }

  /** A number after the comma is the sliding, a quoted name is a column. */
  function ReadCountSlide(s: string): (uint64, string) {
    var comma := Eat(",", s);
    if comma.Some? && ReadUint(comma.value).Some? then ReadUint(comma.value).value else (0, s)
  }

  function ReadCount(s: string): Option<Window> {
    var count := ReadUint(s);
    if count.None? then None else
      var (slide, afterSlide) := ReadCountSlide(count.value.1);
      var names := ReadCommaNames(afterSlide);
      if names.None? || names.value.1 != ")" then None
      else Some(SetCountWindow(count.value.0, names.value.0).SetCountSliding(slide))
  }

  /** What stands before and after the first occurrence of a word. */
  function SplitFirst(word: string, s: string): Option<(string, string)> {
    if word <= s then Some(("", s[|word|..]))
    else if s == "" then None
    else
      var more := SplitFirst(word, s[1..]);
      if more.None? then None else Some(([s[0]] + more.value.0, more.value.1))
  }

  /** The conditions of an event window; each takes as many variables as it has placeholders. */
  function ReadEvent(s: string, vars: seq<Value>): Option<Window> {
    var sides := SplitFirst(SEPARATOR, s);
    if sides.None? then None else
      var (start, end) := sides.value;
      if Marks(start) + Marks(end) != |vars| then None
      else Some(SetEventWindow(Some(Condition(start, vars[..Marks(start)])),
          Some(Condition(end, vars[Marks(start)..]))))
  }

  function Read(s: string, vars: seq<Value>): Option<Window> {
    if Eat("EVENT_WINDOW START WITH ", s).Some? then ReadEvent(Eat("EVENT_WINDOW START WITH ", s).value, vars)
    else if vars != [] then None
    else if Eat("SESSION(", s).Some? then ReadSession(Eat("SESSION(", s).value)
    else if Eat("STATE_WINDOW(", s).Some? then ReadState(Eat("STATE_WINDOW(", s).value)
    else if Eat("INTERVAL(", s).Some? then ReadInterval(Eat("INTERVAL(", s).value)
    else if Eat("COUNT_WINDOW(", s).Some? then ReadCount(Eat("COUNT_WINDOW(", s).value)
    else None
  }

  // --------------------------------------------------------------- round trip

  predicate Known(d: Option<Duration>) { d.Some? ==> d.value.unit in UNITS }

  /** A window that Build accepts, with valid units, and dotted names where the type has columns. */
  predicate Acceptable(w: Window) {
    && WindowError(w).None?
    && Known(w.duration) && Known(w.offset) && Known(w.sliding)
    && (w.windowType == Session ==> Dotted(w.tsColumn))
    && (w.windowType == State ==> Dotted(w.stateColumn))
    && (forall name <- w.columns :: Dotted(name))
    && (HasConditions(w) ==> Matched(w.start.value) && Matched(w.end.value))
  }

  /** One placeholder per value. */
  predicate Matched(c: Condition) { Marks(c.sql) == |c.values| }

  predicate Readable(w: Window) { Tidy(w) && Acceptable(w) }

  lemma SessionRoundTrip(w: Window)
    requires Readable(w) && w.windowType == Session
    ensures Read(WindowText(w), []) == Some(w)
  {
    hide DurationText, ReadDuration, ReadName, Quote, Dotted;
    var (name, d) := (Quote(w.tsColumn), DurationText(w.duration.value));
    EatsNot("EVENT_WINDOW START WITH ", WindowText(w), 0);
    Associates5("SESSION(", name, ",", d, ")");
    Eats("SESSION(", name + ("," + (d + ")")));
    ReadsName(w.tsColumn, "," + (d + ")"));
    Eats(",", d + ")");
    ReadsDuration(w.duration.value, ")");
  }

  lemma StateRoundTrip(w: Window)
    requires Readable(w) && w.windowType == State
    ensures Read(WindowText(w), []) == Some(w)
  {
    hide ReadName, Quote, Dotted;
    var s := WindowText(w);
    Associates("STATE_WINDOW(", Quote(w.stateColumn), ")");
    EatsNot("EVENT_WINDOW START WITH ", s, 0);
    EatsNot("SESSION(", s, 1);
    Eats("STATE_WINDOW(", Quote(w.stateColumn) + ")");
    ReadsName(w.stateColumn, ")");
  }

  lemma ReadsSlidingPart(w: Window, w0: Window)
    requires w.windowType == w0.windowType == Interval && Known(w.sliding) && w0.sliding == None
    ensures ReadSlidingPart(w0, SlidingText(w)) == Some(w0.(sliding := w.sliding))
  {
    hide DurationText, ReadDuration;
    if w.sliding.Some? {
      Associates(" SLIDING(", DurationText(w.sliding.value), ")");
      Eats(" SLIDING(", DurationText(w.sliding.value) + ")");
      ReadsDuration(w.sliding.value, ")");
    }
  }

  lemma ReadsInterval(w: Window)
    requires Readable(w) && w.windowType == Interval
    ensures ReadInterval(DurationText(w.duration.value) + (OffsetText(w) + (")" + SlidingText(w)))) == Some(w)
  {
    hide DurationText, ReadDuration, SlidingText, ReadSlidingPart, Dotted;
    var tail := ")" + SlidingText(w);
    ReadsDuration(w.duration.value, OffsetText(w) + tail);
    Eats(")", SlidingText(w));
    var w0 := SetInterval(w.duration.value);
    if w.offset.None? {
      assert OffsetText(w) + tail == tail;
      EatsNot(",", tail, 0);
      ReadsSlidingPart(w, w0);
    } else {
      Associates(",", DurationText(w.offset.value), tail);
      Eats(",", DurationText(w.offset.value) + tail);
      ReadsDuration(w.offset.value, tail);
      ReadsSlidingPart(w, w0.SetOffset(w.offset.value));
    }
  }

  lemma IntervalRoundTrip(w: Window)
    requires Readable(w) && w.windowType == Interval
    ensures Read(WindowText(w), []) == Some(w)
  {
    hide DurationText, SlidingText, OffsetText, ReadInterval, Dotted;
    var s := WindowText(w);
    var inside := DurationText(w.duration.value) + (OffsetText(w) + (")" + SlidingText(w)));
    Associates5("INTERVAL(", DurationText(w.duration.value), OffsetText(w), ")", SlidingText(w));
    EatsNot("EVENT_WINDOW START WITH ", s, 0);
    EatsNot("SESSION(", s, 0);
    EatsNot("STATE_WINDOW(", s, 0);
    Eats("INTERVAL(", inside);
    ReadsInterval(w);
  }

  lemma {:induction false} ReadsCommaNames(columns: seq<string>)
    requires forall name <- columns :: Dotted(name)
    ensures ReadCommaNames(CommaNames(columns) + ")") == Some((columns, ")"))
  {
    hide ReadName, Quote, Dotted;
    if columns == [] {
      assert CommaNames(columns) + ")" == ")";
      EatsNot(",", ")", 0);
    } else {
      var more := columns[1..];
      assert columns == [columns[0]] + more;
      var tail := CommaNames(more) + ")";
      ReadsCommaNames(more);
      Associates4(",", Quote(columns[0]), CommaNames(more), ")");
      Eats(",", Quote(columns[0]) + tail);
      ReadsName(columns[0], tail);
    }
  }

  lemma ReadsCountSlide(w: Window)
    requires Readable(w) && w.windowType == Count
    ensures var tail := CommaNames(w.columns) + ")"; ReadCountSlide(CountSlideText(w) + tail) == (w.countSlide, tail)
  {
    hide Dotted;
    var tail := CommaNames(w.columns) + ")";
    if w.countSlide != 0 {
      Associates(",", FormatUint(w.countSlide), tail);
      Eats(",", FormatUint(w.countSlide) + tail);
      ReadsUint(w.countSlide, tail);
    } else {
      assert CountSlideText(w) + tail == tail;
      if w.columns == [] {
        EatsNot(",", tail, 0);
      } else {
        NamesAreNotNumbers(w.columns);
      }
    }
  }

  lemma NamesAreNotNumbers(columns: seq<string>)
    requires columns != [] && forall name <- columns :: Dotted(name)
    ensures Eat(",", CommaNames(columns) + ")").Some? && ReadUint(Eat(",", CommaNames(columns) + ")").value).None?
  {
    hide Dotted, CommaNames;
    var rest := CommaNames(columns[1..]) + ")";
    assert CommaNames(columns) + ")" == "," + (Quote(columns[0]) + rest) by {
      CommaNamesStep(columns);
    }
    Eats(",", Quote(columns[0]) + rest);
    StartsWithTick(columns[0], rest);
    SpanStops(IsDigit, "", Quote(columns[0]) + rest);
    assert "" + (Quote(columns[0]) + rest) == Quote(columns[0]) + rest;
  }

  lemma CommaNamesStep(columns: seq<string>)
    requires columns != []
    ensures CommaNames(columns) + ")" == "," + (Quote(columns[0]) + (CommaNames(columns[1..]) + ")"))
  {
    Associates4(",", Quote(columns[0]), CommaNames(columns[1..]), ")");
  }

  lemma CountRoundTrip(w: Window)
    requires Readable(w) && w.windowType == Count
    ensures Read(WindowText(w), []) == Some(w)
  {
    hide FormatUint, CommaNames, CountSlideText, ReadUint, ReadCountSlide, ReadCommaNames, Dotted;
    var s := WindowText(w);
    var tail := CommaNames(w.columns) + ")";
    var inside := FormatUint(w.count) + (CountSlideText(w) + tail);
    Associates5("COUNT_WINDOW(", FormatUint(w.count), CountSlideText(w), CommaNames(w.columns), ")");
    EatsNot("EVENT_WINDOW START WITH ", s, 0);
    EatsNot("SESSION(", s, 0);
    EatsNot("STATE_WINDOW(", s, 0);
    EatsNot("INTERVAL(", s, 0);
    Eats("COUNT_WINDOW(", inside);
    NoDigitFollows(w);
    ReadsUint(w.count, CountSlideText(w) + tail);
    ReadsCountSlide(w);
    ReadsCommaNames(w.columns);
  }

  lemma NoDigitFollows(w: Window)
    ensures var tail := CountSlideText(w) + (CommaNames(w.columns) + ")"); tail != "" && !IsDigit(tail[0])
  {
    hide FormatUint, Quote;
  }

  lemma {:induction false} ContainedIsShorter(s: string, word: string)
    ensures Contains(s, word) ==> |word| <= |s|
  {
    if s != "" {
      ContainedIsShorter(s[1..], word);
    }
  }

  /**
    The separator is found where it was written, or earlier if the text before it already
    contains one or ends like the beginning of one.
   */
  lemma {:induction false} SplitsThere(a: string, b: string)
    ensures var (s, found) := (a + SEPARATOR + b, Contains(a + " END WITH", SEPARATOR));
            && SplitFirst(SEPARATOR, s).Some?
            && (!found ==> SplitFirst(SEPARATOR, s).value == (a, b))
            && (found ==> |SplitFirst(SEPARATOR, s).value.0| < |a|)
  {
    hide SplitFirst, Contains;
    if a == "" {
      SplitsAtOnce(b);
    } else {
      SplitsThere(a[1..], b);
      SplitsLater(a, b);
    }
  }

  lemma SplitsAtOnce(b: string)
    ensures SplitFirst(SEPARATOR, "" + SEPARATOR + b) == Some(("", b)) && !Contains("" + " END WITH", SEPARATOR)
  {
    ContainedIsShorter("" + " END WITH", SEPARATOR);
    assert "" + SEPARATOR + b == SEPARATOR + b;
    SplitsBack(SEPARATOR, b);
  }

  /** One byte before the separator: it begins here, or the search goes on behind the byte. */
  lemma SplitsLater(a: string, b: string)
    requires a != "" && SplitFirst(SEPARATOR, a[1..] + SEPARATOR + b).Some?
    ensures var (s, t) := (a + SEPARATOR + b, a + " END WITH");
            var more := SplitFirst(SEPARATOR, a[1..] + SEPARATOR + b).value;
            if SEPARATOR <= t then SplitFirst(SEPARATOR, s).Some? && SplitFirst(SEPARATOR, s).value.0 == ""
            else SplitFirst(SEPARATOR, s) == Some(([a[0]] + more.0, more.1))
    ensures Contains(a + " END WITH", SEPARATOR)
        <==> SEPARATOR <= a + " END WITH" || Contains(a[1..] + " END WITH", SEPARATOR)
    ensures a == [a[0]] + a[1..]
  {
    var (s, t) := (a + SEPARATOR + b, a + " END WITH");
    BehindFirst(a, SEPARATOR, b);
    assert t[1..] == a[1..] + " END WITH";
    assert s[..|t|] == t;
    assert SEPARATOR <= s <==> SEPARATOR <= t;
  }

  lemma BehindFirst(a: string, word: string, b: string)
    requires a != ""
    ensures (a + word + b)[1..] == a[1..] + word + b
  {
  }

  /** The window with the values that reach the server. */
  function BoundWindow(interpolate: bool, w: Window): Window {
    w.(start := BoundCondition(interpolate, w.start), end := BoundCondition(interpolate, w.end))
  }

  function BoundCondition(interpolate: bool, c: Option<Condition>): Option<Condition> {
    if c.None? then None else Some(c.value.(values := BoundAll(interpolate, c.value.values)))
  }

  /** The start condition neither contains the separator nor ends like the beginning of one. */
  predicate Separable(w: Window) { HasConditions(w) ==> !Contains(w.start.value.sql + " END WITH", SEPARATOR) }

  lemma MatchedVars(interpolate: bool, c: Condition)
    requires Matched(c)
    ensures ConditionVars(interpolate, c) == BoundAll(interpolate, c.values)
  {
    assert c.values[..Placed(c)] == c.values && c.values[Placed(c)..] == [];
  }

  lemma EventRoundTrip(interpolate: bool, w: Window)
    requires Readable(w) && w.windowType == Event
    ensures Read(WindowText(w), WindowVars(interpolate, w)) == Some(BoundWindow(interpolate, w)) <==> Separable(w)
  {
    hide SplitFirst, Contains, ConditionVars, BoundAll;
    var (start, end) := (w.start.value, w.end.value);
    Associates4("EVENT_WINDOW START WITH ", start.sql, SEPARATOR, end.sql);
    Eats("EVENT_WINDOW START WITH ", start.sql + SEPARATOR + end.sql);
    SplitsThere(start.sql, end.sql);
    MatchedVars(interpolate, start);
    MatchedVars(interpolate, end);
    SplitsBack(BoundAll(interpolate, start.values), BoundAll(interpolate, end.values));
  }

  /**
    Window clauses round trip: whatever constructor and whatever chain of setters made the
    window, the parser recovers it from the printed text and the variables. For an event
    window it does if and only if the conditions can be told apart.
   */
  lemma WindowRoundTrip(interpolate: bool, c: Constructor, setters: seq<Setter>)
    requires Acceptable(Chain(Construct(c), setters))
    ensures var w := Chain(Construct(c), setters);
            Timed(w) &&
            (Read(WindowText(w), WindowVars(interpolate, w)) == Some(BoundWindow(interpolate, w)) <==> Separable(w))
  {
    hide Read, WindowText, Dotted, Contains;
    var w := Chain(Construct(c), setters);
    OtherSettersChangeNothing(Construct(c), setters);
    ChainsAreTidy(Construct(c), setters);
    match c
    case EventOf(_, _) => EventRoundTrip(interpolate, w);
    case CountOf(_, _) => CountRoundTrip(w);
    case SessionOf(_, _) => SessionRoundTrip(w);
    case StateOf(_) => StateRoundTrip(w);
    case IntervalOf(_) => IntervalRoundTrip(w);
  }
}
