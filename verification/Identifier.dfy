/**
  Identifier quoting (Dialect.QuoteTo in tdengine.go).

  The quoting loop walks over the bytes of a name with two flags and two int8
  counters. It is modelled as a byte machine (Step, Run), implemented by the
  imperative QuoteTo, and proved equal on Quotable names to a description that
  knows nothing of flags or counters: split the name into identifiers (Names)
  and print each between backticks with its own backticks doubled (QuoteNames).
 */
module Identifier {
  import opened Common

  const TICK: char := '`'
  const DOT: char := '.'

  predicate Ordinary(c: char) { c != TICK && c != DOT }

  // ---------------------------------------------------------------- machine

  /** The sum or difference of two int8 values, wrapped around to eight bits. */
  function Wrap8(n: int): int { if n > 127 then n - 256 else if n < -128 then n + 256 else n }

  /** The four variables of the loop; the counters hold int8 values. */
  datatype Machine = Machine(underQuoted: bool, selfQuoted: bool, ticks: int, shift: int)

  const START := Machine(false, false, 0, 0)

  /** Counter arithmetic: the source's int8 when wrap is set, unbounded otherwise. */
  function Arith(n: int, wrap: bool): int { if wrap then Wrap8(n) else n }

  function Repeat(s: string, n: int): string
    decreases n
  {
    if n <= 0 then "" else s + Repeat(s, n - 1)
  }

  /** One byte: the next machine and what is written. */
  function Step(m: Machine, c: char, wrap: bool): (Machine, string) {
    if c == TICK then
      var ticks := Arith(m.ticks + 1, wrap);
      var shift := Arith(m.shift + 1, wrap);
      if ticks == 2 then (m.(ticks := 0, shift := shift), "``") else (m.(ticks := ticks, shift := shift), "")
    else if c == DOT then
      if m.ticks > 0 || !m.selfQuoted then (Machine(false, m.selfQuoted, 0, 0), "`.") else (m, ".")
    else
      var opens := Arith(m.shift - m.ticks, wrap) <= 0 && !m.underQuoted;
      var self := if opens then m.ticks > 0 else m.selfQuoted;
      var pending := if opens && self then Arith(m.ticks - 1, wrap) else m.ticks;
      (Machine(m.underQuoted || opens, self, if pending > 0 then 0 else pending, Arith(m.shift + 1, wrap)),
       (if opens then "`" else "") + Repeat("``", pending) + [c])
  }

  /** What is written once the bytes are used up. */
  function Finish(m: Machine): string {
    if m.ticks > 0 && !m.selfQuoted then "```" else "`"
  }

  function Run(m: Machine, s: string, wrap: bool): string
    decreases |s|
  {
    if s == "" then Finish(m) else
      var (next, out) := Step(m, s[0], wrap);
      out + Run(next, s[1..], wrap)
  }

  function MachineAfter(m: Machine, s: string, wrap: bool): Machine
    decreases |s|
  {
    if s == "" then m else MachineAfter(Step(m, s[0], wrap).0, s[1..], wrap)
  }

  /** The quoted form of a name: what QuoteTo writes. */
  function Quote(s: string): string { Run(START, s, true) }

  /** The backtick counter is 0 or 1 after every byte of every name, Quotable or not. */
  lemma {:induction false} TicksStayBelowTwo(m: Machine, s: string, wrap: bool)
    requires 0 <= m.ticks <= 1
    ensures 0 <= MachineAfter(m, s, wrap).ticks <= 1
    decreases |s|
  {
    if s != "" {
      TicksStayBelowTwo(Step(m, s[0], wrap).0, s[1..], wrap);
    }
  }

  // ------------------------------------------------- names behind the bytes

  /**
    Reads the rest of an identifier after its first ordinary byte and decodes it.
    A pair of backticks is one backtick, and so is a single one before an ordinary
    byte. A single backtick before a dot ends the identifier. At the end of the
    name it closes a self-quoted identifier and counts as a backtick otherwise.
    A dot belongs to a self-quoted identifier and ends any other one.
    The second component is what follows the separating dot, if there is one.
   */
  function Body(self: bool, s: string): (r: (string, Option<string>))
    ensures r.1.Some? ==> |r.1.value| < |s|
  {
    if s == "" then ("", None)
    else if s[0] == TICK then
      if |s| == 1 then (if self then "" else "`", None)
      else if s[1] == DOT then ("", Some(s[2..]))
      else if s[1] == TICK then var r := Body(self, s[2..]); ("`" + r.0, r.1)
      else var r := Body(self, s[1..]); ("`" + r.0, r.1)
    else if s[0] == DOT && !self then ("", Some(s[1..]))
    else var r := Body(self, s[1..]); ([s[0]] + r.0, r.1)
  }

  /** An identifier that starts here quotes itself: one backtick, then an ordinary byte. */
  predicate SelfQuoted(s: string) { |s| >= 2 && s[0] == TICK && Ordinary(s[1]) }

  /** The first identifier of s and what follows its separator. */
  function First(s: string): (r: (string, Option<string>))
    ensures r.1.Some? ==> |r.1.value| < |s|
  {
    if SelfQuoted(s) then Body(true, s[1..]) else Body(false, s)
  }

  /** Every identifier starts with an ordinary byte, bare or after exactly one backtick. */
  predicate Quotable(s: string)
    decreases |s|
  {
    && s != ""
    && (Ordinary(s[0]) || SelfQuoted(s))
    && (First(s).1.Some? ==> Quotable(First(s).1.value))
  }

  /** The identifiers a name stands for, Quotable or not. */
  function Names(s: string): seq<string>
    decreases |s|
  {
    var (name, rest) := First(s);
    [name] + if rest.Some? then Names(rest.value) else []
  }

  /** An identifier that can stand between backticks and be quoted again unchanged. */
  predicate Sound(name: string) { name != "" && Ordinary(name[0]) }

  lemma {:induction false} NamesAreSound(s: string)
    requires Quotable(s)
    ensures Names(s) != [] && forall name <- Names(s) :: Sound(name)
    decreases |s|
  {
    var (name, rest) := First(s);
    assert Sound(name);
    if rest.Some? {
      NamesAreSound(rest.value);
    }
  }

  // ---------------------------------------------------------- canonical form

  function Double(name: string): string {
    if name == "" then "" else (if name[0] == TICK then "``" else [name[0]]) + Double(name[1..])
  }

  /** The rest of a name after a separating dot, if there is one. */
  function Continued(rest: Option<string>): string {
    if rest.None? then "" else "." + rest.value
  }

  function QuoteName(name: string): string { "`" + Double(name) + "`" }

  function QuoteNames(names: seq<string>): string {
    if names == [] then "" else QuoteName(names[0]) + if |names| == 1 then "" else "." + QuoteNames(names[1..])
  }

  /** An ordinary byte inside an identifier is copied, after a pending backtick is doubled. */
  lemma StepInside(m: Machine, c: char, wrap: bool)
    requires m.underQuoted && 0 <= m.ticks <= 1 && Ordinary(c)
    ensures Step(m, c, wrap) ==
            (m.(ticks := 0, shift := Arith(m.shift + 1, wrap)), if m.ticks == 1 then "``" + [c] else [c])
  {
    assert Repeat("``", 0) == "";
    assert Repeat("``", 1) == "``" + Repeat("``", 0) == "``";
    assert "" + Repeat("``", m.ticks) + [c] == if m.ticks == 1 then "``" + [c] else [c];
  }

  /** The first ordinary byte of an identifier opens it, self-quoted after one backtick. */
  lemma StepOpens(m: Machine, c: char, wrap: bool)
    requires !m.underQuoted && 0 <= m.ticks == m.shift <= 1 && Ordinary(c)
    ensures Step(m, c, wrap) == (Machine(true, m.ticks == 1, 0, m.shift + 1), ['`', c])
  {
    assert Repeat("``", 0) == "";
    assert "`" + "" + [c] == ['`', c];
  }

  /** A machine that is about to read an identifier has opened it once it saw its first byte. */
  lemma Opens(m: Machine, s: string, wrap: bool)
    requires !m.underQuoted && m.ticks == 0 && m.shift == 0
    requires s != "" && Ordinary(s[0])
    ensures Run(m, s, wrap) == "`" + Run(Machine(true, false, 0, 0), s, wrap)
  {
    StepOpens(m, s[0], wrap);
    StepInside(Machine(true, false, 0, 0), s[0], wrap);
    var next := Run(Machine(true, false, 0, 1), s[1..], wrap);
    assert ['`', s[0]] + next == "`" + ([s[0]] + next);
  }

  lemma OpensSelfQuoted(m: Machine, s: string, wrap: bool)
    requires !m.underQuoted && m.ticks == 0 && m.shift == 0 && SelfQuoted(s)
    ensures Run(m, s, wrap) == "`" + Run(Machine(true, true, 0, 1), s[1..], wrap)
  {
    var m1 := Machine(false, m.selfQuoted, 1, 1);
    assert Step(m, s[0], wrap) == (m1, "");
    StepOpens(m1, s[1], wrap);
    StepInside(Machine(true, true, 0, 1), s[1], wrap);
    var t := s[1..];
    var next := Run(Machine(true, true, 0, 2), t[1..], wrap);
    assert Run(m1, t, wrap) == ['`', t[0]] + next;
    assert ['`', t[0]] + next == "`" + ([t[0]] + next);
  }

  /** What the machine prints for the identifiers after a separating dot. */
  function RunAfterDot(self: bool, rest: Option<string>, wrap: bool): Option<string> {
    if rest.None? then None else Some(Run(Machine(false, self, 0, 0), rest.value, wrap))
  }

  lemma QuoteNamesStep(name: string, more: seq<string>)
    ensures QuoteNames([name] + more) == QuoteName(name) + if more == [] then "" else "." + QuoteNames(more)
  {
    assert ([name] + more)[1..] == more;
  }

  lemma DoubleStep(c: char, name: string, tail: string)
    ensures Double([c] + name) + "`" + tail == (if c == TICK then "``" else [c]) + (Double(name) + "`" + tail)
  {
    assert ([c] + name)[1..] == name;
  }

  /** A pending backtick before an ordinary byte is doubled; nothing else is affected. */
  lemma LoneTick(m: Machine, s: string, wrap: bool)
    requires m.underQuoted && m.ticks == 0 && |s| >= 2 && s[0] == TICK && Ordinary(s[1])
    ensures Run(m, s, wrap) == "``" + Run(m.(shift := Arith(m.shift + 1, wrap)), s[1..], wrap)
  {
    hide Run;
    var m0 := m.(shift := Arith(m.shift + 1, wrap));
    var m1 := m0.(ticks := 1);
    var t := s[1..];
    RunStep(m, s, wrap);
    RunStep(m0, t, wrap);
    RunStep(m1, t, wrap);
    assert Step(m, s[0], wrap) == (m1, "");
    StepInside(m0, t[0], wrap);
    StepInside(m1, t[0], wrap);
    var rest := Run(Step(m0, t[0], wrap).0, t[1..], wrap);
    assert Run(m1, t, wrap) == ("``" + [t[0]]) + rest == "``" + ([t[0]] + rest);
  }

  lemma RunStep(m: Machine, s: string, wrap: bool)
    requires s != ""
    ensures Run(m, s, wrap) == Step(m, s[0], wrap).1 + Run(Step(m, s[0], wrap).0, s[1..], wrap)
  {
  }

  lemma TickPair(m: Machine, s: string, wrap: bool)
    requires m.ticks == 0 && |s| >= 2 && s[0] == TICK && s[1] == TICK
    ensures Run(m, s, wrap) == "``" + Run(m.(shift := Arith(Arith(m.shift + 1, wrap) + 1, wrap)), s[2..], wrap)
  {
    hide Run;
    var m1 := m.(ticks := 1, shift := Arith(m.shift + 1, wrap));
    var t := s[1..];
    RunStep(m, s, wrap);
    RunStep(m1, t, wrap);
    assert Step(m, s[0], wrap) == (m1, "");
    assert t[1..] == s[2..];
  }

  /** Inside an identifier the machine prints the decoded body, whatever its counters hold. */
  lemma {:induction false} BodyIsPrinted(m: Machine, s: string, wrap: bool)
    requires m.underQuoted && m.ticks == 0
    ensures var (name, rest) := Body(m.selfQuoted, s);
            Run(m, s, wrap) == Double(name) + "`" + Continued(RunAfterDot(m.selfQuoted, rest, wrap))
    decreases |s|
  {
    hide Double;
    if s == "" {
      EmptyBody(m, wrap);
    } else if s == "`" {
      LastTick(m, wrap);
    } else if s[0] == TICK && s[1] == DOT {
      TickBeforeDot(m, s, wrap);
    } else if s[0] == TICK {
      var m0 := m.(shift := Arith(m.shift + 1, wrap));
      var (next, tail) := if s[1] == TICK then (m.(shift := Arith(m0.shift + 1, wrap)), s[2..]) else (m0, s[1..]);
      if s[1] == TICK {
        TickPair(m, s, wrap);
      } else {
        LoneTick(m, s, wrap);
      }
      BodyIsPrinted(next, tail, wrap);
      var (name, rest) := Body(m.selfQuoted, tail);
      DoubleStep(TICK, name, Continued(RunAfterDot(m.selfQuoted, rest, wrap)));
    } else if s[0] == DOT && !m.selfQuoted {
      DotEnds(m, s, wrap);
    } else {
      if s[0] != DOT {
        StepInside(m, s[0], wrap);
      }
      BodyIsPrinted(Step(m, s[0], wrap).0, s[1..], wrap);
      var (name, rest) := Body(m.selfQuoted, s[1..]);
      DoubleStep(s[0], name, Continued(RunAfterDot(m.selfQuoted, rest, wrap)));
    }
  }

  lemma EmptyBody(m: Machine, wrap: bool)
    requires m.ticks == 0
    ensures Run(m, "", wrap) == Double("") + "`"
  {
  }

  lemma DotEnds(m: Machine, s: string, wrap: bool)
    requires m.ticks == 0 && !m.selfQuoted && s != "" && s[0] == DOT
    ensures Run(m, s, wrap) == Double("") + "`" + ("." + Run(Machine(false, false, 0, 0), s[1..], wrap))
  {
    assert Step(m, s[0], wrap) == (Machine(false, m.selfQuoted, 0, 0), "`.");
    assert Double("") + "`" == "`";
    Associates("`", ".", Run(Machine(false, false, 0, 0), s[1..], wrap));
  }

  lemma LastTick(m: Machine, wrap: bool)
    requires m.ticks == 0
    ensures Run(m, "`", wrap) == Double(Body(m.selfQuoted, "`").0) + "`"
  {
    var m1 := m.(ticks := 1, shift := Arith(m.shift + 1, wrap));
    assert Step(m, TICK, wrap) == (m1, "");
    assert Run(m1, "", wrap) == Finish(m1);
    assert Double("`") == "``" + Double("") == "``";
  }

  lemma TickBeforeDot(m: Machine, s: string, wrap: bool)
    requires m.ticks == 0 && |s| >= 2 && s[0] == TICK && s[1] == DOT
    ensures Run(m, s, wrap) == Double("") + "`" + ("." + Run(Machine(false, m.selfQuoted, 0, 0), s[2..], wrap))
  {
    hide Run;
    var m1, t := m.(ticks := 1, shift := Arith(m.shift + 1, wrap)), s[1..];
    RunStep(m, s, wrap);
    RunStep(m1, t, wrap);
    assert Step(m, s[0], wrap) == (m1, "");
    assert Step(m1, t[0], wrap) == (Machine(false, m.selfQuoted, 0, 0), "`.");
    assert t[1..] == s[2..];
    assert Double("") + "`" == "`";
    Associates("`", ".", Run(Machine(false, m.selfQuoted, 0, 0), s[2..], wrap));
  }

  /** One identifier from its start. */
  lemma IdentifierIsPrinted(m: Machine, s: string, wrap: bool)
    requires s != "" && (Ordinary(s[0]) || SelfQuoted(s))
    requires !m.underQuoted && m.ticks == 0 && m.shift == 0
    ensures var (name, rest) := First(s);
            Run(m, s, wrap) == QuoteName(name) + Continued(RunAfterDot(SelfQuoted(s), rest, wrap))
  {
    hide Run, Step, Body, Double;
    var (name, rest) := First(s);
    var tail := Continued(RunAfterDot(SelfQuoted(s), rest, wrap));
    Associates4("`", Double(name), "`", tail);
    if SelfQuoted(s) {
      OpensSelfQuoted(m, s, wrap);
      BodyIsPrinted(Machine(true, true, 0, 1), s[1..], wrap);
    } else {
      Opens(m, s, wrap);
      BodyIsPrinted(Machine(true, false, 0, 0), s, wrap);
    }
  }

  /** From the start of an identifier the machine prints canonical identifiers. */
  lemma {:induction false} RunIsCanonical(m: Machine, s: string, wrap: bool)
    requires Quotable(s) && !m.underQuoted && m.ticks == 0 && m.shift == 0
    ensures Run(m, s, wrap) == QuoteNames(Names(s))
    decreases |s|
  {
    var (name, rest) := First(s);
    IdentifierIsPrinted(m, s, wrap);
    if rest.None? {
      QuoteNamesStep(name, []);
    } else {
      RunIsCanonical(Machine(false, SelfQuoted(s), 0, 0), rest.value, wrap);
      NamesAreSound(rest.value);
      QuoteNamesStep(name, Names(rest.value));
    }
  }

  /** Quotable names come out as their identifiers, each between backticks. */
  lemma QuoteIsCanonical(s: string)
    requires Quotable(s)
    ensures Quote(s) == QuoteNames(Names(s))
  {
    RunIsCanonical(START, s, true);
  }

  /** int8 wrap-around never shows on Quotable names, however long they are. */
  lemma WrapAroundIsHarmless(s: string)
    requires Quotable(s)
    ensures Run(START, s, true) == Run(START, s, false)
  {
    RunIsCanonical(START, s, true);
    RunIsCanonical(START, s, false);
  }

  // --------------------------------------------------------- reference lexer

  /** Reads up to and including the closing backtick; a doubled one is a literal backtick. */
  function LexBody(s: string): Option<(string, string)> {
    if s == "" then None
    else if s[0] != TICK then
      var r := LexBody(s[1..]);
      if r.None? then None else Some(([s[0]] + r.value.0, r.value.1))
    else if |s| >= 2 && s[1] == TICK then
      var r := LexBody(s[2..]);
      if r.None? then None else Some(("`" + r.value.0, r.value.1))
    else Some(("", s[1..]))
  }

  lemma {:induction false} LexBodyShrinks(s: string)
    ensures LexBody(s).Some? ==> |LexBody(s).value.1| < |s|
    decreases |s|
  {
    if s == "" {
    } else if s[0] != TICK {
      LexBodyShrinks(s[1..]);
    } else if |s| >= 2 && s[1] == TICK {
      LexBodyShrinks(s[2..]);
    }
  }

  /** Reads one nonempty quoted identifier. */
  function LexName(s: string): (r: Option<(string, string)>)
    ensures r.Some? ==> |r.value.1| < |s| && r.value.0 != ""
  {
    if s == "" || s[0] != TICK then None else
      LexBodyShrinks(s[1..]);
      var r := LexBody(s[1..]);
      if r.None? || r.value.0 == "" then None else r
  }

  /** Reads quoted identifiers separated by single dots, and returns what follows them. */
  function LexPath(s: string): (r: Option<(seq<string>, string)>)
    ensures r.Some? ==> |r.value.1| < |s| && r.value.0 != []
    decreases |s|
  {
    var first := LexName(s);
    if first.None? then None else
      var (name, rest) := first.value;
      if rest == "" || rest[0] != DOT then Some(([name], rest)) else
        var more := LexPath(rest[1..]);
        if more.None? then None else Some(([name] + more.value.0, more.value.1))
  }

  predicate EndsIdentifier(rest: string) { rest == "" || (rest[0] != TICK && rest[0] != DOT) }

  lemma {:induction false} LexesDoubled(name: string, rest: string)
    requires rest == "" || rest[0] != TICK
    ensures LexBody(Double(name) + "`" + rest) == Some((name, rest))
  {
    var s := Double(name) + "`" + rest;
    if name == "" {
      assert s == "`" + rest;
    } else {
      LexesDoubled(name[1..], rest);
      var tail := Double(name[1..]) + "`" + rest;
      assert s == (if name[0] == TICK then "``" else [name[0]]) + tail;
      assert name == [name[0]] + name[1..];
      if name[0] == TICK {
        assert s[2..] == tail;
      } else {
        assert s[1..] == tail;
      }
    }
  }

  lemma LexesQuotedName(name: string, rest: string)
    requires name != "" && (rest == "" || rest[0] != TICK)
    ensures LexName(QuoteName(name) + rest) == Some((name, rest))
  {
    assert (QuoteName(name) + rest)[1..] == Double(name) + "`" + rest;
    LexesDoubled(name, rest);
  }

  /** The lexer inverts the canonical form and stops exactly at its end. */
  lemma {:induction false} LexesCanonical(names: seq<string>, rest: string)
    requires names != [] && "" !in names && EndsIdentifier(rest)
    ensures LexPath(QuoteNames(names) + rest) == Some((names, rest))
  {
    var name, more := names[0], names[1..];
    assert names == [name] + more && name in names;
    QuoteNamesStep(name, more);
    var after := if more == [] then rest else "." + (QuoteNames(more) + rest);
    assert QuoteNames(names) + rest == QuoteName(name) + after;
    LexesQuotedName(name, after);
    if more != [] {
      LexesCanonical(more, rest);
      assert after[1..] == QuoteNames(more) + rest;
    } else {
      assert names == [name];
    }
  }

  /** Well-formedness: a lexer reads back exactly the identifiers, with nothing left over. */
  lemma QuoteIsWellFormed(s: string, rest: string)
    requires Quotable(s) && EndsIdentifier(rest)
    ensures LexPath(Quote(s) + rest) == Some((Names(s), rest))
  {
    QuoteIsCanonical(s);
    NamesAreSound(s);
    LexesCanonical(Names(s), rest);
  }

  // ------------------------------------------------------------- idempotence

  lemma {:induction false} ReadsDoubled(name: string, tail: Option<string>)
    ensures Body(true, Double(name) + "`" + Continued(tail)) == (name, tail)
  {
    if name == "" {
      ReadsClosing(tail);
    } else {
      ReadsDoubled(name[1..], tail);
      var rest := Double(name[1..]) + "`" + Continued(tail);
      DoubleStep(name[0], name[1..], Continued(tail));
      assert name == [name[0]] + name[1..];
      ReadsCopied(name[0], rest);
    }
  }

  lemma ReadsClosing(tail: Option<string>)
    ensures Body(true, Double("") + "`" + Continued(tail)) == ("", tail)
  {
    var s := "`" + Continued(tail);
    assert Double("") + "`" + Continued(tail) == s;
    if tail.Some? {
      assert s[2..] == tail.value;
    }
  }

  /** One byte of a doubled name, inside a self-quoted identifier. */
  lemma ReadsCopied(c: char, rest: string)
    ensures Body(true, (if c == TICK then "``" else [c]) + rest)
         == ([c] + Body(true, rest).0, Body(true, rest).1)
  {
    if c == TICK {
      assert ("``" + rest)[2..] == rest;
    } else {
      assert ([c] + rest)[1..] == rest;
    }
  }

  lemma {:induction false} CanonicalIsQuotable(names: seq<string>)
    requires names != [] && forall name <- names :: Sound(name)
    ensures Quotable(QuoteNames(names)) && Names(QuoteNames(names)) == names
  {
    var s := QuoteNames(names);
    var tail := if |names| == 1 then None else Some(QuoteNames(names[1..]));
    assert Sound(names[0]);
    assert Double(names[0]) == [names[0][0]] + Double(names[0][1..]);
    assert s == QuoteName(names[0]) + Continued(tail);
    assert s[1..] == Double(names[0]) + "`" + Continued(tail);
    ReadsDoubled(names[0], tail);
    assert SelfQuoted(s) && First(s) == (names[0], tail);
    if tail.None? {
      assert names == [names[0]];
    } else {
      CanonicalIsQuotable(names[1..]);
      assert names == [names[0]] + names[1..];
    }
  }

  /** Quoting twice is quoting once, and a quoted name still names the same identifiers. */
  lemma QuoteIsIdempotent(s: string)
    requires Quotable(s)
    ensures Quote(Quote(s)) == Quote(s)
    ensures Quotable(Quote(s)) && Names(Quote(s)) == Names(s)
  {
    QuoteIsCanonical(s);
    NamesAreSound(s);
    CanonicalIsQuotable(Names(s));
    QuoteIsCanonical(Quote(s));
  }

  /** Two names have the same quoted text if and only if they stand for the same identifiers. */
  lemma SameTextSameNames(s: string, t: string)
    requires Quotable(s) && Quotable(t)
    ensures Quote(s) == Quote(t) <==> Names(s) == Names(t)
  {
    QuoteIsCanonical(s);
    QuoteIsCanonical(t);
    if Quote(s) == Quote(t) {
      QuoteIsWellFormed(s, "");
      QuoteIsWellFormed(t, "");
    }
  }

  // -------------------------------------------------------------- dotted names

  /** An identifier without backtick or dot. */
  predicate Plain(s: string) { s != "" && forall c <- s :: Ordinary(c) }

  function JoinDots(names: seq<string>): string {
    if names == [] then "" else names[0] + if |names| == 1 then "" else "." + JoinDots(names[1..])
  }

  /** A name made of Plain identifiers joined by dots; the printers' usual input. */
  predicate Dotted(s: string) {
    Quotable(s) && TICK !in s
  }

  lemma {:induction false} ReadsPlain(name: string, tail: Option<string>)
    requires forall c <- name :: Ordinary(c)
    ensures Body(false, name + Continued(tail)) == (name, tail)
  {
    var s := name + Continued(tail);
    if name == "" {
      assert s == Continued(tail);
      if tail.Some? {
        assert s[1..] == tail.value;
      }
    } else {
      assert name[0] in name;
      ReadsPlain(name[1..], tail);
      assert s[1..] == name[1..] + Continued(tail);
      assert name == [name[0]] + name[1..];
    }
  }

  /** Joining Plain identifiers with dots loses nothing. */
  lemma {:induction false} JoinedNames(names: seq<string>)
    requires names != [] && forall name <- names :: Plain(name)
    ensures Dotted(JoinDots(names)) && Names(JoinDots(names)) == names
  {
    var s := JoinDots(names);
    var tail := if |names| == 1 then None else Some(JoinDots(names[1..]));
    assert Plain(names[0]);
    assert s == names[0] + Continued(tail);
    ReadsPlain(names[0], tail);
    if tail.None? {
      assert names == [names[0]];
    } else {
      JoinedNames(names[1..]);
      assert names == [names[0]] + names[1..];
    }
  }

  lemma {:induction false} BodyOfDotted(s: string)
    requires TICK !in s
    ensures var (name, rest) := Body(false, s);
            && (forall c <- name :: Ordinary(c))
            && s == name + Continued(rest)
            && (rest.Some? ==> TICK !in rest.value)
  {
    if s != "" && s[0] != DOT {
      assert s[0] in s && TICK !in s[1..];
      BodyOfDotted(s[1..]);
      var (name, rest) := Body(false, s[1..]);
      assert Body(false, s) == ([s[0]] + name, rest);
      Associates([s[0]], name, Continued(rest));
      assert s == [s[0]] + s[1..];
    }
  }

  /** A Dotted name is its identifiers joined by dots. */
  lemma {:induction false} DottedIsJoined(s: string)
    requires Dotted(s)
    ensures JoinDots(Names(s)) == s && forall name <- Names(s) :: Plain(name)
    decreases |s|
  {
    var (name, rest) := First(s);
    BodyOfDotted(s);
    assert Plain(name);
    if rest.Some? {
      DottedIsJoined(rest.value);
      NamesAreSound(rest.value);
      assert Names(s)[1..] == Names(rest.value);
    }
  }

  /** Quoting is injective on Dotted names: the lexed output spells the original name. */
  lemma QuoteIsInvertible(s: string, rest: string)
    requires Dotted(s) && EndsIdentifier(rest)
    ensures LexPath(Quote(s) + rest).Some?
    ensures var (names, left) := LexPath(Quote(s) + rest).value; JoinDots(names) == s && left == rest
  {
    QuoteIsWellFormed(s, rest);
    DottedIsJoined(s);
  }

  lemma QuoteIsInjective(s: string, t: string)
    requires Dotted(s) && Dotted(t) && Quote(s) == Quote(t)
    ensures s == t
  {
    assert Quote(s) + "" == Quote(s) && Quote(t) + "" == Quote(t);
    QuoteIsInvertible(s, "");
    QuoteIsInvertible(t, "");
  }

  // ------------------------------------------- exactly the Quotable names survive

  /** The lexer never yields an empty identifier. */
  lemma {:induction false} LexedNamesAreNonempty(s: string)
    requires LexPath(s).Some?
    ensures "" !in LexPath(s).value.0
    decreases |s|
  {
    var (name, rest) := LexName(s).value;
    if rest != "" && rest[0] == DOT {
      LexedNamesAreNonempty(rest[1..]);
    }
  }

  /** A lexed identifier that is not the expected one, or that ends where no identifier may end. */
  predicate Misread(lexed: Option<(string, string)>, name: string) {
    lexed.None? || lexed.value.0 != name || (lexed.value.1 != "" && lexed.value.1[0] != DOT)
  }

  function LeadingTicks(s: string): nat {
    if s == "" || s[0] != TICK then 0 else 1 + LeadingTicks(s[1..])
  }

  /** No identifier begins with 128 backticks or more; the int8 counter is then never wrapped when it matters. */
  predicate FewTicks(s: string)
    decreases |s|
  {
    LeadingTicks(s) < 128 && (First(s).1.Some? ==> FewTicks(First(s).1.value))
  }

  /**
    An identifier with two leading backticks stays unopened. Its output has an even number
    of backticks in front, so the lexer closes it too early or runs past its end.
   */
  lemma {:induction false} UnopenedIsMisread(m: Machine, t: string, wrap: bool)
    requires !m.underQuoted && m.ticks == 0 && m.shift > 0 && (wrap ==> m.shift + LeadingTicks(t) < 128)
    ensures Misread(LexBody("`" + Run(m, t, wrap)), "`" + Body(false, t).0)
    decreases |t|
  {
    hide Run, Step, LexBody;
    if |t| >= 2 && t[0] == TICK && t[1] == TICK {
      var m2 := m.(shift := m.shift + 2);
      assert t[1..][1..] == t[2..];
      TickPair(m, t, wrap);
      UnopenedIsMisread(m2, t[2..], wrap);
      MisreadPair(Run(m2, t[2..], wrap), "`" + Body(false, t[2..]).0);
    } else {
      UnopenedEnds(m, t, wrap);
    }
  }

  lemma LexesPair(rest: string)
    ensures LexBody("``" + rest).Some? <==> LexBody(rest).Some?
    ensures LexBody(rest).Some? ==> LexBody("``" + rest).value == ("`" + LexBody(rest).value.0, LexBody(rest).value.1)
  {
    assert ("``" + rest)[2..] == rest;
  }

  lemma MisreadPair(rest: string, name: string)
    requires Misread(LexBody("`" + rest), name)
    ensures Misread(LexBody("`" + ("``" + rest)), "`" + name)
  {
    hide LexBody;
    LexesPair("`" + rest);
    assert "`" + ("``" + rest) == "``" + ("`" + rest);
    var lexed := LexBody("`" + rest);
    assert lexed.Some? ==> ("`" + lexed.value.0)[1..] == lexed.value.0;
    assert ("`" + name)[1..] == name;
  }

  /** The cases in which no pair of backticks follows. */
  lemma UnopenedEnds(m: Machine, t: string, wrap: bool)
    requires !m.underQuoted && m.ticks == 0 && m.shift > 0 && (wrap ==> m.shift + LeadingTicks(t) < 128)
    requires |t| < 2 || t[0] != TICK || t[1] != TICK
    ensures Misread(LexBody("`" + Run(m, t, wrap)), "`" + Body(false, t).0)
  {
    hide Run, Step, LexBody;
    if t == "" {
      UnopenedEmpty(m, wrap);
    } else if t == "`" {
      UnopenedLastTick(m, wrap);
    } else if t[0] == TICK && t[1] == DOT {
      UnopenedTickDot(m, t, wrap);
    } else if t[0] == TICK {
      UnopenedLoneTick(m, t, wrap);
    } else if t[0] == DOT {
      UnopenedDot(m, t, wrap);
    } else {
      UnopenedByte(m, t, wrap);
    }
  }

  lemma UnopenedLastTick(m: Machine, wrap: bool)
    requires !m.underQuoted && m.ticks == 0
    ensures LexBody("`" + Run(m, "`", wrap)).None?
  {
    var m1 := m.(ticks := 1, shift := Arith(m.shift + 1, wrap));
    assert Step(m, TICK, wrap) == (m1, "");
    assert Run(m, "`", wrap) == Finish(m1);
    LexesPair("");
    LexesPair("``");
    assert "`" + "`" == "``" + "" && "`" + "```" == "``" + "``";
  }

  lemma UnopenedEmpty(m: Machine, wrap: bool)
    requires m.ticks == 0
    ensures LexBody("`" + Run(m, "", wrap)).None?
  {
    LexesPair("");
    assert "`" + Run(m, "", wrap) == "``" + "";
  }

  lemma UnopenedTickDot(m: Machine, t: string, wrap: bool)
    requires m.ticks == 0 && |t| >= 2 && t[0] == TICK && t[1] == DOT
    ensures Misread(LexBody("`" + Run(m, t, wrap)), "`" + Body(false, t).0)
  {
    hide Run, LexBody;
    TickBeforeDot(m, t, wrap);
    var next := Run(Machine(false, m.selfQuoted, 0, 0), t[2..], wrap);
    LexesDot(next);
    assert "`" + (Double("") + "`" + ("." + next)) == "``" + ("." + next);
  }

  lemma LexesDot(rest: string)
    ensures Misread(LexBody("``" + ("." + rest)), "`")
  {
    LexesPair("." + rest);
    assert ("." + rest)[1..] == rest;
  }

  lemma UnopenedLoneTick(m: Machine, t: string, wrap: bool)
    requires !m.underQuoted && m.ticks == 0 && m.shift > 0 && |t| >= 2 && t[0] == TICK && Ordinary(t[1])
    requires wrap ==> m.shift < 127
    ensures Misread(LexBody("`" + Run(m, t, wrap)), "`" + Body(false, t).0)
  {
    var m1 := m.(ticks := 1, shift := m.shift + 1);
    assert Step(m, t[0], wrap) == (m1, "");
    assert Repeat("``", 1) == "``" + Repeat("``", 0) == "``";
    var (next, out) := Step(m1, t[1], wrap);
    assert out == "``" + [t[1]];
    var (u, rest) := (t[1..], Run(next, t[1..][1..], wrap));
    assert Run(m1, u, wrap) == out + rest;
    Associates("``", [t[1]], rest);
    LexesLoneTick([t[1]] + rest);
  }

  lemma LexesLoneTick(rest: string)
    requires rest != "" && Ordinary(rest[0])
    ensures forall name :: Misread(LexBody("`" + ("``" + rest)), name)
  {
    LexesPair("`" + rest);
    assert "`" + ("``" + rest) == "``" + ("`" + rest);
    assert ("`" + rest)[1..] == rest;
  }

  lemma UnopenedDot(m: Machine, t: string, wrap: bool)
    requires !m.underQuoted && m.ticks == 0 && t != "" && t[0] == DOT
    ensures Misread(LexBody("`" + Run(m, t, wrap)), "`" + Body(false, t).0)
  {
    var (next, out) := Step(m, DOT, wrap);
    var rest := Run(next, t[1..], wrap);
    if m.selfQuoted {
      assert "`" + Run(m, t, wrap) == "`" + ("." + rest);
    } else {
      LexesDot(rest);
      assert "`" + ("`." + rest) == "``" + ("." + rest);
    }
  }

  lemma UnopenedByte(m: Machine, t: string, wrap: bool)
    requires !m.underQuoted && m.ticks == 0 && m.shift > 0 && t != "" && Ordinary(t[0]) && (wrap ==> m.shift < 128)
    ensures Misread(LexBody("`" + Run(m, t, wrap)), "`" + Body(false, t).0)
  {
    assert Repeat("``", 0) == "";
    var (next, out) := Step(m, t[0], wrap);
    assert out == [t[0]];
    assert Run(m, t, wrap)[0] == t[0];
  }

  /** A name that does not begin as a Quotable one is not read back. */
  lemma BadStartIsMisread(m: Machine, s: string, wrap: bool)
    requires !m.underQuoted && m.ticks == 0 && m.shift == 0 && (wrap ==> LeadingTicks(s) < 128)
    requires s == "" || !(Ordinary(s[0]) || SelfQuoted(s))
    ensures LexPath(Run(m, s, wrap)) != Some((Names(s), ""))
  {
    hide Run, Step;
    if LexPath(Run(m, s, wrap)).Some? {
      LexedNamesAreNonempty(Run(m, s, wrap));
    }
    assert First(s).0 == Names(s)[0] && Names(s)[0] in Names(s);
    if s == "`" {
      LastTickIsMisread(m, wrap);
    } else if |s| >= 2 && s[0] == TICK && s[1] == TICK {
      var m2 := m.(shift := 2);
      assert s[1..][1..] == s[2..];
      TickPair(m, s, wrap);
      UnopenedIsMisread(m2, s[2..], wrap);
      assert ("``" + Run(m2, s[2..], wrap))[1..] == "`" + Run(m2, s[2..], wrap);
    }
  }

  lemma LastTickIsMisread(m: Machine, wrap: bool)
    requires m.ticks == 0
    ensures LexPath(Run(m, "`", wrap)).None?
  {
    var m1 := m.(ticks := 1, shift := Arith(m.shift + 1, wrap));
    assert Step(m, TICK, wrap) == (m1, "");
    assert Run(m, "`", wrap) == Finish(m1);
    LexesPair("");
    assert "```"[1..] == "``" + "" && "`"[1..] == "";
  }

  lemma {:induction false} OnlyQuotableIsRead(m: Machine, s: string, wrap: bool)
    requires !m.underQuoted && m.ticks == 0 && m.shift == 0 && (wrap ==> FewTicks(s))
    requires LexPath(Run(m, s, wrap)) == Some((Names(s), ""))
    ensures Quotable(s)
    decreases |s|
  {
    if s == "" || !(Ordinary(s[0]) || SelfQuoted(s)) {
      BadStartIsMisread(m, s, wrap);
    } else {
      var (name, rest) := First(s);
      IdentifierIsPrinted(m, s, wrap);
      if rest.Some? {
        var m2 := Machine(false, SelfQuoted(s), 0, 0);
        var next := Run(m2, rest.value, wrap);
        LexesQuotedName(name, "." + next);
        assert ("." + next)[1..] == next;
        assert Names(s)[1..] == Names(rest.value) && LexPath(Run(m, s, wrap)).value.0[1..] == LexPath(next).value.0;
        OnlyQuotableIsRead(m2, rest.value, wrap);
      }
    }
  }

  /**
    Exactly the Quotable names are read back as their identifiers: among all names with
    unbounded counters, and with int8 ones among those that never begin an identifier
    with 128 backticks.
   */
  lemma QuotableIsExact(s: string, wrap: bool)
    requires wrap ==> FewTicks(s)
    ensures LexPath(Run(START, s, wrap)) == Some((Names(s), "")) <==> Quotable(s)
  {
    if Quotable(s) {
      QuoteIsWellFormed(s, "");
      WrapAroundIsHarmless(s);
      assert Quote(s) + "" == Quote(s);
    } else if LexPath(Run(START, s, wrap)) == Some((Names(s), "")) {
      OnlyQuotableIsRead(START, s, wrap);
    }
  }

  // ------------------------------------------------------------- 128 backticks

  function Ticks(n: nat): string { if n == 0 then "" else "`" + Ticks(n - 1) }

  lemma {:induction false} TicksShift(n: nat)
    ensures Ticks(n) + "`" == "`" + Ticks(n)
  {
    if n > 0 {
      TicksShift(n - 1);
      Associates("`", Ticks(n - 1), "`");
    }
  }

  /** Leading backticks are written in pairs while the counter does not wrap around. */
  lemma {:induction false} PairsAreCopied(shift: int, n: nat, t: string)
    requires 0 <= shift && shift + 2 * n < 128
    ensures Run(Machine(false, false, 0, shift), Ticks(2 * n) + t, true)
         == Ticks(2 * n) + Run(Machine(false, false, 0, shift + 2 * n), t, true)
    decreases n
  {
    if n == 0 {
      assert Ticks(0) + t == t;
    } else {
      hide Run;
      var more := Ticks(2 * (n - 1));
      PairIsTwo(n, t);
      PairIsTwo(n, Run(Machine(false, false, 0, shift + 2 * n), t, true));
      TickPair(Machine(false, false, 0, shift), "``" + (more + t), true);
      PairsAreCopied(shift + 2, n - 1, t);
      assert ("``" + (more + t))[2..] == more + t;
    }
  }

  lemma PairIsTwo(n: nat, t: string)
    requires n > 0
    ensures Ticks(2 * n) + t == "``" + (Ticks(2 * (n - 1)) + t)
  {
    hide Ticks;
    var rest := Ticks(2 * (n - 1));
    TwoMoreTicks(2 * (n - 1));
    Associates("``", rest, t);
  }

  lemma TwoMoreTicks(n: nat)
    ensures Ticks(n + 2) == "``" + Ticks(n) == Ticks(n) + "``"
  {
    assert Ticks(n + 2) == "`" + Ticks(n + 1) && Ticks(n + 1) == "`" + Ticks(n);
    Associates("`", "`", Ticks(n));
    assert "`" + "`" == "``";
    TicksShift(n);
    Associates("`", Ticks(n), "`");
    Associates(Ticks(n), "`", "`");
  }

  lemma DecodedByte()
    ensures Body(false, "" + "a") == ("" + "a", None) && Double("" + "a") == "" + "a"
  {
    assert "" + "a" == "a" && "a" + Continued(None) == "a";
    ReadsPlain("a", None);
    assert Double("a") == "a" + Double("") == "a";
  }

  /** 2n backticks and an ordinary byte stand for one identifier with n backticks. */
  lemma {:induction false} PairsAreDecoded(n: nat)
    ensures Body(false, Ticks(2 * n) + "a") == (Ticks(n) + "a", None) && Double(Ticks(n) + "a") == Ticks(2 * n) + "a"
  {
    if n == 0 {
      DecodedByte();
    } else {
      PairsAreDecoded(n - 1);
      PairIsTwo(n, "a");
      var (s, name) := ("``" + (Ticks(2 * (n - 1)) + "a"), Ticks(n - 1) + "a");
      assert s[2..] == Ticks(2 * (n - 1)) + "a";
      assert Body(false, s) == ("`" + name, None);
      Associates("`", Ticks(n - 1), "a");
      assert ("`" + name)[1..] == name;
    }
  }

  /** After 128 backticks the counter is negative and an ordinary byte opens the identifier. */
  lemma WrappedOpens()
    ensures Run(Machine(false, false, 0, 126), "``a", true) == "``" + "`a`"
  {
    var m := Machine(false, false, 0, -128);
    TickPair(Machine(false, false, 0, 126), "``a", true);
    assert "``a"[2..] == "a";
    assert Repeat("``", 0) == "";
    var (next, out) := Step(m, 'a', true);
    assert out == "`a" && Run(next, "", true) == "`";
    assert Run(m, "a", true) == out + Run(next, "", true);
  }

  /**
    The bound is sharp: 128 backticks and an ordinary byte are not Quotable, yet the wrapped
    counter happens to give them a well-formed output, which unbounded counters do not.
   */
  lemma WrapAroundShowsAt128(n: nat)
    requires n == 64
    ensures var s := Ticks(2 * n) + "a";
            && !Quotable(s)
            && LexPath(Quote(s)) == Some((Names(s), ""))
            && Run(START, s, true) != Run(START, s, false)
  {
    hide Run, Ticks, Double, Body, LexPath;
    var (s, name) := (Ticks(2 * n) + "a", Ticks(n) + "a");
    var most := Ticks(2 * (n - 1));
    PairsAreDecoded(n);
    PairIsTwo(n, "a");
    assert !Quotable(s) && Names(s) == [name];
    TwoMoreTicks(2 * (n - 1));
    Associates(most, "``", "a");
    assert 2 * (n - 1) + 2 == 2 * n && "``" + "a" == "``a";
    assert s == most + "``a";
    PairsAreCopied(0, n - 1, "``a");
    WrappedOpens();
    Associates(most, "``", "`a`");
    OpenedIsCanonical(n);
    assert Quote(s) == QuoteName(name);
    LexesCanonical([name], "");
    assert QuoteNames([name]) + "" == QuoteName(name);
    QuotableIsExact(s, false);
  }

  lemma OpenedIsCanonical(n: nat)
    ensures Ticks(2 * n) + "`a`" == QuoteName(Ticks(n) + "a")
  {
    hide Ticks, Double;
    PairsAreDecoded(n);
    TicksShift(2 * n);
    assert "`a`" == "`" + "a`" && "a`" == "a" + "`";
    Associates(Ticks(2 * n), "`", "a`");
    Associates4("`", Ticks(2 * n), "a", "`");
  }
}
