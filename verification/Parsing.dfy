/**
  The reference parser's tools: they read one item from the front of a text and
  return what follows it. Each comes with the lemma that it inverts its printer.
 */
module Parsing {
  import opened Common
  import opened Identifier
  import opened Builder

  /** Removes a keyword or a punctuation mark from the front. */
  function Eat(word: string, s: string): (r: Option<string>)
    ensures r.Some? ==> |r.value| == |s| - |word|
  {
    if word <= s then Some(s[|word|..]) else None
  }

  lemma Eats(word: string, rest: string)
    ensures Eat(word, word + rest) == Some(rest)
  {
  }

  /** A keyword is absent when one of its letters differs. */
  lemma EatsNot(word: string, s: string, i: nat)
    requires i < |word| && (i < |s| ==> word[i] != s[i])
    ensures Eat(word, s) == None
  {
  }

  // ---------------------------------------------------------------- names

  /** A quoted name, spelled with its identifiers joined by dots. */
  function ReadName(s: string): (r: Option<(string, string)>)
    ensures r.Some? ==> |r.value.1| < |s|
  {
    var path := LexPath(s);
    if path.None? then None else Some((JoinDots(path.value.0), path.value.1))
  }

  lemma ReadsName(name: string, rest: string)
    requires Dotted(name) && EndsIdentifier(rest)
    ensures ReadName(Quote(name) + rest) == Some((name, rest))
  {
    QuoteIsInvertible(name, rest);
  }

  lemma StartsWithTick(name: string, rest: string)
    requires Dotted(name)
    ensures "`" <= Quote(name) + rest
  {
    QuoteIsCanonical(name);
    NamesAreSound(name);
  }

  /** Quoted names separated by commas. */
  function ReadNames(s: string): (r: Option<(seq<string>, string)>)
    ensures r.Some? ==> |r.value.1| < |s|
    decreases |s|
  {
    var first := ReadName(s);
    if first.None? then None else
      var (name, rest) := first.value;
      if rest == "" || rest[0] != ',' then Some(([name], rest)) else
        var more := ReadNames(rest[1..]);
        if more.None? then None else Some(([name] + more.value.0, more.value.1))
  }

  lemma {:induction false} ReadsNames(names: seq<string>, rest: string)
    requires names != [] && (forall name <- names :: Dotted(name))
    requires EndsIdentifier(rest) && (rest != "" ==> rest[0] != ',')
    ensures ReadNames(QuotedList(names) + rest) == Some((names, rest))
  {
    var name, more := names[0], names[1..];
    assert names == [name] + more && name in names;
    if more == [] {
      assert names == [name] && Quote(name) + "" == Quote(name);
      ReadsName(name, rest);
    } else {
      var after := "," + (QuotedList(more) + rest);
      ReadsNames(more, rest);
      ReadsName(name, after);
      Associates4(Quote(name), ",", QuotedList(more), rest);
      assert after[1..] == QuotedList(more) + rest;
      Associates(Quote(name), "," + QuotedList(more), rest);
    }
  }

  // --------------------------------------------------------- placeholders

  function ReadMarks(s: string): (r: Option<(nat, string)>)
    ensures r.Some? ==> |r.value.1| < |s|
    decreases |s|
  {
    if s == "" || s[0] != '?' then None
    else if |s| >= 2 && s[1] == ',' then
      var more := ReadMarks(s[2..]);
      if more.None? then None else Some((more.value.0 + 1, more.value.1))
    else Some((1, s[1..]))
  }

  lemma {:induction false} ReadsMarks(n: nat, rest: string)
    requires n > 0 && rest != "" && rest[0] != ','
    ensures ReadMarks(Placeholders(n) + rest) == Some((n, rest))
  {
    var s := Placeholders(n) + rest;
    if n == 1 {
      assert s[1..] == rest;
    } else {
      ReadsMarks(n - 1, rest);
      assert s == "?," + (Placeholders(n - 1) + rest);
      assert s[2..] == Placeholders(n - 1) + rest;
    }
  }

  /** A parenthesised group of placeholders, possibly empty. */
  function ReadGroup(s: string): (r: Option<(nat, string)>)
    ensures r.Some? ==> |r.value.1| < |s|
  {
    var inside := Eat("(", s);
    if inside.None? then None else
      var marks := ReadMarks(inside.value);
      var (n, after) := if marks.Some? then marks.value else (0, inside.value);
      var rest := Eat(")", after);
      if rest.None? then None else Some((n, rest.value))
  }

  lemma ReadsGroup(n: nat, rest: string)
    ensures ReadGroup("(" + Placeholders(n) + ")" + rest) == Some((n, rest))
  {
    Associates4("(", Placeholders(n), ")", rest);
    Eats("(", Placeholders(n) + (")" + rest));
    Eats(")", rest);
    if n == 0 {
      assert "" + (")" + rest) == ")" + rest;
    } else {
      ReadsMarks(n, ")" + rest);
    }
  }

  /** One placeholder for each of n values, as GORM writes a list. */
  function ReadList(n: nat, s: string): (r: Option<string>)
    ensures r.Some? ==> |r.value| <= |s|
  {
    if n == 0 then Eat("(NULL)", s) else
      var group := ReadGroup(s);
      if group.None? || group.value.0 != n then None else Some(group.value.1)
  }

  lemma ReadsList(n: nat, rest: string)
    ensures ReadList(n, ListText(n) + rest) == Some(rest)
  {
    if n == 0 {
      Eats("(NULL)", rest);
    } else {
      ReadsGroup(n, rest);
    }
  }

  /** Names in parentheses, or none. */
  function ReadParens(s: string): (r: Option<(seq<string>, string)>)
    ensures r.Some? ==> |r.value.1| <= |s|
  {
    var inside := Eat("(", s);
    if inside.None? then Some(([], s)) else
      var names := ReadNames(inside.value);
      if names.None? then None else
        var rest := Eat(")", names.value.1);
        if rest.None? then None else Some((names.value.0, rest.value))
  }

  lemma ReadsParens(names: seq<string>, rest: string)
    requires (forall name <- names :: Dotted(name)) && rest != "" && rest[0] == ' '
    ensures ReadParens(NamesInParens(names) + rest) == Some((names, rest))
  {
    hide Dotted, ReadNames, QuotedList;
    if names == [] {
      assert NamesInParens(names) + rest == rest;
      EatsNot("(", rest, 0);
    } else {
      Associates4("(", QuotedList(names), ")", rest);
      Eats("(", QuotedList(names) + (")" + rest));
      ReadsNames(names, ")" + rest);
      Eats(")", rest);
    }
  }

  lemma ParensEndName(names: seq<string>, rest: string)
    requires EndsIdentifier(rest)
    ensures EndsIdentifier(NamesInParens(names) + rest)
  {
    if names == [] {
      assert NamesInParens(names) + rest == rest;
    }
  }
}
