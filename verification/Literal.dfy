/**
  String literals (quoteString in tdengine.go): the text between single quotes,
  with backslash, quote, newline, carriage return and tab escaped, and a scanner
  that reads one literal from the front of a text.
 */
module Literal {
  import opened Common

  /** The replacer works byte by byte, because each of its patterns is one byte. */
  function EscapeByte(c: char): string {
    match c
    case '\\' => "\\\\"
    case '\'' => "\\'"
    case '\n' => "\\n"
    case '\r' => "\\r"
    case '\t' => "\\t"
    case _ => [c]
  }

  function Escape(s: string): string {
    if s == "" then "" else EscapeByte(s[0]) + Escape(s[1..])
  }

  function QuoteString(s: string): string { "'" + Escape(s) + "'" }

  function Unescape(c: char): Option<char> {
    match c
    case '\\' => Some('\\')
    case '\'' => Some('\'')
    case 'n' => Some('\n')
    case 'r' => Some('\r')
    case 't' => Some('\t')
    case _ => None
  }

  /** Reads up to and including the closing quote. */
  function ScanBody(s: string): Option<(string, string)> {
    if s == "" then None
    else if s[0] == '\'' then Some(("", s[1..]))
    else if s[0] == '\\' then
      if |s| == 1 || Unescape(s[1]).None? then None else
        var r := ScanBody(s[2..]);
        if r.None? then None else Some(([Unescape(s[1]).value] + r.value.0, r.value.1))
    else
      var r := ScanBody(s[1..]);
      if r.None? then None else Some(([s[0]] + r.value.0, r.value.1))
  }

  /** Reads one literal: its text and whatever follows it. */
  function Scan(s: string): Option<(string, string)> {
    if s == "" || s[0] != '\'' then None else ScanBody(s[1..])
  }

  lemma {:induction false} ScansEscaped(s: string, t: string)
    ensures ScanBody(Escape(s) + "'" + t) == Some((s, t))
  {
    hide EscapeByte;
    if s == "" {
      assert Escape(s) + "'" + t == "'" + t;
    } else {
      hide ScanBody;
      ScansEscaped(s[1..], t);
      ScansByte(s[0], Escape(s[1..]) + "'" + t);
      Associates(EscapeByte(s[0]), Escape(s[1..]), "'");
      Associates(EscapeByte(s[0]), Escape(s[1..]) + "'", t);
      assert s == [s[0]] + s[1..];
    }
  }

  lemma ScansByte(c: char, rest: string)
    requires ScanBody(rest).Some?
    ensures ScanBody(EscapeByte(c) + rest) == Some(([c] + ScanBody(rest).value.0, ScanBody(rest).value.1))
  {
    var text := EscapeByte(c) + rest;
    if |EscapeByte(c)| == 2 {
      assert text[2..] == rest && Unescape(text[1]) == Some(c);
    } else {
      assert text[1..] == rest;
    }
  }

  /** Prefix code: scanning a literal followed by anything yields its text and leaves the rest. */
  lemma LiteralIsPrefixCode(s: string, t: string)
    ensures Scan(QuoteString(s) + t) == Some((s, t))
  {
    ScansEscaped(s, t);
    assert (QuoteString(s) + t)[1..] == Escape(s) + "'" + t;
  }

  /** No literal is the beginning of another one, so the encoding is injective. */
  lemma LiteralIsInjective(s: string, s': string)
    requires QuoteString(s) <= QuoteString(s')
    ensures s == s'
  {
    var t := QuoteString(s')[|QuoteString(s)|..];
    assert QuoteString(s') + "" == QuoteString(s) + t;
    LiteralIsPrefixCode(s, t);
    LiteralIsPrefixCode(s', "");
  }

  function QuoteAll(texts: seq<string>): string {
    if texts == [] then "" else QuoteString(texts[0]) + QuoteAll(texts[1..])
  }

  /** A run of literals written without separators has one reading only. */
  lemma {:induction false} RunOfLiteralsIsInjective(texts: seq<string>, texts': seq<string>)
    requires QuoteAll(texts) == QuoteAll(texts')
    ensures texts == texts'
  {
    if texts == [] || texts' == [] {
    } else {
      LiteralIsPrefixCode(texts[0], QuoteAll(texts[1..]));
      LiteralIsPrefixCode(texts'[0], QuoteAll(texts'[1..]));
      RunOfLiteralsIsInjective(texts[1..], texts'[1..]);
      assert texts == [texts[0]] + texts[1..] && texts' == [texts'[0]] + texts'[1..];
    }
  }

  /** No raw line break, carriage return or tab survives in a literal. */
  lemma {:induction false} LiteralHasNoRawControls(s: string)
    ensures '\n' !in QuoteString(s) && '\r' !in QuoteString(s) && '\t' !in QuoteString(s)
    ensures '\n' !in Escape(s) && '\r' !in Escape(s) && '\t' !in Escape(s)
  {
    if s != "" {
      LiteralHasNoRawControls(s[1..]);
    }
  }
}
