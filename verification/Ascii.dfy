/**
  The byte-level text functions of Go's strings package that the dialect calls,
  on ASCII: case mapping, trimming, prefix tests, and maximal runs of a class.
 */
module Ascii {
  import opened Common

  predicate IsDigit(c: char) { '0' <= c <= '9' }

  predicate IsLetter(c: char) { 'a' <= c <= 'z' || 'A' <= c <= 'Z' }

  predicate IsSpace(c: char) { c == ' ' || '\t' <= c <= '\r' }

  function UpperByte(c: char): char {
    if 'a' <= c <= 'z' then (c as int - 32) as char else c
  }

  function LowerByte(c: char): char {
    if 'A' <= c <= 'Z' then (c as int + 32) as char else c
  }

  function Upper(s: string): (r: string)
    ensures |r| == |s| && forall i :: 0 <= i < |s| ==> r[i] == UpperByte(s[i])
  {
    if s == "" then "" else [UpperByte(s[0])] + Upper(s[1..])
  }

  function Lower(s: string): (r: string)
    ensures |r| == |s| && forall i :: 0 <= i < |s| ==> r[i] == LowerByte(s[i])
  {
    if s == "" then "" else [LowerByte(s[0])] + Lower(s[1..])
  }

  /** strings.EqualFold. */
  predicate EqualFold(s: string, t: string) { Lower(s) == Lower(t) }

  function TrimLeft(s: string): string {
    if s != "" && IsSpace(s[0]) then TrimLeft(s[1..]) else s
  }

  function TrimRight(s: string): string {
    if s != "" && IsSpace(s[|s| - 1]) then TrimRight(s[..|s| - 1]) else s
  }

  function TrimSpace(s: string): string { TrimRight(TrimLeft(s)) }

  /** The part of s before the first c, or all of s. */
  function Before(s: string, c: char): string {
    if s == "" || s[0] == c then "" else [s[0]] + Before(s[1..], c)
  }

  /** strings.Split on a one-byte separator. */
  function Split(s: string, c: char): seq<string>
    decreases |s|
  {
    var head := Before(s, c);
    BeforeIsShort(s, c);
    if |head| == |s| then [s] else [head] + Split(s[|head| + 1..], c)
  }

  lemma BeforeIsShort(s: string, c: char)
    ensures |Before(s, c)| <= |s|
  {
  }

  lemma Joins(s: string, a: string, b: string)
    requires s != "" && s[1..] == a + b
    ensures s == [s[0]] + a + b
  {
  }

  /** The longest prefix of s whose bytes are all in the class, and the rest. */
  function Span(p: char -> bool, s: string): (r: (string, string))
    ensures |r.1| <= |s| && s == r.0 + r.1
  {
    if s == "" || !p(s[0]) then ("", s) else
      var r := Span(p, s[1..]);
      Joins(s, r.0, r.1);
      ([s[0]] + r.0, r.1)
  }

  lemma {:induction false} SpanStops(p: char -> bool, word: string, rest: string)
    requires (forall c <- word :: p(c)) && (rest == "" || !p(rest[0]))
    ensures Span(p, word + rest) == (word, rest)
  {
    if word == "" {
      assert word + rest == rest;
    } else {
      assert word[0] in word && (word + rest)[1..] == word[1..] + rest;
      SpanStops(p, word[1..], rest);
      assert word == [word[0]] + word[1..];
    }
  }

  /** strings.Contains. */
  predicate Contains(s: string, word: string) {
    word <= s || (s != "" && Contains(s[1..], word))
  }

  lemma {:induction false} NotContained(s: string, word: string)
    requires word != "" && word[0] !in s
    ensures !Contains(s, word)
  {
    if s != "" {
      NotContained(s[1..], word);
    }
  }

  lemma Trimmed(text: string)
    requires |text| > 1 && !IsSpace(text[0]) && !IsSpace(text[|text| - 1])
    ensures TrimSpace(text) == text
  {
  }

  /** Changing the case of a text moves no bracket and no space. */
  lemma UpperKeepsShape(text: string)
    requires text != "" && '(' !in text && !IsSpace(text[0]) && !IsSpace(text[|text| - 1])
    ensures var upper := Upper(text); !IsSpace(upper[0]) && !IsSpace(upper[|upper| - 1]) && '(' !in upper
  {
    forall c <- Upper(text) ensures c != '(' {
      var i :| 0 <= i < |text| && Upper(text)[i] == c;
      assert text[i] in text;
    }
  }

  lemma LettersAreNoSpaces(word: string)
    requires word != "" && forall c <- word :: IsLetter(c)
    ensures '(' !in word && !IsSpace(word[0]) && !IsSpace(word[|word| - 1])
  {
    assert word[0] in word && word[|word| - 1] in word;
  }

  lemma {:induction false} UpperSplits(s: string, t: string)
    ensures Upper(s + t) == Upper(s) + Upper(t)
  {
    assert |Upper(s + t)| == |Upper(s) + Upper(t)|;
    forall i | 0 <= i < |s + t| ensures Upper(s + t)[i] == (Upper(s) + Upper(t))[i] {
    }
  }

  lemma {:induction false} StopsBefore(s: string, t: string, c: char)
    requires c !in s && (t == "" || t[0] == c)
    ensures Before(s + t, c) == s
  {
    if s == "" {
      assert s + t == t;
    } else {
      StopsBefore(s[1..], t, c);
      assert (s + t)[1..] == s[1..] + t;
      assert s == [s[0]] + s[1..];
    }
  }

  lemma EmptyText()
    ensures TrimSpace("") == "" && Upper("") == ""
  {
  }

  // ------------------------------------------------------------ what they mean

  /** Two bytes that differ in case at most. */
  predicate SameLetter(c: char, d: char) {
    c == d || ('a' <= c <= 'z' && d as int == c as int - 32) || ('A' <= c <= 'Z' && d as int == c as int + 32)
  }

  /** strings.EqualFold compares byte by byte, letters up to case. */
  lemma FoldInWords(s: string, t: string)
    ensures EqualFold(s, t) <==> |s| == |t| && forall i :: 0 <= i < |s| ==> SameLetter(s[i], t[i])
  {
    assert forall c: char, d: char :: LowerByte(c) == LowerByte(d) <==> SameLetter(c, d);
    hide LowerByte, SameLetter;
    if EqualFold(s, t) {
      assert |Lower(s)| == |s| && |Lower(t)| == |t|;
      assert forall i :: 0 <= i < |s| ==> Lower(s)[i] == LowerByte(s[i]) && Lower(t)[i] == LowerByte(t[i]);
    }
    if |s| == |t| && forall i :: 0 <= i < |s| ==> SameLetter(s[i], t[i]) {
      assert Lower(s) == Lower(t);
    }
  }

  /** strings.TrimSpace removes spaces at both ends, and all of them. */
  lemma TrimInWords(s: string) returns (before: string, after: string)
    ensures s == before + TrimSpace(s) + after
    ensures (forall c <- before :: IsSpace(c)) && forall c <- after :: IsSpace(c)
    ensures var r := TrimSpace(s); r != "" ==> !IsSpace(r[0]) && !IsSpace(r[|r| - 1])
  {
    hide TrimLeft, TrimRight;
    before := LeftInWords(s);
    after := RightInWords(TrimLeft(s));
    Associates(before, TrimSpace(s), after);
  }

  lemma {:induction false} LeftInWords(s: string) returns (before: string)
    ensures s == before + TrimLeft(s) && forall c <- before :: IsSpace(c)
    ensures TrimLeft(s) != "" ==> !IsSpace(TrimLeft(s)[0])
  {
    before := "";
    if s != "" && IsSpace(s[0]) {
      before := LeftInWords(s[1..]);
      before := [s[0]] + before;
      Associates([s[0]], before[1..], TrimLeft(s));
    }
  }

  lemma {:induction false} RightInWords(s: string) returns (after: string)
    ensures s == TrimRight(s) + after && forall c <- after :: IsSpace(c)
    ensures TrimRight(s) != "" ==> !IsSpace(TrimRight(s)[|TrimRight(s)| - 1]) && TrimRight(s)[0] == s[0]
  {
    after := "";
    if s != "" && IsSpace(s[|s| - 1]) {
      after := RightInWords(s[..|s| - 1]);
      Associates(TrimRight(s), after, [s[|s| - 1]]);
      after := after + [s[|s| - 1]];
    }
  }

  /** Nothing is left of a text exactly when it is all spaces. */
  lemma BlankInWords(s: string)
    ensures TrimSpace(s) == "" <==> forall c <- s :: IsSpace(c)
  {
    hide TrimSpace;
    var before, after := TrimInWords(s);
    var r := TrimSpace(s);
    if r != "" {
      assert s[|before|] == r[0] && s[|before|] in s;
    } else {
      assert s == before + after;
    }
  }

  function JoinOn(c: char, parts: seq<string>): string {
    if parts == [] then "" else parts[0] + if |parts| == 1 then "" else [c] + JoinOn(c, parts[1..])
  }

  /** strings.Split recovers what was joined. */
  lemma {:induction false} SplitJoined(c: char, parts: seq<string>)
    requires parts != [] && forall p <- parts :: c !in p
    ensures Split(JoinOn(c, parts), c) == parts
  {
    var (head, more) := (parts[0], parts[1..]);
    assert head in parts && parts == [head] + more;
    var rest := if more == [] then "" else [c] + JoinOn(c, more);
    var s := JoinOn(c, parts);
    assert s == head + rest;
    StopsBefore(head, rest, c);
    assert Before(s, c) == head;
    if more != [] {
      SplitJoined(c, more);
      assert s[|head| + 1..] == JoinOn(c, more);
      assert Split(s, c) == [head] + Split(JoinOn(c, more), c);
    } else {
      assert s == head && Split(s, c) == [head];
    }
  }
}
