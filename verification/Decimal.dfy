/** Decimal text of unsigned integers: strconv.FormatUint and strconv.ParseUint in base 10. */
module Decimal {
  import opened Common
  import opened Ascii

  function Digit(n: nat): char
    requires n < 10
  {
    ('0' as int + n) as char
  }

  function FormatUint(n: nat): string {
    if n < 10 then [Digit(n)] else FormatUint(n / 10) + [Digit(n % 10)]
  }

  predicate Digits(s: string) { forall c <- s :: IsDigit(c) }

  function ValueOf(s: string): nat
    requires Digits(s)
  {
    if s == "" then 0 else
      assert s[|s| - 1] in s;
      10 * ValueOf(s[..|s| - 1]) + (s[|s| - 1] as int - '0' as int)
  }

  /** Digits only, at least one, and a value that fits in 64 bits. */
  function ParseUint(s: string): Option<uint64> {
    if s != "" && Digits(s) && ValueOf(s) < 0x1_0000_0000_0000_0000 then Some(ValueOf(s)) else None
  }

  lemma {:induction false} FormatParses(n: nat)
    ensures FormatUint(n) != "" && Digits(FormatUint(n)) && ValueOf(FormatUint(n)) == n
  {
    var s := FormatUint(n);
    if n < 10 {
      assert s[..0] == "";
    } else {
      FormatParses(n / 10);
      assert s[..|s| - 1] == FormatUint(n / 10);
    }
  }

  function Zeros(k: nat): (s: string)
    ensures |s| == k && forall c <- s :: c == '0'
  {
    if k == 0 then "" else "0" + Zeros(k - 1)
  }

  /** Digits are leading zeros and the decimal text of their value. */
  lemma {:induction false} DigitsAreFormatted(s: string) returns (k: nat)
    requires s != "" && Digits(s)
    ensures s == Zeros(k) + FormatUint(ValueOf(s))
  {
    var (init, last) := (s[..|s| - 1], s[|s| - 1]);
    assert last in s && s == init + [last];
    if init == "" {
      k := 0;
      assert ValueOf("") == 0;
    } else {
      hide FormatUint;
      k := DigitsAreFormatted(init);
      k := OneMoreDigit(k, ValueOf(init), last as int - '0' as int);
    }
  }

  lemma {:induction false} ZerosGrow(k: nat)
    ensures Zeros(k) + "0" == Zeros(k + 1)
  {
    if k > 0 {
      ZerosGrow(k - 1);
      Associates("0", Zeros(k - 1), "0");
    }
  }

  /** One more digit after zeros and the text of v. */
  lemma OneMoreDigit(k: nat, v: nat, last: nat) returns (k': nat)
    requires last < 10
    ensures Zeros(k) + FormatUint(v) + [Digit(last)] == Zeros(k') + FormatUint(10 * v + last)
  {
    if v == 0 {
      k' := k + 1;
      ZerosGrow(k);
    } else {
      k' := k;
      Associates(Zeros(k), FormatUint(v), [Digit(last)]);
    }
  }

  /** Leading zeros change no value. */
  lemma {:induction false} ZerosAddNothing(k: nat, digits: string)
    requires Digits(digits)
    ensures Digits(Zeros(k) + digits) && ValueOf(Zeros(k) + digits) == ValueOf(digits)
    decreases k + |digits|
  {
    var s := Zeros(k) + digits;
    if digits != "" {
      var init := digits[..|digits| - 1];
      ZerosAddNothing(k, init);
      assert s[..|s| - 1] == Zeros(k) + init;
    } else if k > 0 {
      ZerosGrow(k - 1);
      ZerosAddNothing(k - 1, "");
      assert s == Zeros(k - 1) + "0" && s[..|s| - 1] == Zeros(k - 1) + "";
    }
  }

  lemma UintRoundTrip(n: uint64)
    ensures ParseUint(FormatUint(n)) == Some(n)
  {
    FormatParses(n);
  }

  /** A decimal number at the front of a text. */
  function ReadUint(s: string): (r: Option<(uint64, string)>)
    ensures r.Some? ==> |r.value.1| < |s|
  {
    var (digits, rest) := Span(IsDigit, s);
    if ParseUint(digits).None? then None else Some((ParseUint(digits).value, rest))
  }

  lemma ReadsUint(n: uint64, rest: string)
    requires rest == "" || !IsDigit(rest[0])
    ensures ReadUint(FormatUint(n) + rest) == Some((n, rest))
  {
    FormatParses(n);
    SpanStops(IsDigit, FormatUint(n), rest);
  }
}
