/** Shared wrappers, Go's unsigned integers and the sequence algebra of the proofs. */
module Common {

  datatype Option<+T> = None | Some(value: T)

  datatype Result<+T, +E> = Ok(value: T) | Err(error: E)

  type uint64 = n: int | 0 <= n < 0x1_0000_0000_0000_0000
  type uint32 = n: int | 0 <= n < 0x1_0000_0000

  lemma Associates<T>(a: seq<T>, b: seq<T>, c: seq<T>)
    ensures a + b + c == a + (b + c)
  {
  }

  /** What was written piece by piece after a starts with b, then c, then d. */
  lemma Associates4<T>(a: seq<T>, b: seq<T>, c: seq<T>, d: seq<T>)
    ensures a + b + c + d == a + (b + (c + d)) == a + (b + c + d)
  {
    Associates(a + b, c, d);
    Associates(a, b, c + d);
    Associates(b, c, d);
  }

  lemma Associates5<T>(a: seq<T>, b: seq<T>, c: seq<T>, d: seq<T>, e: seq<T>)
    ensures a + b + c + d + e == a + (b + (c + (d + e))) == a + (b + c + d + e)
  {
    Associates4(a + b, c, d, e);
    Associates(a, b, c + (d + e));
    Associates4(b, c, d, e);
  }

  lemma ReplacesLast<T>(s: seq<T>, x: T, y: T)
    ensures (s + [x])[|s| := y] == s + [y]
  {
  }

  lemma SplitsBack<T>(a: seq<T>, b: seq<T>)
    ensures (a + b)[..|a|] == a && (a + b)[|a|..] == b
  {
  }
}
