/** What several of the models share. */
module Basics {

  datatype Option<+T> = None | Some(value: T)

  type Byte = b: int | 0 <= b < 256

  const LF: Byte := 10

  /** The newlines among the first n bytes. */
  function NewlinesFirst(s: seq<Byte>, n: nat): nat
    requires n <= |s|
  {
    if n == 0 then 0 else NewlinesFirst(s, n - 1) + if s[n - 1] == LF then 1 else 0
  }

  function Newlines(s: seq<Byte>): nat {
    NewlinesFirst(s, |s|)
  }

  lemma {:induction false} NewlinesPrefix(a: seq<Byte>, b: seq<Byte>, n: nat)
    requires n <= |a|
    ensures NewlinesFirst(a + b, n) == NewlinesFirst(a, n)
  {
    if n > 0 {
      NewlinesPrefix(a, b, n - 1);
    }
  }

  lemma {:induction false} NewlinesBeyond(a: seq<Byte>, b: seq<Byte>, n: nat)
    requires n <= |b|
    ensures NewlinesFirst(a + b, |a| + n) == Newlines(a) + NewlinesFirst(b, n)
  {
    if n == 0 {
      NewlinesPrefix(a, b, |a|);
    } else {
      NewlinesBeyond(a, b, n - 1);
      assert (a + b)[|a| + n - 1] == b[n - 1];
    }
  }

  lemma NewlinesConcat(a: seq<Byte>, b: seq<Byte>)
    ensures Newlines(a + b) == Newlines(a) + Newlines(b)
  {
    NewlinesBeyond(a, b, |b|);
  }

  lemma NewlinesAppend(a: seq<Byte>, b: Byte)
    ensures Newlines(a + [b]) == Newlines(a) + if b == LF then 1 else 0
  {
    NewlinesPrefix(a, [b], |a|);
  }

  lemma {:induction false} NoNewlines(s: seq<Byte>, n: nat)
    requires n <= |s| && LF !in s
    ensures NewlinesFirst(s, n) == 0
  {
    if n > 0 {
      NoNewlines(s, n - 1);
      assert s[n - 1] in s;
    }
  }
}
