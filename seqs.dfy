/**
 * Regrouping of appended event sequences: a method that appends its events
 * piece by piece leaves `t + a + b + ...` (or `t + [a] + [b] + ...`), while its
 * specification names the whole `t + (a + b + ...)` (or `t + [a, b, ...]`).
 */
module Seqs {

  lemma Regroup2<T>(t: seq<T>, a: seq<T>, b: seq<T>)
    ensures t + a + b == t + (a + b)
  {
  }

  lemma Regroup3<T>(t: seq<T>, a: seq<T>, b: seq<T>, c: seq<T>)
    ensures t + a + b + c == t + (a + b + c)
  {
  }

  lemma Regroup4<T>(t: seq<T>, a: seq<T>, b: seq<T>, c: seq<T>, d: seq<T>)
    ensures t + a + b + c + d == t + (a + b + c + d)
  {
  }

  lemma Regroup5<T>(t: seq<T>, a: seq<T>, b: seq<T>, c: seq<T>, d: seq<T>, e: seq<T>)
    ensures t + a + b + c + d + e == t + (a + b + c + d + e)
  {
  }

  lemma Snoc2<T>(t: seq<T>, a: T, b: T)
    ensures t + [a] + [b] == t + [a, b]
  {
  }

  lemma Snoc4<T>(t: seq<T>, a: T, b: T, c: T, d: T)
    ensures t + [a] + [b] + [c] + [d] == t + [a, b, c, d]
  {
  }
}
