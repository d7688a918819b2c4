/** Sequence helpers shared by the parser and the pagination driver. */
module Seqs {

  /** `f` applied to every element of `xs`, in order. */
  function MapSeq<A, B>(f: A -> B, xs: seq<A>): (ys: seq<B>)
    ensures |ys| == |xs|
    ensures forall k :: 0 <= k < |xs| ==> ys[k] == f(xs[k])
  {
    seq(|xs|, k requires 0 <= k < |xs| => f(xs[k]))
  }

  /** Mapping distributes over concatenation. */
  lemma MapSeqAppend<A, B>(f: A -> B, a: seq<A>, b: seq<A>)
    ensures MapSeq(f, a + b) == MapSeq(f, a) + MapSeq(f, b)
  {
    assert forall k :: 0 <= k < |b| ==> (a + b)[|a| + k] == b[k];
  }

  /** Mapping commutes with taking a prefix. */
  lemma MapSeqPrefix<A, B>(f: A -> B, xs: seq<A>, j: nat)
    requires j <= |xs|
    ensures MapSeq(f, xs[..j]) == MapSeq(f, xs)[..j]
  {
  }

  /** Concatenation is associative. */
  lemma AppendAssoc<T>(a: seq<T>, b: seq<T>, c: seq<T>)
    ensures a + (b + c) == (a + b) + c
  {
  }

  /** `f(start)`, `f(start + 1)`, ..., `f(start + n - 1)`. */
  function Tabulate<T>(f: nat -> T, start: nat, n: nat): (xs: seq<T>)
    ensures |xs| == n
    ensures forall i :: 0 <= i < n ==> xs[i] == f(start + i)
  {
    seq(n, i requires 0 <= i < n => f(start + i))
  }

  /** A table is its first entry followed by the table of the rest. */
  lemma TabulateCons<T>(f: nat -> T, start: nat, n: nat)
    requires n > 0
    ensures Tabulate(f, start, n) == [f(start)] + Tabulate(f, start + 1, n - 1)
  {
    var a := Tabulate(f, start, n);
    var b := [f(start)] + Tabulate(f, start + 1, n - 1);
    forall i | 0 <= i < n
      ensures a[i] == b[i]
    {
      if i > 0 {
        assert b[i] == Tabulate(f, start + 1, n - 1)[i - 1];
      }
    }
  }

  /** The table from `start` up to `last` is the table up to `last - 1`
      followed by `f(last)`. */
  lemma TabulateSnoc<T>(f: nat -> T, start: nat, last: nat)
    requires start <= last
    ensures Tabulate(f, start, last - start + 1) == Tabulate(f, start, last - start) + [f(last)]
  {
  }
}
