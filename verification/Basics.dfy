/** Vocabulary shared by every module: bytes, options, results and a few sequence functions. */
module Basics {
  newtype byte = x: int | 0 <= x < 256

  type Bytes = seq<byte>

  datatype Option<+T> = None | Some(value: T)

  datatype Result<+T, +E> = Ok(value: T) | Err(error: E)

  function Front<T>(s: seq<T>): seq<T>
    requires s != []
  {
    s[..|s| - 1]
  }

  function Last<T>(s: seq<T>): T
    requires s != []
  {
    s[|s| - 1]
  }

  /** The parts of `parts`, one after the other. */
  function Concat<T>(parts: seq<seq<T>>): (whole: seq<T>)
  {
    if parts == [] then [] else Concat(parts[..|parts| - 1]) + parts[|parts| - 1]
  }

  lemma ConcatSnoc<T>(parts: seq<seq<T>>, part: seq<T>)
    ensures Concat(parts + [part]) == Concat(parts) + part
  {
    assert (parts + [part])[..|parts|] == parts;
  }

  /** The elements of `xs` that pass `keep`, in order. */
  function Filter<T(!new)>(xs: seq<T>, keep: T -> bool): (ys: seq<T>)
    ensures forall x :: x in ys <==> x in xs && keep(x)
  {
    if xs == [] then []
    else
      var last := xs[|xs| - 1];
      assert xs == xs[..|xs| - 1] + [last];
      Filter(xs[..|xs| - 1], keep) + if keep(last) then [last] else []
  }

  lemma FilterSnoc<T(!new)>(xs: seq<T>, n: nat, keep: T -> bool)
    requires n < |xs|
    ensures Filter(xs[..n + 1], keep) == Filter(xs[..n], keep) + if keep(xs[n]) then [xs[n]] else []
  {
    assert xs[..n + 1][..n] == xs[..n];
  }

  function Map<T, U>(xs: seq<T>, f: T -> U): (ys: seq<U>)
    ensures |ys| == |xs| && forall i :: 0 <= i < |xs| ==> ys[i] == f(xs[i])
  {
    seq(|xs|, i requires 0 <= i < |xs| => f(xs[i]))
  }

  lemma MapAppend<T, U>(xs: seq<T>, ys: seq<T>, f: T -> U)
    ensures Map(xs + ys, f) == Map(xs, f) + Map(ys, f)
  {}

  lemma MapOne<T, U>(x: T, f: T -> U)
    ensures Map([x], f) == [f(x)]
  {}

  lemma MapSnoc<T, U>(xs: seq<T>, n: nat, f: T -> U)
    requires n < |xs|
    ensures Map(xs[..n + 1], f) == Map(xs[..n], f) + [f(xs[n])]
  {}
}
