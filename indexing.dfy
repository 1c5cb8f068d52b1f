/** Shared vocabulary: optional values, results, and how a numpy array of a
    given length is addressed by an integer index. */
module Indexing {

  datatype Option<+T> = None | Some(value: T)

  datatype Result<+T, +E> = Success(value: T) | Failure(error: E)

  /** The position that numpy indexing (`a[i]`, `a.put(i, v)` in its default
      "raise" mode) addresses in an array of length `n`: indices `-n .. n-1`
      are accepted, a negative one counting from the end; any other index
      raises IndexError, which is `None` here. */
  function Slot(i: int, n: nat): (r: Option<nat>)
    ensures r.Some? <==> 0 <= i + n && i < n
    ensures r.Some? ==> r.value < n && (r.value == i || r.value == i + n)
  {
    if 0 <= i < n then Some(i) else if 0 <= i + n && i < 0 then Some(i + n) else None
  }

  /** The index of the last record of `rs` whose key addresses slot `k` of an
      `n`-entry table: the record whose write survives when the records are
      `put` into the table one after another, left to right. */
  function LastAt<R>(rs: seq<R>, key: R -> int, n: nat, k: nat): (r: Option<nat>)
    ensures r.Some? ==>
              && r.value < |rs|
              && Slot(key(rs[r.value]), n) == Some(k)
              && forall j :: r.value < j < |rs| ==> Slot(key(rs[j]), n) != Some(k)
    ensures r.None? ==> forall j :: 0 <= j < |rs| ==> Slot(key(rs[j]), n) != Some(k)
    decreases |rs|
  {
    if rs == [] then None
    else if Slot(key(rs[|rs| - 1]), n) == Some(k) then Some(|rs| - 1)
    else LastAt(rs[..|rs| - 1], key, n, k)
  }

  /** One more record written: it wins its own slot and leaves the others alone. */
  lemma LastAtExtend<R>(rs: seq<R>, key: R -> int, n: nat, i: nat, k: nat)
    requires i < |rs|
    ensures LastAt(rs[..i + 1], key, n, k)
            == if Slot(key(rs[i]), n) == Some(k) then Some(i) else LastAt(rs[..i], key, n, k)
  {
    assert rs[..i + 1][..i] == rs[..i];
  }

  /** The first error in a sequence of per-record checks, `None` when every
      check passed. */
  function FirstSome<E>(xs: seq<Option<E>>): (r: Option<E>)
    ensures r.None? <==> forall i :: 0 <= i < |xs| ==> xs[i].None?
  {
    if xs == [] then None else if xs[0].Some? then xs[0] else FirstSome(xs[1..])
  }

  /** The error reported is the one of the earliest failing check. */
  lemma {:induction false} FirstSomeAt<E>(xs: seq<Option<E>>, i: nat)
    requires i < |xs| && xs[i].Some?
    requires forall j :: 0 <= j < i ==> xs[j].None?
    ensures FirstSome(xs) == xs[i]
  {
    if i > 0 {
      FirstSomeAt(xs[1..], i - 1);
    }
  }
}
