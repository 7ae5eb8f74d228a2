/**
 * shuffleArray: the in-place Fisher-Yates shuffle of the source. For i from
 * the last index down to 1 it draws j in [0, i] and swaps a[i] with a[j].
 */
module Shuffle {
  import opened Random

  /** `s` with the elements at i and j exchanged. */
  function Swap<T>(s: seq<T>, i: nat, j: nat): (r: seq<T>)
    requires i < |s| && j < |s|
    ensures |r| == |s| && r[i] == s[j] && r[j] == s[i]
    ensures forall k :: 0 <= k < |s| && k != i && k != j ==> r[k] == s[k]
    ensures multiset(r) == multiset(s)
  {
    s[i := s[j]][j := s[i]]
  }

  /**
   * The rest of the shuffle from cursor i on, with the draws taken from
   * `stream` starting at `pos`: the shuffled sequence and the position of the
   * next unused draw. Elements above the cursor are never touched again.
   */
  function ShuffleFrom<T>(s: seq<T>, i: int, stream: nat -> Draw, pos: nat): (r: (seq<T>, nat))
    requires i < |s|
    ensures |r.0| == |s| && multiset(r.0) == multiset(s)
    ensures r.1 == pos + (if i > 0 then i else 0)
    ensures forall k :: i < k < |s| && 0 <= k ==> r.0[k] == s[k]
    decreases i
  {
    if i <= 0 then (s, pos)
    else
      var j := GetRandomInt(stream(pos), 0, i);
      ShuffleFrom(Swap(s, i, j), i - 1, stream, pos + 1)
  }

  /** One step of the shuffle: the draw at `pos` picks j in [0, i], then a[i] and a[j] are exchanged. */
  lemma ShuffleFromStep<T>(s: seq<T>, i: int, j: nat, stream: nat -> Draw, pos: nat)
    requires 0 < i < |s| && j == GetRandomInt(stream(pos), 0, i)
    ensures ShuffleFrom(s, i, stream, pos) == ShuffleFrom(Swap(s, i, j), i - 1, stream, pos + 1)
  {
  }

  /** The whole shuffle of `s`: one draw for each index from |s| - 1 down to 1. */
  function Shuffled<T>(s: seq<T>, stream: nat -> Draw, pos: nat): (r: (seq<T>, nat))
  {
    ShuffleFrom(s, |s| - 1, stream, pos)
  }

  /** A shuffle is a permutation of its input and consumes max(|s| - 1, 0) draws. */
  lemma ShuffledIsPermutation<T>(s: seq<T>, stream: nat -> Draw, pos: nat)
    ensures |Shuffled(s, stream, pos).0| == |s|
    ensures multiset(Shuffled(s, stream, pos).0) == multiset(s)
    ensures forall x :: x in Shuffled(s, stream, pos).0 <==> x in s
    ensures Shuffled(s, stream, pos).1 == pos + (if |s| > 0 then |s| - 1 else 0)
  {
    var r := Shuffled(s, stream, pos).0;
    forall x
      ensures x in r <==> x in s
    {
      assert x in r <==> x in multiset(r);
      assert x in s <==> x in multiset(s);
    }
  }

  /** The destructuring swap `[array[i], array[j]] = [array[j], array[i]]`. */
  method SwapElements<T>(a: array<T>, i: nat, j: nat)
    requires i < a.Length && j < a.Length
    modifies a
    ensures a[..] == Swap(old(a[..]), i, j)
  {
    var t := a[j];
    a[j] := a[i];
    a[i] := t;
  }

  /** One iteration of shuffleArray: draw j in [0, i] and exchange a[i] and a[j]. */
  method ShuffleStep<T>(a: array<T>, i: int, rng: RandomSource)
    requires 0 < i < a.Length
    modifies a, rng
    ensures ShuffleFrom(a[..], i - 1, rng.stream, rng.pos) == ShuffleFrom(old(a[..]), i, rng.stream, old(rng.pos))
  {
    ghost var before, p := a[..], rng.pos;
    var j := rng.Next(0, i);
    SwapElements(a, i, j);
    ShuffleFromStep(before, i, j, rng.stream, p);
  }

  /** shuffleArray(array): shuffles `a` in place, drawing from `rng`. */
  method ShuffleArray<T>(a: array<T>, rng: RandomSource)
    modifies a, rng
    ensures (a[..], rng.pos) == Shuffled(old(a[..]), rng.stream, old(rng.pos))
    ensures multiset(a[..]) == multiset(old(a[..]))
  {
    ghost var whole := Shuffled(a[..], rng.stream, rng.pos);
    var i := a.Length - 1;
    while i > 0
      invariant -1 <= i < a.Length
      invariant ShuffleFrom(a[..], i, rng.stream, rng.pos) == whole
    {
      ShuffleStep(a, i, rng);
      i := i - 1;
    }
    ShuffledIsPermutation(old(a[..]), rng.stream, old(rng.pos));
  }
}
