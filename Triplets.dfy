/**
 * findPossibleTriplets: every (a, b, c, operator) with (a * b) + c == target or
 * (a * b) - c == target, for a in [1, floor(sqrt(target + 50))],
 * b in [1, floor(target / 2)] and c in [1, 50], in loop order, without duplicates.
 */
module Triplets {
  import opened Base

  datatype Op = Plus | Minus

  datatype Triplet = Triplet(a: int, b: int, c: int, op: Op)

  /** Largest value a triplet may put in its third cell. */
  const MaxC := 50

  /** Exact integer square root: floor(sqrt(n)). */
  function ISqrt(n: nat): (r: nat)
    ensures r * r <= n < (r + 1) * (r + 1)
  {
    if n == 0 then 0
    else
      var s := ISqrt(n - 1);
      if (s + 1) * (s + 1) <= n then
        assert (s + 2) * (s + 2) == (s + 1) * (s + 1) + 2 * s + 3;
        s + 1
      else s
  }

  /**
   * maxA = Math.floor(Math.sqrt(target + 50)). When target + 50 is negative the
   * square root is NaN and the loop `a <= maxA` never runs: an upper bound of 0.
   */
  function MaxA(target: int): int {
    if target + 50 < 0 then 0 else ISqrt(target + 50)
  }

  /** maxA is the floor of the square root of target + 50, and 0 below -50. */
  lemma MaxABounds(target: int)
    ensures target + 50 < 0 ==> MaxA(target) == 0
    ensures target + 50 >= 0 ==> 0 <= MaxA(target)
    ensures target + 50 >= 0 ==> MaxA(target) * MaxA(target) <= target + 50 < (MaxA(target) + 1) * (MaxA(target) + 1)
  {
  }

  /** maxB = Math.floor(target / 2); Dafny's division by 2 rounds down like Math.floor. */
  function MaxB(target: int): (r: int)
    ensures 2 * r <= target < 2 * r + 2
  {
    target / 2
  }

  predicate InRangeC(c: int) {
    1 <= c <= MaxC
  }

  /** The equation a triplet promises for the target. */
  predicate Satisfies(target: int, t: Triplet) {
    match t.op
    case Plus => t.a * t.b + t.c == target
    case Minus => t.a * t.b - t.c == target
  }

  /** The bounds of the search. */
  predicate WithinBounds(target: int, t: Triplet) {
    1 <= t.a <= MaxA(target) && 1 <= t.b <= MaxB(target) && InRangeC(t.c)
  }

  /** What the body of the inner loop pushes for one (a, b): first '+', then '-'. */
  function Candidates(target: int, a: int, b: int): (r: seq<Triplet>)
    ensures |r| <= 2
    ensures forall i :: 0 <= i < |r| ==> r[i].a == a && r[i].b == b && InRangeC(r[i].c)
  {
    var cPlus := target - a * b;
    var cMinus := a * b - target;
    (if InRangeC(cPlus) then [Triplet(a, b, cPlus, Plus)] else [])
    + (if InRangeC(cMinus) then [Triplet(a, b, cMinus, Minus)] else [])
  }

  /** What the inner loop pushes for one a, with b running from 1 to n. */
  function ForA(target: int, a: int, n: int): seq<Triplet>
    decreases n
  {
    if n <= 0 then [] else ForA(target, a, n - 1) + Candidates(target, a, n)
  }

  /** What the two nested loops push, with a running from 1 to m and b from 1 to maxB. */
  function Raw(target: int, m: int, maxB: int): seq<Triplet>
    decreases m
  {
    if m <= 0 then [] else Raw(target, m - 1, maxB) + ForA(target, m, maxB)
  }

  /** The duplicate filter: keeps the first occurrence of every triplet, in order. */
  function Dedup(s: seq<Triplet>): (r: seq<Triplet>)
    ensures forall x :: x in r <==> x in s
    ensures Distinct(r)
    decreases |s|
  {
    if s == [] then []
    else
      var p := Dedup(s[..|s| - 1]);
      var last := s[|s| - 1];
      assert s == s[..|s| - 1] + [last];
      if last in s[..|s| - 1] then p
      else
        DistinctConcat(p, [last]);
        p + [last]
  }

  /** The result of findPossibleTriplets(target). */
  function PossibleTriplets(target: int): seq<Triplet> {
    Dedup(Raw(target, MaxA(target), MaxB(target)))
  }

  /** The loop order: a ascending, then b ascending, then '+' before '-'. */
  predicate Before(x: Triplet, y: Triplet) {
    x.a < y.a || (x.a == y.a && (x.b < y.b || (x.b == y.b && x.op == Plus && y.op == Minus)))
  }

  predicate StrictlyOrdered(s: seq<Triplet>) {
    forall i, j :: 0 <= i < j < |s| ==> Before(s[i], s[j])
  }

  lemma OrderedConcat(x: seq<Triplet>, y: seq<Triplet>)
    requires StrictlyOrdered(x) && StrictlyOrdered(y)
    requires forall i, j :: 0 <= i < |x| && 0 <= j < |y| ==> Before(x[i], y[j])
    ensures StrictlyOrdered(x + y)
  {
    forall i, j | 0 <= i < j < |x + y|
      ensures Before((x + y)[i], (x + y)[j])
    {
      if j < |x| {
        assert (x + y)[i] == x[i] && (x + y)[j] == x[j];
      } else if i < |x| {
        assert (x + y)[i] == x[i] && (x + y)[j] == y[j - |x|];
      } else {
        assert (x + y)[i] == y[i - |x|] && (x + y)[j] == y[j - |x|];
      }
    }
  }

  lemma OrderedIsDistinct(s: seq<Triplet>)
    requires StrictlyOrdered(s)
    ensures Distinct(s)
  {
    forall i, j | 0 <= i < j < |s| ensures s[i] != s[j] {
      assert Before(s[i], s[j]);
    }
  }

  /** A duplicate-free list is left unchanged by the duplicate filter. */
  lemma {:induction false} DedupOfDistinct(s: seq<Triplet>)
    requires Distinct(s)
    ensures Dedup(s) == s
    decreases |s|
  {
    if s != [] {
      var init := s[..|s| - 1];
      assert Distinct(init);
      DedupOfDistinct(init);
      var last := s[|s| - 1];
      forall i | 0 <= i < |init|
        ensures init[i] != last
      {
        assert init[i] == s[i];
      }
      assert s == init + [last];
    }
  }

  /** What one pass of the inner loop body pushes. */
  lemma CandidatesFacts(target: int, a: int, b: int)
    ensures forall t :: t in Candidates(target, a, b) <==>
      t.a == a && t.b == b && InRangeC(t.c) && Satisfies(target, t)
    ensures StrictlyOrdered(Candidates(target, a, b))
  {
  }

  /** What one inner-loop row contains. */
  lemma {:induction false} ForAMembers(target: int, a: int, n: int, t: Triplet)
    ensures t in ForA(target, a, n) <==>
      t.a == a && 1 <= t.b <= n && InRangeC(t.c) && Satisfies(target, t)
    decreases n
  {
    if n > 0 {
      ForAMembers(target, a, n - 1, t);
      CandidatesFacts(target, a, n);
      var prev: seq<Triplet>, cand: seq<Triplet> := ForA(target, a, n - 1), Candidates(target, a, n);
      assert t in prev + cand <==> t in prev || t in cand;
    }
  }

  /** The bounds of the triplets of one inner-loop row, without the equation. */
  lemma {:induction false} ForABounds(target: int, a: int, n: int)
    ensures forall i :: 0 <= i < |ForA(target, a, n)| ==>
      ForA(target, a, n)[i].a == a && 1 <= ForA(target, a, n)[i].b <= n
    decreases n
  {
    if n > 0 {
      ForABounds(target, a, n - 1);
      var prev: seq<Triplet>, cand: seq<Triplet> := ForA(target, a, n - 1), Candidates(target, a, n);
      assert forall j :: 0 <= j < |cand| ==> cand[j].a == a && cand[j].b == n;
      forall i | 0 <= i < |prev + cand|
        ensures (prev + cand)[i].a == a && 1 <= (prev + cand)[i].b <= n
      {
        if i >= |prev| { assert (prev + cand)[i] == cand[i - |prev|]; }
      }
    }
  }

  /** One inner-loop row is in loop order: b ascending, '+' before '-'. */
  lemma {:induction false} ForAOrdered(target: int, a: int, n: int)
    ensures StrictlyOrdered(ForA(target, a, n))
    decreases n
  {
    if n > 0 {
      ForAOrdered(target, a, n - 1);
      ForABounds(target, a, n - 1);
      CandidatesFacts(target, a, n);
      var prev: seq<Triplet>, cand: seq<Triplet> := ForA(target, a, n - 1), Candidates(target, a, n);
      assert forall j :: 0 <= j < |cand| ==> cand[j].a == a && cand[j].b == n;
      OrderedConcat(prev, cand);
    }
  }

  /** The first components of what the two nested loops produce. */
  lemma {:induction false} RawBounds(target: int, m: int, maxB: int)
    ensures forall i :: 0 <= i < |Raw(target, m, maxB)| ==> 1 <= Raw(target, m, maxB)[i].a <= m
    decreases m
  {
    if m > 0 {
      RawBounds(target, m - 1, maxB);
      ForABounds(target, m, maxB);
      var prev: seq<Triplet>, row: seq<Triplet> := Raw(target, m - 1, maxB), ForA(target, m, maxB);
      forall i | 0 <= i < |prev + row|
        ensures 1 <= (prev + row)[i].a <= m
      {
        if i >= |prev| { assert (prev + row)[i] == row[i - |prev|]; }
      }
    }
  }

  /** What the two nested loops produce. */
  lemma {:induction false} RawMembers(target: int, m: int, maxB: int, t: Triplet)
    ensures t in Raw(target, m, maxB) <==>
      1 <= t.a <= m && 1 <= t.b <= maxB && InRangeC(t.c) && Satisfies(target, t)
    decreases m
  {
    if m > 0 {
      RawMembers(target, m - 1, maxB, t);
      ForAMembers(target, m, maxB, t);
      var prev: seq<Triplet>, row: seq<Triplet> := Raw(target, m - 1, maxB), ForA(target, m, maxB);
      assert t in prev + row <==> t in prev || t in row;
    }
  }

  /** The two nested loops produce their triplets in loop order. */
  lemma {:induction false} RawOrdered(target: int, m: int, maxB: int)
    ensures StrictlyOrdered(Raw(target, m, maxB))
    decreases m
  {
    if m > 0 {
      RawOrdered(target, m - 1, maxB);
      RawBounds(target, m - 1, maxB);
      ForAOrdered(target, m, maxB);
      ForABounds(target, m, maxB);
      OrderedConcat(Raw(target, m - 1, maxB), ForA(target, m, maxB));
    }
  }

  /**
   * Soundness and completeness: a triplet is returned exactly when it is within
   * the bounds and satisfies the target's equation.
   */
  lemma PossibleTripletsIff(target: int, t: Triplet)
    ensures t in PossibleTriplets(target) <==> WithinBounds(target, t) && Satisfies(target, t)
  {
    RawMembers(target, MaxA(target), MaxB(target), t);
  }

  /**
   * The result keeps the loop order (a, then b, then '+' before '-') and so
   * holds every triplet once; the duplicate filter removes nothing.
   */
  lemma PossibleTripletsOrdered(target: int)
    ensures StrictlyOrdered(PossibleTriplets(target))
    ensures Distinct(PossibleTriplets(target))
    ensures PossibleTriplets(target) == Raw(target, MaxA(target), MaxB(target))
  {
    var raw := Raw(target, MaxA(target), MaxB(target));
    RawOrdered(target, MaxA(target), MaxB(target));
    OrderedIsDistinct(raw);
    DedupOfDistinct(raw);
  }

  /** Every value of a returned triplet is at least 1. */
  lemma PossibleTripletsPositive(target: int, t: Triplet)
    requires t in PossibleTriplets(target)
    ensures t.a >= 1 && t.b >= 1 && 1 <= t.c <= MaxC
  {
    PossibleTripletsIff(target, t);
  }

  /** The inner search loop for one a: b from 1 to maxB, pushing onto `triplets`. */
  method SearchRow(target: int, a: int, maxB: int, start: seq<Triplet>) returns (triplets: seq<Triplet>)
    ensures triplets == start + ForA(target, a, maxB)
  {
    triplets := start;
    var b := 1;
    while b <= maxB
      invariant 1 <= b <= (if maxB >= 1 then maxB + 1 else 1)
      invariant triplets == start + ForA(target, a, b - 1)
    {
      triplets := PushCandidates(target, a, b, triplets);
      assert ForA(target, a, b) == ForA(target, a, b - 1) + Candidates(target, a, b);
      b := b + 1;
    }
    assert ForA(target, a, b - 1) == ForA(target, a, maxB);
  }

  /** One pass of the inner loop: the '+' candidate, then the '-' candidate, for a fixed (a, b). */
  method PushCandidates(target: int, a: int, b: int, start: seq<Triplet>) returns (triplets: seq<Triplet>)
    ensures triplets == start + Candidates(target, a, b)
  {
    triplets := start;
    var cPlus := target - (a * b);
    if cPlus >= 1 && cPlus <= 50 {
      triplets := triplets + [Triplet(a, b, cPlus, Plus)];
    }
    var cMinus := (a * b) - target;
    if cMinus >= 1 && cMinus <= 50 {
      triplets := triplets + [Triplet(a, b, cMinus, Minus)];
    }
  }

  /** The nested search loops of findPossibleTriplets: a outer, b inner, '+' before '-'. */
  method SearchTriplets(target: int) returns (triplets: seq<Triplet>)
    ensures triplets == Raw(target, MaxA(target), MaxB(target))
  {
    triplets := [];
    var maxA := MaxA(target);
    var maxB := MaxB(target);
    var a := 1;
    while a <= maxA
      invariant 1 <= a <= (if maxA >= 1 then maxA + 1 else 1)
      invariant triplets == Raw(target, a - 1, maxB)
    {
      triplets := SearchRow(target, a, maxB, triplets);
      a := a + 1;
    }
  }

  /** The duplicate filter of findPossibleTriplets: a `seen` set of the triplets kept so far. */
  method RemoveDuplicates(triplets: seq<Triplet>) returns (uniqueTriplets: seq<Triplet>)
    ensures uniqueTriplets == Dedup(triplets)
  {
    uniqueTriplets := [];
    var seen: set<Triplet> := {};
    for i := 0 to |triplets|
      invariant uniqueTriplets == Dedup(triplets[..i])
      invariant forall t :: t in seen <==> t in triplets[..i]
    {
      var triplet := triplets[i];
      assert triplets[..i + 1][..i] == triplets[..i];
      if triplet !in seen {
        seen := seen + {triplet};
        uniqueTriplets := uniqueTriplets + [triplet];
      }
    }
    assert triplets[..|triplets|] == triplets;
  }

  /** findPossibleTriplets(target): the nested search loops, then the duplicate filter. */
  method FindPossibleTriplets(target: int) returns (uniqueTriplets: seq<Triplet>)
    ensures uniqueTriplets == PossibleTriplets(target)
    ensures forall t :: t in uniqueTriplets <==> WithinBounds(target, t) && Satisfies(target, t)
  {
    var triplets := SearchTriplets(target);
    uniqueTriplets := RemoveDuplicates(triplets);
    forall t ensures t in uniqueTriplets <==> WithinBounds(target, t) && Satisfies(target, t) {
      PossibleTripletsIff(target, t);
    }
  }
}
