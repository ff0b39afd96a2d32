// Small value types and sequence facts shared by every module of the model.
module Prelude {

  datatype Option<+T> = None | Some(value: T)

  datatype Result<+T, +E> = Ok(value: T) | Err(error: E)

  // Number of distinct values of a machine word.
  const U32_LIMIT: nat := 0x1_0000_0000
  const U64_LIMIT: nat := 0x1_0000_0000_0000_0000

  // Addition and subtraction that stop at the end of the word instead of wrapping.
  function SaturatingInc32(n: nat): (r: nat)
    ensures n < U32_LIMIT ==> n <= r < U32_LIMIT
  {
    if n + 1 < U32_LIMIT then n + 1 else U32_LIMIT - 1
  }

  function Monus(a: nat, b: nat): nat {
    if a >= b then a - b else 0
  }

  function Min(a: nat, b: nat): nat {
    if a <= b then a else b
  }

  function Sum(s: seq<nat>): nat {
    if s == [] then 0 else Sum(s[..|s| - 1]) + s[|s| - 1]
  }

  lemma SumOfAppend(s: seq<nat>, x: nat)
    ensures Sum(s + [x]) == Sum(s) + x
  {
    assert (s + [x])[..|s|] == s;
  }

  lemma Associative<T>(a: seq<T>, b: seq<T>, c: seq<T>)
    ensures (a + b) + c == a + (b + c)
  {
  }

  // A sequence without repetition has as many members as positions.
  lemma {:induction false} DistinctCardinality<T>(s: seq<T>)
    requires forall i, j :: 0 <= i < j < |s| ==> s[i] != s[j]
    ensures |set x | x in s| == |s|
  {
    if s != [] {
      var front := s[..|s| - 1];
      DistinctCardinality(front);
      assert s == front + [s[|s| - 1]];
      assert (set x | x in s) == (set x | x in front) + {s[|s| - 1]};
      assert s[|s| - 1] !in front;
    }
  }

  lemma {:induction false} SubsetCardinality<T>(small: set<T>, large: set<T>)
    requires small <= large
    ensures |small| <= |large|
    decreases small
  {
    if small != {} {
      var x :| x in small;
      SubsetCardinality(small - {x}, large - {x});
    }
  }

  // Distinct members of a set are no more than the set has.
  lemma {:induction false} Pigeonhole<T>(s: seq<T>, holes: set<T>)
    requires forall i, j :: 0 <= i < j < |s| ==> s[i] != s[j]
    requires forall i :: 0 <= i < |s| ==> s[i] in holes
    ensures |s| <= |holes|
    decreases |s|
  {
    if s != [] {
      var last := s[|s| - 1];
      assert last in holes;
      Pigeonhole(s[..|s| - 1], holes - {last});
    }
  }

  // Distinct members of a sequence without repetition that leave one out are fewer than it has.
  lemma FewerMembers<T>(some: seq<T>, all: seq<T>, out: T)
    requires forall i, j :: 0 <= i < j < |some| ==> some[i] != some[j]
    requires forall i, j :: 0 <= i < j < |all| ==> all[i] != all[j]
    requires forall i :: 0 <= i < |some| ==> some[i] in all && some[i] != out
    requires out in all
    ensures |some| < |all|
  {
    DistinctCardinality(all);
    Pigeonhole(some + [out], set x | x in all);
  }
}
