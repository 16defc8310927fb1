/** Lists and counting, shared by the memory model and the scheduler model.

    Every conservation law of this project is stated by counting: `Occ(s, x)` is the number of places of
    `s` that hold `x`, so "in exactly one place" is an equation between small numbers. */
module Seqs {

  datatype Option<+T> = None | Some(value: T)

  function Occ<T(==)>(s: seq<T>, x: T): (n: nat)
    ensures n <= |s|
    ensures n > 0 <==> x in s
  {
    if s == [] then 0 else (if s[0] == x then 1 else 0) + Occ(s[1..], x)
  }

  ghost predicate NoDup<T(!new)>(s: seq<T>) {
    forall x :: Occ(s, x) <= 1
  }

  function Reverse<T>(s: seq<T>): (r: seq<T>)
    ensures |r| == |s|
  {
    if s == [] then [] else Reverse(s[1..]) + [s[0]]
  }

  lemma {:induction false} ReverseAt<T>(s: seq<T>, k: nat)
    requires k < |s|
    ensures Reverse(s)[k] == s[|s| - 1 - k]
  {
    if k < |s| - 1 {
      ReverseAt(s[1..], k);
    }
  }

  lemma {:induction false} OccConcat<T>(a: seq<T>, b: seq<T>, x: T)
    ensures Occ(a + b, x) == Occ(a, x) + Occ(b, x)
  {
    if a == [] {
      assert a + b == b;
    } else {
      assert (a + b)[1..] == a[1..] + b;
      OccConcat(a[1..], b, x);
    }
  }

  lemma {:induction false} OccUpdate<T>(s: seq<T>, i: nat, y: T, x: T)
    requires i < |s|
    ensures Occ(s[i := y], x) + (if s[i] == x then 1 else 0) == Occ(s, x) + (if y == x then 1 else 0)
  {
    if i == 0 {
      assert s[i := y][1..] == s[1..];
    } else {
      assert s[i := y][1..] == s[1..][i - 1 := y];
      OccUpdate(s[1..], i - 1, y, x);
    }
  }

  lemma {:induction false} OccReverse<T>(s: seq<T>, x: T)
    ensures Occ(Reverse(s), x) == Occ(s, x)
  {
    if s != [] {
      OccReverse(s[1..], x);
      OccConcat(Reverse(s[1..]), [s[0]], x);
    }
  }

  /** Two different places holding the same value are counted twice. */
  lemma {:induction false} OccTwice<T>(s: seq<T>, i: nat, j: nat)
    requires i < j < |s| && s[i] == s[j]
    ensures Occ(s, s[i]) >= 2
  {
    if i == 0 {
      assert s[1..][j - 1] == s[0];
    } else {
      OccTwice(s[1..], i - 1, j - 1);
    }
  }

  /** Pigeonhole: a list without repetition drawn from a set has at most as many entries as the set, fewer if an
      element of the set is missing. */
  lemma {:induction false} PigeonHole(s: seq<int>, holes: set<int>)
    requires NoDup(s) && forall k :: 0 <= k < |s| ==> s[k] in holes
    ensures |s| <= |holes| && forall v :: v in holes && v !in s ==> |s| < |holes|
  {
    if s != [] {
      assert Occ(s, s[0]) == 1 + Occ(s[1..], s[0]);
      forall x ensures Occ(s[1..], x) <= 1 {
        assert Occ(s, x) >= Occ(s[1..], x);
      }
      forall k | 0 <= k < |s| - 1 ensures s[1..][k] in holes - {s[0]} {
        assert s[1..][k] == s[k + 1] && s[1..][k] in s[1..];
      }
      PigeonHole(s[1..], holes - {s[0]});
      assert forall v :: v in s[1..] ==> v in s;
    } else {
      assert forall v :: v in holes ==> |holes - {v}| < |holes|;
    }
  }
}
