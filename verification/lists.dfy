/**
 * The handful of `List<T>` and LINQ operations the concealment core relies on,
 * written over Dafny sequences.
 */
module Lists {

  /** No element occurs twice. */
  predicate NoDuplicates<T(==)>(xs: seq<T>) {
    forall i, j :: 0 <= i < j < |xs| ==> xs[i] != xs[j]
  }

  /** The elements of `xs`, as a set. */
  function Elements<T(!new)>(xs: seq<T>): (r: set<T>)
    ensures forall x :: x in r <==> x in xs
  {
    set x | x in xs
  }

  /**
   * `List<T>.Remove(x)`: drops the first occurrence of `x`, keeping the order of
   * everything else; a list without `x` comes back unchanged.
   */
  function RemoveFirst<T(==,!new)>(xs: seq<T>, x: T): (r: seq<T>)
    ensures x !in xs ==> r == xs
    ensures x in xs ==> |r| == |xs| - 1
    ensures multiset(r) == multiset(xs) - multiset{x}
    ensures forall y :: y != x ==> (y in r <==> y in xs)
  {
    if |xs| == 0 then []
    else if xs[0] == x then
      assert xs == [xs[0]] + xs[1..];
      xs[1..]
    else
      assert xs == [xs[0]] + xs[1..];
      [xs[0]] + RemoveFirst(xs[1..], x)
  }

  /** The index of the first occurrence of `x`. */
  function FirstIndex<T(==)>(xs: seq<T>, x: T): (i: nat)
    requires x in xs
    ensures i < |xs| && xs[i] == x && x !in xs[..i]
  {
    if xs[0] == x then 0
    else
      var j := FirstIndex(xs[1..], x);
      assert xs[..j + 1] == [xs[0]] + xs[1..][..j];
      j + 1
  }

  /** `RemoveFirst` cuts out exactly the first occurrence and keeps the order of the rest. */
  lemma {:induction false} RemoveFirstDropsFirstOccurrence<T(!new)>(xs: seq<T>, x: T)
    requires x in xs
    ensures RemoveFirst(xs, x) == xs[..FirstIndex(xs, x)] + xs[FirstIndex(xs, x) + 1..]
  {
    if xs[0] == x {
      assert xs[..0] + xs[1..] == xs[1..];
    } else {
      RemoveFirstDropsFirstOccurrence(xs[1..], x);
      ConsSplice(xs, FirstIndex(xs[1..], x), RemoveFirst(xs[1..], x));
    }
  }

  /** Putting the head back in front of a splice of the tail splices the whole list one place later. */
  lemma ConsSplice<T>(xs: seq<T>, j: nat, tail: seq<T>)
    requires j + 1 < |xs|
    requires tail == xs[1..][..j] + xs[1..][j + 1..]
    ensures [xs[0]] + tail == xs[..j + 1] + xs[j + 2..]
  {
    assert xs[..j + 1] == [xs[0]] + xs[1..][..j];
    assert xs[j + 2..] == xs[1..][j + 1..];
  }

  /** A duplicate-free list loses its only copy of `x` and stays duplicate-free. */
  lemma {:induction false} RemoveFirstNoDuplicates<T(!new)>(xs: seq<T>, x: T)
    ensures NoDuplicates(xs) ==> x !in RemoveFirst(xs, x) && NoDuplicates(RemoveFirst(xs, x))
  {
    if !NoDuplicates(xs) {
    } else if |xs| > 0 && xs[0] != x {
      assert NoDuplicates(xs[1..]) by {
        forall i, j | 0 <= i < j < |xs[1..]| ensures xs[1..][i] != xs[1..][j] {
          assert xs[1..][i] == xs[i + 1] && xs[1..][j] == xs[j + 1];
        }
      }
      RemoveFirstNoDuplicates(xs[1..], x);
      var tail := RemoveFirst(xs[1..], x);
      assert xs[0] !in tail;
      assert RemoveFirst(xs, x) == [xs[0]] + tail;
    } else if |xs| > 0 {
      assert xs[1..] == RemoveFirst(xs, x);
      forall k | 0 <= k < |xs[1..]| ensures xs[1..][k] != x {
        assert xs[1..][k] == xs[k + 1];
      }
    }
  }

  /**
   * LINQ `Distinct` with the elements of `seen` already consumed: one copy of
   * each element of `xs` that is not in `seen`.
   */
  function DistinctFrom<T(==,!new)>(xs: seq<T>, seen: set<T>): (r: seq<T>)
    ensures NoDuplicates(r)
    ensures forall y :: y in r <==> y in xs && y !in seen
    ensures |r| <= |xs|
  {
    if |xs| == 0 then []
    else if xs[0] in seen then DistinctFrom(xs[1..], seen)
    else [xs[0]] + DistinctFrom(xs[1..], seen + {xs[0]})
  }

  /** LINQ `Distinct`: one copy of every element of the list, and nothing else. */
  function Distinct<T(==,!new)>(xs: seq<T>): (r: seq<T>)
    ensures NoDuplicates(r)
    ensures forall y :: y in r <==> y in xs
    ensures |r| <= |xs|
  {
    DistinctFrom(xs, {})
  }

  /** On a list already free of duplicates (and of `seen`), `DistinctFrom` is the identity. */
  lemma {:induction false} DistinctFromOfDistinct<T(!new)>(xs: seq<T>, seen: set<T>)
    requires NoDuplicates(xs)
    requires forall y :: y in xs ==> y !in seen
    ensures DistinctFrom(xs, seen) == xs
  {
    if |xs| > 0 {
      assert NoDuplicates(xs[1..]) by {
        forall i, j | 0 <= i < j < |xs[1..]| ensures xs[1..][i] != xs[1..][j] {
          assert xs[1..][i] == xs[i + 1] && xs[1..][j] == xs[j + 1];
        }
      }
      forall y | y in xs[1..] ensures y !in seen + {xs[0]} {
        var k :| 0 <= k < |xs[1..]| && xs[1..][k] == y;
        assert xs[k + 1] == y;
      }
      DistinctFromOfDistinct(xs[1..], seen + {xs[0]});
    }
  }

  /** `Distinct` is idempotent: a second pass changes nothing. */
  lemma DistinctIdempotent<T(!new)>(xs: seq<T>)
    ensures Distinct(Distinct(xs)) == Distinct(xs)
  {
    DistinctFromOfDistinct(Distinct(xs), {});
  }
}
