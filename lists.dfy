/**
 * The list operations the canvas applies to its shape and model lists:
 * removing an element by identity (the first occurrence, as a Java list's
 * remove(Object) does), and re-inserting it at the end or at the front.
 */
module Lists {

  /** No element occurs twice. */
  ghost predicate Distinct<T>(xs: seq<T>) {
    forall i, j :: 0 <= i < j < |xs| ==> xs[i] != xs[j]
  }

  /** xs without its first occurrence of x; xs itself when x does not occur. */
  function Remove<T(==)>(xs: seq<T>, x: T): (r: seq<T>)
    ensures x !in xs ==> r == xs
    ensures x in xs ==> |r| == |xs| - 1
  {
    if xs == [] then []
    else if xs[0] == x then xs[1..]
    else [xs[0]] + Remove(xs[1..], x)
  }

  /** x moved to the end (the front of the z-order). */
  function MoveToEnd<T(==)>(xs: seq<T>, x: T): (r: seq<T>)
    ensures |r| > 0 && r[|r| - 1] == x
  {
    Remove(xs, x) + [x]
  }

  /** x moved to index 0 (the back of the z-order). */
  function MoveToStart<T(==)>(xs: seq<T>, x: T): (r: seq<T>)
    ensures |r| > 0 && r[0] == x
  {
    [x] + Remove(xs, x)
  }

  /** Removing takes exactly one copy of x out of the list, and nothing else. */
  lemma {:induction false} RemovePermutes<T>(xs: seq<T>, x: T)
    ensures multiset(Remove(xs, x)) == multiset(xs) - multiset{x}
  {
    if xs != [] {
      var t := xs[1..];
      assert xs == [xs[0]] + t;
      assert multiset(xs) == multiset{xs[0]} + multiset(t);
      if xs[0] != x {
        RemovePermutes(t, x);
        assert multiset(Remove(xs, x)) == multiset{xs[0]} + (multiset(t) - multiset{x});
      }
    }
  }

  /** Moving x, when the list holds it, to either end only permutes the list. */
  lemma MovePermutes<T>(xs: seq<T>, x: T)
    requires x in xs
    ensures multiset(MoveToEnd(xs, x)) == multiset(xs)
    ensures multiset(MoveToStart(xs, x)) == multiset(xs)
  {
    RemovePermutes(xs, x);
    assert multiset(Remove(xs, x) + [x]) == multiset(Remove(xs, x)) + multiset{x};
    assert multiset([x] + Remove(xs, x)) == multiset{x} + multiset(Remove(xs, x));
  }

  /**
   * Removing the first occurrence of x, found at index i, cuts exactly that
   * element out and keeps the others in their order.
   */
  lemma {:induction false} RemoveAt<T>(xs: seq<T>, i: nat)
    requires i < |xs| && xs[i] !in xs[..i]
    ensures Remove(xs, xs[i]) == xs[..i] + xs[i + 1..]
  {
    if i == 0 {
      assert xs[..0] + xs[1..] == xs[1..];
    } else {
      var t := xs[1..];
      assert xs[..i] == [xs[0]] + t[..i - 1];
      assert t[i - 1] == xs[i] && xs[0] != xs[i];
      RemoveAt(t, i - 1);
      assert t[i..] == xs[i + 1..];
      calc {
        Remove(xs, xs[i]);
        [xs[0]] + Remove(t, xs[i]);
        [xs[0]] + (t[..i - 1] + t[i..]);
        ([xs[0]] + t[..i - 1]) + xs[i + 1..];
        xs[..i] + xs[i + 1..];
      }
    }
  }

  /** In a list without repetitions, the element at i does not occur before i. */
  lemma DistinctPrefix<T>(xs: seq<T>, i: nat)
    requires Distinct(xs) && i < |xs|
    ensures xs[i] !in xs[..i]
  {
  }

  /** Cutting one element out of a list without repetitions leaves a list without repetitions, without it. */
  lemma DistinctCut<T>(xs: seq<T>, i: nat)
    requires Distinct(xs) && i < |xs|
    ensures Distinct(xs[..i] + xs[i + 1..])
    ensures xs[i] !in xs[..i] + xs[i + 1..]
  {
    var r := xs[..i] + xs[i + 1..];
    forall a, b | 0 <= a < b < |r| ensures r[a] != r[b] {
      var a' := if a < i then a else a + 1;
      var b' := if b < i then b else b + 1;
      assert r[a] == xs[a'] && r[b] == xs[b'];
    }
    forall a | 0 <= a < |r| ensures r[a] != xs[i] {
      assert r[a] == xs[if a < i then a else a + 1];
    }
  }

  /**
   * In a list without repetitions, removing x (at index i) cuts out exactly
   * index i, and what is left still has no repetitions and lacks x.
   */
  lemma RemoveDistinct<T>(xs: seq<T>, i: nat)
    requires Distinct(xs) && i < |xs|
    ensures Remove(xs, xs[i]) == xs[..i] + xs[i + 1..]
    ensures Distinct(Remove(xs, xs[i])) && xs[i] !in Remove(xs, xs[i])
  {
    DistinctPrefix(xs, i);
    RemoveAt(xs, i);
    DistinctCut(xs, i);
  }

  /** Appending or prepending a new element keeps a list free of repetitions. */
  lemma DistinctAdd<T>(xs: seq<T>, x: T)
    requires Distinct(xs) && x !in xs
    ensures Distinct(xs + [x]) && Distinct([x] + xs)
  {
    var e, s := xs + [x], [x] + xs;
    forall a, b | 0 <= a < b < |e| ensures e[a] != e[b] {
      if b == |xs| { assert e[a] == xs[a]; }
    }
    forall a, b | 0 <= a < b < |s| ensures s[a] != s[b] {
      if a == 0 { assert s[b] == xs[b - 1]; } else { assert s[a] == xs[a - 1] && s[b] == xs[b - 1]; }
    }
  }

  /** Removing an element that was just appended to a list lacking it gives back that list. */
  lemma {:induction false} RemoveAppended<T>(ys: seq<T>, x: T)
    requires x !in ys
    ensures Remove(ys + [x], x) == ys
  {
    if ys != [] {
      assert (ys + [x])[1..] == ys[1..] + [x];
      RemoveAppended(ys[1..], x);
    }
  }

  /**
   * In a list without repetitions, moving an element to the end twice is
   * the same as moving it once: re-selecting the shape that is already in
   * front changes nothing further.
   */
  lemma MoveToEndIdempotent<T>(xs: seq<T>, x: T)
    requires Distinct(xs) && x in xs
    ensures MoveToEnd(MoveToEnd(xs, x), x) == MoveToEnd(xs, x)
  {
    var i :| 0 <= i < |xs| && xs[i] == x;
    RemoveDistinct(xs, i);
    RemoveAppended(Remove(xs, x), x);
  }
}
