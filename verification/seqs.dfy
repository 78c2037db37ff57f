/**
 * Ordered, duplicate-free collections as the compiler builds them: a
 * sequence that grows by "append unless already present", and its
 * independent characterisation as the first occurrences of the input.
 */
module Seqs {

  /** No element occurs twice. */
  predicate NoDup<T(==)>(xs: seq<T>) {
    forall i, j :: 0 <= i < j < |xs| ==> xs[i] != xs[j]
  }

  /** The index of the first occurrence of `x`. */
  function IndexOf<T(==)>(xs: seq<T>, x: T): (k: nat)
    requires x in xs
    ensures k < |xs| && xs[k] == x && x !in xs[..k]
  {
    if xs[0] == x then 0 else assert xs[1..][..IndexOf(xs[1..], x)] == xs[1..1 + IndexOf(xs[1..], x)]; 1 + IndexOf(xs[1..], x)
  }

  /** Appends `x` unless it is already present (the `if !any(..) { push }` idiom). */
  function AddNew<T(==)>(acc: seq<T>, x: T): seq<T> {
    if x in acc then acc else acc + [x]
  }

  /** Applies `AddNew` to every element of `xs`, in order. */
  function AddAll<T(==)>(acc: seq<T>, xs: seq<T>): seq<T>
    decreases |xs|
  {
    if |xs| == 0 then acc else AddAll(AddNew(acc, xs[0]), xs[1..])
  }

  /** Reference definition: every element of `xs` kept at its first occurrence only. */
  function FirstOccurrences<T(==)>(xs: seq<T>): seq<T>
    decreases |xs|
  {
    if |xs| == 0 then []
    else
      var init := xs[..|xs| - 1];
      var x := xs[|xs| - 1];
      FirstOccurrences(init) + (if x in init then [] else [x])
  }

  /** Every element of `r` occurs in `xs`, and `r` lists them in the order they are first seen in `xs`. */
  predicate FirstSeenOrder<T(==)>(r: seq<T>, xs: seq<T>) {
    && (forall i :: 0 <= i < |r| ==> r[i] in xs)
    && (forall i, j :: 0 <= i < j < |r| ==> r[i] in xs && r[j] in xs && IndexOf(xs, r[i]) < IndexOf(xs, r[j]))
  }

  /** The first occurrence of `x` is the only index `k` with `xs[k] == x` and no `x` before it. */
  lemma IndexOfUnique<T>(xs: seq<T>, x: T, k: nat)
    requires k < |xs| && xs[k] == x && x !in xs[..k]
    ensures IndexOf(xs, x) == k
  {
  }

  /** Appending never moves the first occurrence of an element already present. */
  lemma IndexOfAppend<T>(xs: seq<T>, ys: seq<T>, x: T)
    requires x in xs
    ensures x in xs + ys && IndexOf(xs + ys, x) == IndexOf(xs, x)
  {
    var k := IndexOf(xs, x);
    assert (xs + ys)[k] == x;
    assert (xs + ys)[..k] == xs[..k];
    IndexOfUnique(xs + ys, x, k);
  }

  /** `FirstOccurrences` is duplicate-free, has the same elements as its input, and keeps first-seen order. */
  lemma {:induction false} FirstOccurrencesSpec<T>(xs: seq<T>)
    ensures NoDup(FirstOccurrences(xs))
    ensures forall x :: x in FirstOccurrences(xs) <==> x in xs
    ensures FirstSeenOrder(FirstOccurrences(xs), xs)
    decreases |xs|
  {
    if |xs| > 0 {
      var init := xs[..|xs| - 1];
      var x := xs[|xs| - 1];
      assert xs == init + [x];
      FirstOccurrencesSpec(init);
      var r0 := FirstOccurrences(init);
      var r := FirstOccurrences(xs);
      forall y | y in init
        ensures y in xs && IndexOf(xs, y) == IndexOf(init, y)
      {
        IndexOfAppend(init, [x], y);
      }
      if x !in init {
        assert r == r0 + [x];
        assert IndexOf(xs, x) == |init| by {
          IndexOfUnique(xs, x, |init|);
        }
        forall i, j | 0 <= i < j < |r|
          ensures r[i] in xs && r[j] in xs && IndexOf(xs, r[i]) < IndexOf(xs, r[j])
        {
          if j < |r0| {
            assert r[i] == r0[i] && r[j] == r0[j];
          } else {
            assert r[i] == r0[i] && r[i] in init;
          }
        }
      } else {
        assert r == r0;
      }
    }
  }

  /** `FirstOccurrences` keeps exactly the elements of its input. */
  lemma {:induction false} FirstOccurrencesMembers<T>(xs: seq<T>)
    ensures forall x :: x in FirstOccurrences(xs) <==> x in xs
    decreases |xs|
  {
    if |xs| > 0 {
      var init := xs[..|xs| - 1];
      assert xs == init + [xs[|xs| - 1]];
      FirstOccurrencesMembers(init);
    }
  }

  /** Growing a first-occurrence list with `AddNew` yields the first occurrences of the longer input. */
  lemma {:induction false} AddAllIsFirstOccurrences<T>(prefix: seq<T>, xs: seq<T>)
    ensures AddAll(FirstOccurrences(prefix), xs) == FirstOccurrences(prefix + xs)
    decreases |xs|
  {
    if |xs| == 0 {
      assert prefix + xs == prefix;
    } else {
      var x := xs[0];
      var p' := prefix + [x];
      FirstOccurrencesMembers(prefix);
      assert p'[..|p'| - 1] == prefix && p'[|p'| - 1] == x;
      assert FirstOccurrences(p') == FirstOccurrences(prefix) + (if x in prefix then [] else [x]);
      assert AddNew(FirstOccurrences(prefix), x) == FirstOccurrences(p');
      AddAllIsFirstOccurrences(p', xs[1..]);
      assert p' + xs[1..] == prefix + xs;
    }
  }

  /** The "append unless present" fold from empty builds exactly the first occurrences. */
  lemma AddAllFromEmpty<T>(xs: seq<T>)
    ensures AddAll([], xs) == FirstOccurrences(xs)
    ensures NoDup(AddAll([], xs))
    ensures forall x :: x in AddAll([], xs) <==> x in xs
    ensures FirstSeenOrder(AddAll([], xs), xs)
  {
    assert FirstOccurrences<T>([]) == [];
    AddAllIsFirstOccurrences([], xs);
    assert [] + xs == xs;
    FirstOccurrencesSpec(xs);
  }

  /** The first element seen is listed first. */
  lemma FirstSeenOrderHead<T>(r: seq<T>, xs: seq<T>)
    requires FirstSeenOrder(r, xs)
    ensures |xs| > 0 && xs[0] in r ==> r[0] == xs[0]
  {
    if |xs| > 0 {
      assert IndexOf(xs, xs[0]) == 0;
      forall k | 0 < k < |r|
        ensures r[k] != xs[0]
      {
        assert IndexOf(xs, r[0]) < IndexOf(xs, r[k]);
      }
    }
  }

  /** Folding over a concatenation is folding over each part in turn. */
  lemma {:induction false} AddAllConcat<T>(acc: seq<T>, xs: seq<T>, ys: seq<T>)
    ensures AddAll(acc, xs + ys) == AddAll(AddAll(acc, xs), ys)
    decreases |xs|
  {
    if |xs| == 0 {
      assert xs + ys == ys;
    } else {
      assert (xs + ys)[1..] == xs[1..] + ys;
      AddAllConcat(AddNew(acc, xs[0]), xs[1..], ys);
    }
  }

  /** Two duplicate-free lists that are disjoint concatenate to a duplicate-free list. */
  lemma NoDupConcat<T>(xs: seq<T>, ys: seq<T>)
    requires NoDup(xs) && NoDup(ys)
    requires forall x :: x in xs ==> x !in ys
    ensures NoDup(xs + ys)
  {
    forall i, j | 0 <= i < j < |xs + ys|
      ensures (xs + ys)[i] != (xs + ys)[j]
    {
      if i < |xs| && j >= |xs| {
        assert (xs + ys)[i] in xs && (xs + ys)[j] == ys[j - |xs|];
      }
    }
  }

  /** A duplicate-free concatenation has duplicate-free, disjoint parts. */
  lemma NoDupSplit<T>(xs: seq<T>, ys: seq<T>)
    requires NoDup(xs + ys)
    ensures NoDup(xs) && NoDup(ys)
    ensures forall x :: x in xs ==> x !in ys
  {
    forall i, j | 0 <= i < j < |xs|
      ensures xs[i] != xs[j]
    {
      assert (xs + ys)[i] == xs[i] && (xs + ys)[j] == xs[j];
    }
    forall i, j | 0 <= i < j < |ys|
      ensures ys[i] != ys[j]
    {
      assert (xs + ys)[|xs| + i] == ys[i] && (xs + ys)[|xs| + j] == ys[j];
    }
    forall x, j | x in xs && 0 <= j < |ys|
      ensures ys[j] != x
    {
      var i :| 0 <= i < |xs| && xs[i] == x;
      assert (xs + ys)[i] == x && (xs + ys)[|xs| + j] == ys[j];
    }
  }

  lemma AppendAssoc<T>(a: seq<T>, b: seq<T>, c: seq<T>)
    ensures a + (b + c) == (a + b) + c
  {
  }
}
