/**
 Enumeration of every subset of a collection (`powerset` in heredity.py).
 The source lists the subsets by size through `itertools.combinations`;
 the model lists them by including or excluding the first element. The two
 lists hold the same subsets in a different order, and the order is never
 observed: the subsets are only visited and their contributions summed.
 */
module Powerset {

  /** The elements of a sequence, as a set. */
  function Elems<T>(xs: seq<T>): set<T> {
    set x | x in xs
  }

  /** No element occurs twice in `xs` (stated recursively). */
  predicate Distinct<T(==)>(xs: seq<T>) {
    xs == [] || (xs[0] !in xs[1..] && Distinct(xs[1..]))
  }

  /** No two positions of `xs` hold the same element. */
  predicate NoRepeats<T(==)>(xs: seq<T>) {
    forall i, j :: 0 <= i < j < |xs| ==> xs[i] != xs[j]
  }

  function Pow2(n: nat): nat {
    if n == 0 then 1 else 2 * Pow2(n - 1)
  }

  /** Every subset of the elements of `xs`: 2^|xs| entries, each a subset. */
  function Subsets<T>(xs: seq<T>): (r: seq<set<T>>)
    ensures |r| == Pow2(|xs|)
    ensures forall t :: t in r ==> t <= Elems(xs)
    decreases |xs|
  {
    if xs == [] then [{}]
    else
      var rest := Subsets(xs[1..]);
      var withFirst := seq(|rest|, i requires 0 <= i < |rest| => rest[i] + {xs[0]});
      ElemsCons(xs);
      assert forall t :: t in withFirst ==> t <= Elems(xs) by {
        forall t | t in withFirst
          ensures t <= Elems(xs)
        {
          var i :| 0 <= i < |withFirst| && withFirst[i] == t;
          assert rest[i] in rest;
        }
      }
      rest + withFirst
  }

  /** The elements of `xs` outside `s`, in their original order
      (`names - one_gene` turned back into a list). */
  function Without<T>(xs: seq<T>, s: set<T>): (r: seq<T>)
    ensures Elems(r) == Elems(xs) - s
    ensures |r| <= |xs|
  {
    if xs == [] then []
    else
      ElemsCons(xs);
      var tail := Without(xs[1..], s);
      if xs[0] in s then tail
      else
        ElemsCons([xs[0]] + tail);
        assert ([xs[0]] + tail)[1..] == tail;
        [xs[0]] + tail
  }

  lemma ElemsCons<T>(xs: seq<T>)
    requires xs != []
    ensures Elems(xs) == {xs[0]} + Elems(xs[1..])
  {
    assert xs == [xs[0]] + xs[1..];
  }

  /** Each subset of the tail is enumerated both without and with the
      head. */
  lemma SubsetsStep<T>(xs: seq<T>, t: set<T>)
    requires xs != []
    requires t in Subsets(xs[1..])
    ensures t in Subsets(xs) && t + {xs[0]} in Subsets(xs)
  {
    var rest := Subsets(xs[1..]);
    var i :| 0 <= i < |rest| && rest[i] == t;
    assert Subsets(xs)[i] == t;
    assert Subsets(xs)[|rest| + i] == t + {xs[0]};
  }

  /** Every subset of the elements of `xs` is enumerated. */
  lemma {:induction false} SubsetsComplete<T>(xs: seq<T>, t: set<T>)
    requires t <= Elems(xs)
    ensures t in Subsets(xs)
    decreases |xs|
  {
    if xs == [] {
      assert t == {};
    } else {
      var x := xs[0];
      ElemsCons(xs);
      if x in t {
        SubsetsComplete(xs[1..], t - {x});
        SubsetsStep(xs, t - {x});
        assert t - {x} + {x} == t;
      } else {
        SubsetsComplete(xs[1..], t);
        SubsetsStep(xs, t);
      }
    }
  }

  /** A set is enumerated exactly when it is a subset: in particular the
      empty set and the whole collection both appear. */
  lemma SubsetsExactly<T>(xs: seq<T>, t: set<T>)
    ensures t in Subsets(xs) <==> t <= Elems(xs)
  {
    if t <= Elems(xs) {
      SubsetsComplete(xs, t);
    }
  }

  /** Removing elements keeps a list free of repetitions. */
  lemma {:induction false} WithoutDistinct<T>(xs: seq<T>, s: set<T>)
    requires Distinct(xs)
    ensures Distinct(Without(xs, s))
  {
    if xs != [] {
      WithoutDistinct(xs[1..], s);
      var tail := Without(xs[1..], s);
      if xs[0] !in s {
        assert xs[0] !in Elems(tail);
        assert ([xs[0]] + tail)[1..] == tail;
      }
    }
  }

  /** A list without repetitions does not repeat its head, and neither
      does its tail. */
  lemma NoRepeatsTail<T>(xs: seq<T>)
    requires xs != [] && NoRepeats(xs)
    ensures xs[0] !in xs[1..] && NoRepeats(xs[1..])
  {
  }

  /** Concatenating two lists without repetitions that share no element
      gives a list without repetitions. */
  lemma NoRepeatsConcat<T>(a: seq<T>, b: seq<T>)
    requires NoRepeats(a) && NoRepeats(b)
    requires forall x :: x in a ==> x !in b
    ensures NoRepeats(a + b)
  {
    var c := a + b;
    forall i, j | 0 <= i < j < |c|
      ensures c[i] != c[j]
    {
      if j < |a| {
        assert c[i] == a[i] && c[j] == a[j];
      } else if i >= |a| {
        assert c[i] == b[i - |a|] && c[j] == b[j - |a|];
      } else {
        assert c[i] == a[i] && c[j] == b[j - |a|];
        assert a[i] in a;
      }
    }
  }

  /** When the input lists each element once, so does the enumeration of
      its subsets: every subset appears exactly once, as with `powerset`
      over a set. */
  lemma {:induction false} SubsetsUnique<T>(xs: seq<T>)
    requires Distinct(xs)
    ensures NoRepeats(Subsets(xs))
    decreases |xs|
  {
    if xs != [] {
      var x := xs[0];
      var rest := Subsets(xs[1..]);
      var withFirst := seq(|rest|, i requires 0 <= i < |rest| => rest[i] + {x});
      SubsetsUnique(xs[1..]);
      assert Subsets(xs) == rest + withFirst;
      assert forall i :: 0 <= i < |rest| ==> x !in rest[i] by {
        forall i | 0 <= i < |rest|
          ensures x !in rest[i]
        {
          assert rest[i] in rest;
          assert rest[i] <= Elems(xs[1..]);
        }
      }
      forall i, j | 0 <= i < j < |withFirst|
        ensures withFirst[i] != withFirst[j]
      {
        assert withFirst[i] - {x} == rest[i];
        assert withFirst[j] - {x} == rest[j];
      }
      forall t | t in rest
        ensures t !in withFirst
      {
        var i :| 0 <= i < |rest| && rest[i] == t;
        assert x !in t;
      }
      NoRepeatsConcat(rest, withFirst);
    }
  }
}
