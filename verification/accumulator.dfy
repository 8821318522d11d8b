/**
 The per-person posterior accumulator (`probabilities` in heredity.py):
 for every person a three-bucket gene-count tally and a two-bucket trait
 tally, updated once per enumerated hypothesis (`update`) and rescaled once
 at the end (`normalize`).
 */
module Accumulator {
  import opened Probs
  import opened Family
  import opened Powerset
  import opened Evaluator

  /** Three buckets, indexed by `Slot`. */
  type Triple = s: seq<real> | |s| == 3 witness [0.0, 0.0, 0.0]

  /** Two buckets: index 0 for the trait present, 1 for absent. */
  type Pair = s: seq<real> | |s| == 2 witness [0.0, 0.0]

  /** The bucket that holds gene count `g`. */
  function Slot(g: Copies): (i: nat)
    ensures i < 3
  {
    match g
    case Zero => 0
    case One => 1
    case Two => 2
  }

  /** A tally over gene counts 0, 1 and 2 (the `"gene"` dictionary of one
      person). */
  datatype GeneDist = GeneDist(buckets: Triple) {

    function At(g: Copies): real {
      buckets[Slot(g)]
    }

    function Total(): real {
      buckets[0] + buckets[1] + buckets[2]
    }

    predicate NonNegative() {
      0.0 <= buckets[0] && 0.0 <= buckets[1] && 0.0 <= buckets[2]
    }

    /** A tally with every bucket at zero totals zero. */
    lemma AllZero()
      requires forall g :: At(g) == 0.0
      ensures Total() == 0.0 && NonNegative()
    {
      assert At(Zero) == 0.0 && At(One) == 0.0 && At(Two) == 0.0;
    }

    /** The tally with `p` added to the bucket of `g` only. */
    function Add(g: Copies, p: real): (r: GeneDist)
      ensures forall h :: r.At(h) == At(h) + (if h == g then p else 0.0)
      ensures r.Total() == Total() + p
    {
      var i := Slot(g);
      GeneDist(buckets[i := buckets[i] + p])
    }

    /** Every bucket scaled by the reciprocal of the total. */
    function Normalized(): (r: GeneDist)
      requires Total() != 0.0
      ensures forall g :: r.At(g) == At(g) / Total()
      ensures r.Total() == 1.0
      ensures NonNegative() ==> forall g :: 0.0 <= r.At(g) <= 1.0
    {
      var s := Total();
      var k := 1.0 / s;
      var r := GeneDist([buckets[0] * k, buckets[1] * k, buckets[2] * k]);
      assert r.Total() == 1.0 by {
        ScaledSum(buckets[0], buckets[1], buckets[2], k);
        Reciprocal(s);
      }
      assert forall g :: r.At(g) == At(g) / s by {
        forall g
          ensures r.At(g) == At(g) / s
        {
          Quotient(At(g), s);
        }
      }
      assert NonNegative() ==> forall g :: 0.0 <= r.At(g) <= 1.0 by {
        if NonNegative() {
          forall g
            ensures 0.0 <= r.At(g) <= 1.0
          {
            UnitQuotient(At(g), s);
          }
        }
      }
      r
    }
  }

  /** A tally over the trait being present or absent (the `"trait"`
      dictionary of one person). */
  datatype TraitDist = TraitDist(buckets: Pair) {

    function At(b: bool): real {
      if b then buckets[0] else buckets[1]
    }

    function Total(): real {
      buckets[0] + buckets[1]
    }

    predicate NonNegative() {
      0.0 <= buckets[0] && 0.0 <= buckets[1]
    }

    /** A tally with both buckets at zero totals zero. */
    lemma AllZero()
      requires forall b :: At(b) == 0.0
      ensures Total() == 0.0 && NonNegative()
    {
      assert At(true) == 0.0 && At(false) == 0.0;
    }

    /** In a distribution, a value with probability 0 leaves probability 1
        to the other value. */
    lemma Certain(v: bool)
      requires Total() == 1.0 && At(!v) == 0.0
      ensures At(v) == 1.0
    {
    }

    /** The tally with `p` added to the bucket of `b` only. */
    function Add(b: bool, p: real): (r: TraitDist)
      ensures forall c :: r.At(c) == At(c) + (if c == b then p else 0.0)
      ensures r.Total() == Total() + p
    {
      var i := if b then 0 else 1;
      TraitDist(buckets[i := buckets[i] + p])
    }

    /** Both buckets scaled by the reciprocal of the total. */
    function Normalized(): (r: TraitDist)
      requires Total() != 0.0
      ensures forall b :: r.At(b) == At(b) / Total()
      ensures r.Total() == 1.0
      ensures NonNegative() ==> forall b :: 0.0 <= r.At(b) <= 1.0
    {
      var s := Total();
      var k := 1.0 / s;
      var r := TraitDist([buckets[0] * k, buckets[1] * k]);
      assert r.Total() == 1.0 by {
        ScaledSum(buckets[0], buckets[1], 0.0, k);
        Reciprocal(s);
      }
      Quotient(buckets[0], s);
      Quotient(buckets[1], s);
      assert NonNegative() ==> 0.0 <= r.buckets[0] <= 1.0 && 0.0 <= r.buckets[1] <= 1.0 by {
        if NonNegative() {
          UnitQuotient(buckets[0], s);
          UnitQuotient(buckets[1], s);
        }
      }
      r
    }
  }

  lemma ScaledSum(a: real, b: real, c: real, k: real)
    ensures a * k + b * k + c * k == (a + b + c) * k
  {
  }

  lemma Reciprocal(s: real)
    requires s != 0.0
    ensures (1.0 / s) * s == 1.0 && s * (1.0 / s) == 1.0
  {
  }

  lemma ZeroQuotient(x: real, s: real)
    requires x == 0.0 && s != 0.0
    ensures x / s == 0.0
  {
  }

  lemma Quotient(x: real, s: real)
    requires s != 0.0
    ensures x * (1.0 / s) == x / s
  {
  }

  lemma SameQuotient(x: real, s: real, y: real, t: real)
    requires x == y && s == t && s != 0.0
    ensures x / s == y / t
  {
  }

  /** A part of a non-negative total, divided by that total, is in [0,1]. */
  lemma UnitQuotient(x: real, s: real)
    requires 0.0 <= x <= s && 0.0 < s
    ensures 0.0 <= x * (1.0 / s) <= 1.0
  {
    var k := 1.0 / s;
    assert s * k == 1.0;
    assert x * k <= s * k by {
      MulNonNegative(s - x, k);
      assert (s - x) * k == s * k - x * k;
    }
    MulNonNegative(x, k);
  }

  /** A trait tally with no mass on one side normalizes to certainty on the
      other side. */
  lemma CertainStaysCertain(d: TraitDist, v: bool)
    requires d.At(!v) == 0.0 && d.Total() != 0.0
    ensures d.Normalized().At(v) == 1.0 && d.Normalized().At(!v) == 0.0
  {
    var e := d.Normalized();
    assert e.At(!v) == 0.0 / d.Total();
    assert e.Total() == e.At(v) + e.At(!v);
  }

  datatype Dist = Dist(gene: GeneDist, traits: TraitDist)

  type Table = map<Name, Dist>

  /** Every bucket of every person in `t` is zero. */
  predicate Zeroed(t: Table) {
    && (forall n, g :: n in t ==> t[n].gene.At(g) == 0.0)
    && (forall n, b :: n in t ==> t[n].traits.At(b) == 0.0)
  }

  /** Every person of `names` with all five buckets at zero. */
  function Blank(names: seq<Name>): (t: Table)
    ensures t.Keys == Elems(names)
    ensures Zeroed(t)
  {
    map n | n in names :: Dist(GeneDist([0.0, 0.0, 0.0]), TraitDist([0.0, 0.0]))
  }

  /** Adds the probability `p` of hypothesis `w` to every person's tallies:
      to the gene bucket of the count `w` assigns them and to the trait
      bucket of whether `w` gives them the trait. The other buckets keep
      their values and no person is added or dropped. */
  function Update(acc: Table, w: World, p: real): (r: Table)
    ensures r.Keys == acc.Keys
    ensures forall n, g :: n in r ==>
      r[n].gene.At(g) == acc[n].gene.At(g) + (if g == CopiesOf(w, n) then p else 0.0)
    ensures forall n, b :: n in r ==>
      r[n].traits.At(b) == acc[n].traits.At(b) + (if b == (n in w.haveTrait) then p else 0.0)
    ensures forall n :: n in r ==>
      r[n].gene.Total() == acc[n].gene.Total() + p && r[n].traits.Total() == acc[n].traits.Total() + p
  {
    map n | n in acc :: Dist(acc[n].gene.Add(CopiesOf(w, n), p), acc[n].traits.Add(n in w.haveTrait, p))
  }

  /** A hypothesis together with its joint probability. */
  datatype Weighed = Weighed(world: World, p: real)

  /** Feeds every weighed hypothesis of `ss`, in order, into the tallies. */
  function Accumulate(acc: Table, ss: seq<Weighed>): (r: Table)
    ensures r.Keys == acc.Keys
    decreases |ss|
  {
    if ss == [] then acc
    else Accumulate(Update(acc, ss[0].world, ss[0].p), ss[1..])
  }

  /** The total probability of `ss`. */
  function Mass(ss: seq<Weighed>): real
    decreases |ss|
  {
    if ss == [] then 0.0 else ss[0].p + Mass(ss[1..])
  }

  /** The total probability of those hypotheses of `ss` that give `n`
      exactly `g` copies. */
  function GeneMass(ss: seq<Weighed>, n: Name, g: Copies): real
    decreases |ss|
  {
    if ss == [] then 0.0
    else
      var here := if CopiesOf(ss[0].world, n) == g then ss[0].p else 0.0;
      here + GeneMass(ss[1..], n, g)
  }

  /** The total probability of those hypotheses of `ss` in which `n` shows
      the trait (`b`) or does not (`!b`). */
  function TraitMass(ss: seq<Weighed>, n: Name, b: bool): real
    decreases |ss|
  {
    if ss == [] then 0.0
    else
      var here := if (n in ss[0].world.haveTrait) == b then ss[0].p else 0.0;
      here + TraitMass(ss[1..], n, b)
  }

  /** No probability in `ss` is negative. */
  predicate AllNonNegative(ss: seq<Weighed>) {
    forall i :: 0 <= i < |ss| ==> 0.0 <= ss[i].p
  }

  /** Accumulation computes marginals: after feeding `ss`, each bucket of a
      person has grown by exactly the probability of the hypotheses that
      put the person in that bucket, and each of the person's two tallies
      has grown by the probability of all of `ss`. */
  lemma {:induction false} AccumulateMarginals(acc: Table, ss: seq<Weighed>, n: Name)
    requires n in acc
    ensures forall g :: Accumulate(acc, ss)[n].gene.At(g) == acc[n].gene.At(g) + GeneMass(ss, n, g)
    ensures forall b :: Accumulate(acc, ss)[n].traits.At(b) == acc[n].traits.At(b) + TraitMass(ss, n, b)
    ensures Accumulate(acc, ss)[n].gene.Total() == acc[n].gene.Total() + Mass(ss)
    ensures Accumulate(acc, ss)[n].traits.Total() == acc[n].traits.Total() + Mass(ss)
    decreases |ss|
  {
    if ss != [] {
      AccumulateMarginals(Update(acc, ss[0].world, ss[0].p), ss[1..], n);
    }
  }

  /** Conservation: starting from all-zero tallies, every person's gene
      total and trait total both equal the probability fed in so far. */
  lemma AccumulateConserves(z: Table, ss: seq<Weighed>, n: Name)
    requires Zeroed(z) && n in z
    ensures Accumulate(z, ss)[n].gene.Total() == Mass(ss)
    ensures Accumulate(z, ss)[n].traits.Total() == Mass(ss)
  {
    AccumulateMarginals(z, ss, n);
    z[n].gene.AllZero();
    z[n].traits.AllZero();
  }

  /** Starting from zero, every bucket holds exactly the probability of the
      hypotheses that put the person in it. */
  lemma AccumulateFromZero(z: Table, ss: seq<Weighed>, n: Name)
    requires Zeroed(z) && n in z
    ensures forall g :: Accumulate(z, ss)[n].gene.At(g) == GeneMass(ss, n, g)
    ensures forall b :: Accumulate(z, ss)[n].traits.At(b) == TraitMass(ss, n, b)
  {
    AccumulateMarginals(z, ss, n);
  }

  /** A bucket no hypothesis of `ss` reaches gets no mass: if every
      hypothesis puts `n` on the `!b` side of the trait, the `b` side
      receives nothing. */
  lemma {:induction false} TraitMassUnreached(ss: seq<Weighed>, n: Name, b: bool)
    requires forall i :: 0 <= i < |ss| ==> (n in ss[i].world.haveTrait) != b
    ensures TraitMass(ss, n, b) == 0.0
    decreases |ss|
  {
    if ss != [] {
      assert (n in ss[0].world.haveTrait) != b;
      TraitMassUnreached(ss[1..], n, b);
    }
  }

  /** Accumulating non-negative probabilities keeps non-negative tallies
      non-negative. */
  lemma {:induction false} AccumulateKeepsNonNegative(acc: Table, ss: seq<Weighed>, n: Name)
    requires AllNonNegative(ss)
    requires n in acc && acc[n].gene.NonNegative() && acc[n].traits.NonNegative()
    ensures Accumulate(acc, ss)[n].gene.NonNegative()
    ensures Accumulate(acc, ss)[n].traits.NonNegative()
    decreases |ss|
  {
    if ss != [] {
      var next := Update(acc, ss[0].world, ss[0].p);
      var d, e := acc[n], next[n];
      assert 0.0 <= ss[0].p;
      assert e.gene.At(Zero) >= d.gene.At(Zero);
      assert e.gene.At(One) >= d.gene.At(One);
      assert e.gene.At(Two) >= d.gene.At(Two);
      assert e.traits.At(true) >= d.traits.At(true);
      assert e.traits.At(false) >= d.traits.At(false);
      assert AllNonNegative(ss[1..]) by {
        forall i | 0 <= i < |ss[1..]|
          ensures 0.0 <= ss[1..][i].p
        {
          assert ss[1..][i] == ss[i + 1];
        }
      }
      AccumulateKeepsNonNegative(next, ss[1..], n);
    }
  }

  /** Starting from zero, every bucket stays non-negative. */
  lemma AccumulateFromZeroNonNegative(z: Table, ss: seq<Weighed>, n: Name)
    requires AllNonNegative(ss)
    requires Zeroed(z) && n in z
    ensures Accumulate(z, ss)[n].gene.NonNegative()
    ensures Accumulate(z, ss)[n].traits.NonNegative()
  {
    z[n].gene.AllZero();
    z[n].traits.AllZero();
    AccumulateKeepsNonNegative(z, ss, n);
  }

  /** A non-empty list of hypotheses of positive probability has positive
      mass. */
  lemma {:induction false} MassPositive(ss: seq<Weighed>)
    requires ss != []
    requires forall i :: 0 <= i < |ss| ==> 0.0 < ss[i].p
    ensures Mass(ss) > 0.0
    decreases |ss|
  {
    assert 0.0 < ss[0].p;
    if ss[1..] != [] {
      assert forall i :: 0 <= i < |ss[1..]| ==> ss[1..][i] == ss[i + 1];
      MassPositive(ss[1..]);
    }
  }

  /** Once hypotheses of non-negative probability and positive total have
      been fed in from zero, every person's tallies are non-negative with a
      positive total, so the normalization never divides by zero. */
  lemma TalliesReady(z: Table, ss: seq<Weighed>)
    requires AllNonNegative(ss)
    requires Mass(ss) > 0.0
    requires Zeroed(z)
    ensures forall n :: n in Accumulate(z, ss) ==>
              && Accumulate(z, ss)[n].gene.Total() > 0.0
              && Accumulate(z, ss)[n].traits.Total() > 0.0
              && Accumulate(z, ss)[n].gene.NonNegative()
              && Accumulate(z, ss)[n].traits.NonNegative()
  {
    var acc := Accumulate(z, ss);
    forall n | n in acc
      ensures acc[n].gene.Total() > 0.0 && acc[n].traits.Total() > 0.0
      ensures acc[n].gene.NonNegative() && acc[n].traits.NonNegative()
    {
      AccumulateConserves(z, ss, n);
      AccumulateFromZeroNonNegative(z, ss, n);
    }
  }

  /** Rescales every person's two tallies so that each sums to 1. The
      division by a zero total that the source would attempt is ruled out
      by the precondition. */
  function Normalize(acc: Table): (r: Table)
    requires forall n :: n in acc ==> acc[n].gene.Total() != 0.0 && acc[n].traits.Total() != 0.0
    ensures r.Keys == acc.Keys
    ensures forall n :: n in r ==> r[n].gene.Total() == 1.0 && r[n].traits.Total() == 1.0
    ensures forall n, g :: n in r ==> r[n].gene.At(g) == acc[n].gene.At(g) / acc[n].gene.Total()
    ensures forall n, b :: n in r ==> r[n].traits.At(b) == acc[n].traits.At(b) / acc[n].traits.Total()
    ensures forall n, g :: n in r && acc[n].gene.NonNegative() ==> 0.0 <= r[n].gene.At(g) <= 1.0
    ensures forall n, b :: n in r && acc[n].traits.NonNegative() ==> 0.0 <= r[n].traits.At(b) <= 1.0
  {
    map n | n in acc :: Dist(acc[n].gene.Normalized(), acc[n].traits.Normalized())
  }

  /** Tallies that already sum to 1 are left exactly as they are. */
  lemma NormalizeFixesDistributions(acc: Table)
    requires forall n :: n in acc ==> acc[n].gene.Total() == 1.0 && acc[n].traits.Total() == 1.0
    ensures Normalize(acc) == acc
  {
    var r := Normalize(acc);
    forall n | n in acc
      ensures r[n] == acc[n]
    {
      var d, e := acc[n].gene, r[n].gene;
      assert e.At(Zero) == d.At(Zero) && e.At(One) == d.At(One) && e.At(Two) == d.At(Two);
      var t, u := acc[n].traits, r[n].traits;
      assert u.At(true) == t.At(true) && u.At(false) == t.At(false);
    }
  }

  /** Normalizing twice is the same as normalizing once. */
  lemma NormalizeIdempotent(acc: Table)
    requires forall n :: n in acc ==> acc[n].gene.Total() != 0.0 && acc[n].traits.Total() != 0.0
    ensures Normalize(Normalize(acc)) == Normalize(acc)
  {
    NormalizeFixesDistributions(Normalize(acc));
  }

  /** A person's tallies whose buckets hold the masses of `ss` normalize to
      conditional probabilities: bucket mass over total mass. */
  lemma TallyQuotients(d: Dist, ss: seq<Weighed>, n: Name)
    requires Mass(ss) > 0.0
    requires d.gene.Total() == Mass(ss) && d.traits.Total() == Mass(ss)
    requires forall g :: d.gene.At(g) == GeneMass(ss, n, g)
    requires forall b :: d.traits.At(b) == TraitMass(ss, n, b)
    ensures forall g :: d.gene.Normalized().At(g) == GeneMass(ss, n, g) / Mass(ss)
    ensures forall b :: d.traits.Normalized().At(b) == TraitMass(ss, n, b) / Mass(ss)
  {
    var mass := Mass(ss);
    forall g
      ensures d.gene.Normalized().At(g) == GeneMass(ss, n, g) / mass
    {
      SameQuotient(d.gene.At(g), d.gene.Total(), GeneMass(ss, n, g), mass);
    }
    forall b
      ensures d.traits.Normalized().At(b) == TraitMass(ss, n, b) / mass
    {
      SameQuotient(d.traits.At(b), d.traits.Total(), TraitMass(ss, n, b), mass);
    }
  }

  /** The posterior of a list of weighed hypotheses: feed them all into
      zeroed tallies, then normalize. Every person ends with a gene
      distribution and a trait distribution that each sum to 1, with values
      in [0,1], and each value is a conditional probability: the mass of the
      hypotheses that put the person in that bucket over the mass of all the
      hypotheses. */
  function Posterior(names: seq<Name>, ss: seq<Weighed>): (r: Table)
    requires AllNonNegative(ss)
    requires Mass(ss) > 0.0
    ensures r.Keys == Elems(names)
    ensures forall n :: n in r ==> r[n].gene.Total() == 1.0 && r[n].traits.Total() == 1.0
    ensures forall n, g :: n in r ==> 0.0 <= r[n].gene.At(g) <= 1.0
    ensures forall n, b :: n in r ==> 0.0 <= r[n].traits.At(b) <= 1.0
    ensures forall n, g :: n in r ==> r[n].gene.At(g) == GeneMass(ss, n, g) / Mass(ss)
    ensures forall n, b :: n in r ==> r[n].traits.At(b) == TraitMass(ss, n, b) / Mass(ss)
  {
    var z := Blank(names);
    var acc := Accumulate(z, ss);
    TalliesReady(z, ss);
    var r := Normalize(acc);
    forall n | n in r
      ensures forall g :: r[n].gene.At(g) == GeneMass(ss, n, g) / Mass(ss)
      ensures forall b :: r[n].traits.At(b) == TraitMass(ss, n, b) / Mass(ss)
    {
      AccumulateConserves(z, ss, n);
      AccumulateFromZero(z, ss, n);
      TallyQuotients(acc[n], ss, n);
    }
    r
  }
}
