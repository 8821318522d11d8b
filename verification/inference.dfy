/**
 The driver of the inference (`main` in heredity.py, without its I/O):
 every candidate trait set that agrees with the observed traits is paired
 with every gene assignment whose two-copy set is drawn from the people
 outside the one-copy set; each resulting hypothesis is weighed by its
 joint probability and accumulated, and the tallies are normalized once at
 the end.
 */
module Inference {
  import opened Optional
  import opened Probs
  import opened Family
  import opened Powerset
  import opened Evaluator
  import opened Accumulator

  /** True when some person of `names` has an observed trait that the
      candidate trait set `t` contradicts. */
  function FailsEvidence(people: map<Name, Person>, names: seq<Name>, t: set<Name>): (r: bool)
    requires forall n :: n in names ==> n in people
    ensures r <==> exists n :: n in names && people[n].observed.Some? && people[n].observed.value != (n in t)
    decreases |names|
  {
    if names == [] then false
    else
      var n := names[0];
      var p := people[n];
      assert forall m :: m in names ==> m == n || m in names[1..];
      (p.observed.Some? && p.observed.value != (n in t)) || FailsEvidence(people, names[1..], t)
  }

  /** Trait set `t` agrees with the evidence: every person whose trait was
      observed is in `t` exactly when the observation is `true`. */
  predicate Agrees(fam: Family, t: set<Name>) {
    forall n :: n in fam.people && fam.people[n].observed.Some? ==> (fam.people[n].observed.value <==> n in t)
  }

  /** A trait set survives the evidence filter exactly when it agrees with
      every observation. */
  lemma EvidenceFilter(fam: Family, t: set<Name>)
    requires fam.Valid()
    ensures !FailsEvidence(fam.people, fam.names, t) <==> Agrees(fam, t)
  {
  }

  /** Every two-copy set `twos` paired with the one-copy set `one` and the
      trait set `t`. */
  function PairWith(one: set<Name>, twos: seq<set<Name>>, t: set<Name>): (ws: seq<World>)
    ensures |ws| == |twos|
  {
    seq(|twos|, i requires 0 <= i < |twos| => World(one, twos[i], t))
  }

  lemma PairWithMembers(one: set<Name>, twos: seq<set<Name>>, t: set<Name>, w: World)
    ensures w in PairWith(one, twos, t) <==> w.oneGene == one && w.haveTrait == t && w.twoGenes in twos
  {
    var ws := PairWith(one, twos, t);
    if w.oneGene == one && w.haveTrait == t && w.twoGenes in twos {
      var i :| 0 <= i < |twos| && twos[i] == w.twoGenes;
      assert ws[i] == w;
    }
  }

  /** The gene assignments of the inner loops, for trait set `t`: for each
      one-copy set of `ones`, every subset of the remaining people as the
      two-copy set. */
  function GeneWorlds(ones: seq<set<Name>>, names: seq<Name>, t: set<Name>): seq<World>
    decreases |ones|
  {
    if ones == [] then []
    else PairWith(ones[0], Subsets(Without(names, ones[0])), t) + GeneWorlds(ones[1..], names, t)
  }

  lemma {:induction false} GeneWorldsMembers(ones: seq<set<Name>>, names: seq<Name>, t: set<Name>, w: World)
    ensures w in GeneWorlds(ones, names, t) <==>
              w.haveTrait == t && w.oneGene in ones && w.twoGenes in Subsets(Without(names, w.oneGene))
    decreases |ones|
  {
    if ones != [] {
      PairWithMembers(ones[0], Subsets(Without(names, ones[0])), t, w);
      GeneWorldsMembers(ones[1..], names, t, w);
      assert forall s :: s in ones <==> s == ones[0] || s in ones[1..] by {
        assert ones == [ones[0]] + ones[1..];
      }
    }
  }

  /** The outer loop: each candidate trait set of `traits` that passes the
      evidence filter, followed by all its gene assignments. */
  function TraitWorlds(fam: Family, traits: seq<set<Name>>): seq<World>
    requires fam.Valid()
    decreases |traits|
  {
    if traits == [] then []
    else
      var here := if FailsEvidence(fam.people, fam.names, traits[0]) then []
                  else GeneWorlds(Subsets(fam.names), fam.names, traits[0]);
      here + TraitWorlds(fam, traits[1..])
  }

  lemma {:induction false} TraitWorldsMembers(fam: Family, traits: seq<set<Name>>, w: World)
    requires fam.Valid()
    ensures w in TraitWorlds(fam, traits) <==>
              && w.haveTrait in traits
              && !FailsEvidence(fam.people, fam.names, w.haveTrait)
              && w.oneGene in Subsets(fam.names)
              && w.twoGenes in Subsets(Without(fam.names, w.oneGene))
    decreases |traits|
  {
    if traits != [] {
      GeneWorldsMembers(Subsets(fam.names), fam.names, traits[0], w);
      TraitWorldsMembers(fam, traits[1..], w);
      assert forall s :: s in traits <==> s == traits[0] || s in traits[1..] by {
        assert traits == [traits[0]] + traits[1..];
      }
    }
  }

  /** Every hypothesis the three nested loops visit, in visiting order. */
  function Hypotheses(fam: Family): seq<World>
    requires fam.Valid()
  {
    TraitWorlds(fam, Subsets(fam.names))
  }

  /** Different two-copy sets give different hypotheses. */
  lemma PairWithUnique(one: set<Name>, twos: seq<set<Name>>, t: set<Name>)
    requires NoRepeats(twos)
    ensures NoRepeats(PairWith(one, twos, t))
  {
  }

  /** The two gene loops visit no hypothesis twice when the one-copy sets
      are all different and no person is listed twice. */
  lemma {:induction false} GeneWorldsUnique(ones: seq<set<Name>>, names: seq<Name>, t: set<Name>)
    requires NoRepeats(ones) && Distinct(names)
    ensures NoRepeats(GeneWorlds(ones, names, t))
    decreases |ones|
  {
    if ones != [] {
      var twos := Subsets(Without(names, ones[0]));
      var block := PairWith(ones[0], twos, t);
      var later := GeneWorlds(ones[1..], names, t);
      WithoutDistinct(names, ones[0]);
      SubsetsUnique(Without(names, ones[0]));
      PairWithUnique(ones[0], twos, t);
      NoRepeatsTail(ones);
      GeneWorldsUnique(ones[1..], names, t);
      forall w | w in block
        ensures w !in later
      {
        PairWithMembers(ones[0], twos, t, w);
        GeneWorldsMembers(ones[1..], names, t, w);
      }
      NoRepeatsConcat(block, later);
    }
  }

  /** The three loops visit no hypothesis twice when the candidate trait
      sets are all different. */
  lemma {:induction false} TraitWorldsUnique(fam: Family, traits: seq<set<Name>>)
    requires fam.Valid()
    requires NoRepeats(traits)
    ensures NoRepeats(TraitWorlds(fam, traits))
    decreases |traits|
  {
    if traits != [] {
      var here := if FailsEvidence(fam.people, fam.names, traits[0]) then []
                  else GeneWorlds(Subsets(fam.names), fam.names, traits[0]);
      var later := TraitWorlds(fam, traits[1..]);
      if here != [] {
        SubsetsUnique(fam.names);
        GeneWorldsUnique(Subsets(fam.names), fam.names, traits[0]);
      }
      NoRepeatsTail(traits);
      TraitWorldsUnique(fam, traits[1..]);
      forall w | w in here
        ensures w !in later
      {
        GeneWorldsMembers(Subsets(fam.names), fam.names, traits[0], w);
        TraitWorldsMembers(fam, traits[1..], w);
      }
      NoRepeatsConcat(here, later);
    }
  }

  /** The enumeration visits every hypothesis at most once, as the source's
      loops over the subsets of a set do. */
  lemma HypothesesUnique(fam: Family)
    requires fam.Valid()
    ensures NoRepeats(Hypotheses(fam))
  {
    SubsetsUnique(fam.names);
    TraitWorldsUnique(fam, Subsets(fam.names));
  }

  /** A hypothesis over the family's people whose gene sets are disjoint and
      whose trait set agrees with the evidence. */
  predicate WellFormed(fam: Family, w: World) {
    && w.oneGene <= Elems(fam.names)
    && w.twoGenes <= Elems(fam.names) - w.oneGene
    && w.haveTrait <= Elems(fam.names)
    && Agrees(fam, w.haveTrait)
  }

  /** The enumeration is sound and complete: it visits a hypothesis exactly
      when the hypothesis is well formed. In particular the one-copy and
      two-copy sets of every visited hypothesis are disjoint, and each
      person falls in exactly one gene class. */
  lemma HypothesesExactly(fam: Family, w: World)
    requires fam.Valid()
    ensures w in Hypotheses(fam) <==> WellFormed(fam, w)
  {
    TraitWorldsMembers(fam, Subsets(fam.names), w);
    SubsetsExactly(fam.names, w.haveTrait);
    SubsetsExactly(fam.names, w.oneGene);
    SubsetsExactly(Without(fam.names, w.oneGene), w.twoGenes);
    EvidenceFilter(fam, w.haveTrait);
  }

  /** The set of people observed with the trait. */
  function ObservedWithTrait(fam: Family): set<Name> {
    set n | n in fam.people && fam.people[n].observed == Some(true)
  }

  /** At least one hypothesis survives: nobody carries the gene and exactly
      the people observed with the trait show it. */
  lemma HypothesesNonEmpty(fam: Family)
    requires fam.Valid()
    ensures Hypotheses(fam) != []
  {
    var w := World({}, {}, ObservedWithTrait(fam));
    HypothesesExactly(fam, w);
    assert WellFormed(fam, w);
  }

  /** Every hypothesis of `ws` paired with its joint probability
      (`joint_probability`), in order. */
  function Weigh(fam: Family, ws: seq<World>): (r: seq<Weighed>)
    requires fam.Valid()
    ensures |r| == |ws|
    ensures forall i :: 0 <= i < |r| ==> r[i].world == ws[i]
    ensures forall i :: 0 <= i < |r| ==> r[i].p == Joint(fam.people, ws[i], fam.names)
    ensures forall i :: 0 <= i < |r| ==> 0.0 < r[i].p <= 1.0
  {
    seq(|ws|, i requires 0 <= i < |ws| => Weighed(ws[i], Joint(fam.people, ws[i], fam.names)))
  }

  /** The weighed hypotheses the enumeration of `main` visits: every
      hypothesis consistent with the evidence, each with a probability in
      (0,1], and at least one of them. */
  function Evidence(fam: Family): (r: seq<Weighed>)
    requires fam.Valid()
    ensures r != []
    ensures forall i :: 0 <= i < |r| ==> WellFormed(fam, r[i].world)
    ensures forall i :: 0 <= i < |r| ==> r[i].p == Joint(fam.people, r[i].world, fam.names)
    ensures forall i :: 0 <= i < |r| ==> 0.0 < r[i].p <= 1.0
  {
    var ws := Hypotheses(fam);
    HypothesesNonEmpty(fam);
    assert forall i :: 0 <= i < |ws| ==> WellFormed(fam, ws[i]) by {
      forall i | 0 <= i < |ws|
        ensures WellFormed(fam, ws[i])
      {
        HypothesesExactly(fam, ws[i]);
      }
    }
    Weigh(fam, ws)
  }

  /** The weighed hypotheses are exactly the well-formed hypotheses, each
      appearing once: the sums behind `Infer` count every hypothesis
      consistent with the evidence exactly once. */
  lemma EvidenceEnumerates(fam: Family, w: World)
    requires fam.Valid()
    ensures WellFormed(fam, w) <==> exists i :: 0 <= i < |Evidence(fam)| && Evidence(fam)[i].world == w
  {
    var ws := Hypotheses(fam);
    var ss := Evidence(fam);
    assert ss == Weigh(fam, ws);
    HypothesesExactly(fam, w);
    if WellFormed(fam, w) {
      var i :| 0 <= i < |ws| && ws[i] == w;
      assert ss[i].world == w;
    }
  }

  /** No hypothesis is weighed twice. */
  lemma EvidenceUnique(fam: Family)
    requires fam.Valid()
    ensures forall i, j :: 0 <= i < j < |Evidence(fam)| ==> Evidence(fam)[i].world != Evidence(fam)[j].world
  {
    var ws := Hypotheses(fam);
    var ss := Evidence(fam);
    assert ss == Weigh(fam, ws);
    HypothesesUnique(fam);
    forall i, j | 0 <= i < j < |ss|
      ensures ss[i].world != ss[j].world
    {
      assert ss[i].world == ws[i] && ss[j].world == ws[j];
    }
  }

  /** The hypotheses visited have positive total probability. */
  lemma EvidenceMassPositive(fam: Family)
    requires fam.Valid()
    ensures AllNonNegative(Evidence(fam))
    ensures Mass(Evidence(fam)) > 0.0
  {
    MassPositive(Evidence(fam));
  }

  /** The people listed in `names` are exactly the keys of `people`. */
  lemma NamesAreKeys(fam: Family)
    requires fam.Valid()
    ensures Elems(fam.names) == fam.people.Keys
  {
  }

  /** The tallies after every hypothesis has been accumulated, before
      normalization. */
  function Tallies(fam: Family): (r: Table)
    requires fam.Valid()
    ensures r.Keys == fam.people.Keys
  {
    var ss := Evidence(fam);
    var r := Accumulate(Blank(fam.names), ss);
    NamesAreKeys(fam);
    assert r.Keys == Blank(fam.names).Keys;
    r
  }

  /** The posterior distributions of every person: the normalized tallies.
      No precondition beyond a well-formed family is needed, because some
      hypothesis always survives the evidence filter. */
  function Infer(fam: Family): (r: Table)
    requires fam.Valid()
    ensures r.Keys == fam.people.Keys
    ensures forall n :: n in r ==> r[n].gene.Total() == 1.0 && r[n].traits.Total() == 1.0
    ensures forall n, g :: n in r ==> 0.0 <= r[n].gene.At(g) <= 1.0
    ensures forall n, b :: n in r ==> 0.0 <= r[n].traits.At(b) <= 1.0
    ensures Mass(Evidence(fam)) > 0.0
    ensures forall n, g :: n in r ==> r[n].gene.At(g) == GeneMass(Evidence(fam), n, g) / Mass(Evidence(fam))
    ensures forall n, b :: n in r ==> r[n].traits.At(b) == TraitMass(Evidence(fam), n, b) / Mass(Evidence(fam))
  {
    var ss := Evidence(fam);
    EvidenceMassPositive(fam);
    NamesAreKeys(fam);
    Posterior(fam.names, ss)
  }

  /** Evidence is respected before normalization: a person observed with
      trait value `v` never receives mass in the opposite trait bucket. */
  lemma ObservedTraitExcludesOpposite(fam: Family, n: Name)
    requires fam.Valid()
    requires n in fam.people && fam.people[n].observed.Some?
    ensures TraitMass(Evidence(fam), n, !fam.people[n].observed.value) == 0.0
    ensures Tallies(fam)[n].traits.At(!fam.people[n].observed.value) == 0.0
  {
    var v := fam.people[n].observed.value;
    var ss := Evidence(fam);
    forall i | 0 <= i < |ss|
      ensures (n in ss[i].world.haveTrait) != !v
    {
      assert WellFormed(fam, ss[i].world);
    }
    TraitMassUnreached(ss, n, !v);
    NamesAreKeys(fam);
    AccumulateFromZero(Blank(fam.names), ss, n);
  }

  /** After normalization the value opposite to an observed trait has
      probability 0. */
  lemma ObservedOppositeIsImpossible(fam: Family, n: Name)
    requires fam.Valid()
    requires n in fam.people && fam.people[n].observed.Some?
    ensures Infer(fam)[n].traits.At(!fam.people[n].observed.value) == 0.0
  {
    var v := fam.people[n].observed.value;
    var ss := Evidence(fam);
    var e := Infer(fam)[n].traits;
    ObservedTraitExcludesOpposite(fam, n);
    assert e.At(!v) == TraitMass(ss, n, !v) / Mass(ss);
    ZeroQuotient(TraitMass(ss, n, !v), Mass(ss));
  }

  /** After normalization the observed trait value has probability 1 and
      the opposite value probability 0. */
  lemma ObservedTraitIsCertain(fam: Family, n: Name)
    requires fam.Valid()
    requires n in fam.people && fam.people[n].observed.Some?
    ensures Infer(fam)[n].traits.At(fam.people[n].observed.value) == 1.0
    ensures Infer(fam)[n].traits.At(!fam.people[n].observed.value) == 0.0
  {
    var v := fam.people[n].observed.value;
    var e := Infer(fam)[n].traits;
    ObservedOppositeIsImpossible(fam, n);
    e.Certain(v);
  }
}
