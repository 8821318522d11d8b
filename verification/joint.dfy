/**
 The joint probability of one complete hypothesis (`joint_probability` in
 heredity.py): for every person, the probability of the assigned gene count
 (the prior for a founder, the Mendelian-with-mutation formula for a child)
 times the probability of the assigned trait given that gene count, and the
 product of those terms over the whole family.
 */
module Evaluator {
  import opened Optional
  import opened Probs
  import opened Family

  /** Probability that a parent carrying `g` copies passes the gene on. */
  function PassOn(g: Copies): real {
    match g
    case Zero => Mutation
    case One => 0.5
    case Two => 1.0 - Mutation
  }

  /** The transmission probability of a parent reference under hypothesis
      `w`. A blank reference, or a name no hypothesis places in either gene
      set, falls through to the mutation-only case, exactly as membership
      tests on `None` or an unknown name do. */
  function Transmit(w: World, parent: Option<Name>): (r: real)
    ensures parent.Some? ==> r == PassOn(CopiesOf(w, parent.value))
    ensures parent.None? ==> r == Mutation
    ensures 0.0 < r < 1.0
  {
    if parent.Some? && parent.value in w.oneGene then 0.5
    else if parent.Some? && parent.value in w.twoGenes then 1.0 - Mutation
    else Mutation
  }

  /** Probability that a child of parents passing the gene on with
      probabilities `pM` and `pF` carries `g` copies. */
  function ChildGene(pM: real, pF: real, g: Copies): real {
    match g
    case Zero => (1.0 - pM) * (1.0 - pF)
    case One => (1.0 - pM) * pF + pM * (1.0 - pF)
    case Two => pM * pF
  }

  lemma MulNonNegative(a: real, b: real)
    requires 0.0 <= a && 0.0 <= b
    ensures 0.0 <= a * b
  {
  }

  lemma MulPositive(a: real, b: real)
    requires 0.0 < a && 0.0 < b
    ensures 0.0 < a * b
  {
  }

  lemma ProductInUnit(a: real, b: real)
    requires 0.0 <= a <= 1.0 && 0.0 <= b <= 1.0
    ensures 0.0 <= a * b <= b
  {
    MulNonNegative(a, b);
    MulNonNegative(1.0 - a, b);
    assert a * b + (1.0 - a) * b == b;
  }

  /** For any transmission probabilities in [0,1] the three child terms are
      each in [0,1] and sum to exactly 1; strictly inside (0,1) they are all
      positive. */
  lemma ChildGeneIsDistribution(pM: real, pF: real)
    requires 0.0 <= pM <= 1.0 && 0.0 <= pF <= 1.0
    ensures forall g :: 0.0 <= ChildGene(pM, pF, g) <= 1.0
    ensures ChildGene(pM, pF, Zero) + ChildGene(pM, pF, One) + ChildGene(pM, pF, Two) == 1.0
    ensures 0.0 < pM < 1.0 && 0.0 < pF < 1.0 ==> forall g :: 0.0 < ChildGene(pM, pF, g)
  {
    var a, b := pM, pF;
    var na, nb := 1.0 - a, 1.0 - b;
    var zero, one, two := ChildGene(a, b, Zero), ChildGene(a, b, One), ChildGene(a, b, Two);
    assert zero == na * nb && one == na * b + a * nb && two == a * b;
    assert zero + one + two == 1.0 by {
      assert na * nb + na * b == na;
      assert a * nb + a * b == a;
    }
    MulNonNegative(na, nb);
    MulNonNegative(na, b);
    MulNonNegative(a, nb);
    MulNonNegative(a, b);
    forall g
      ensures 0.0 <= ChildGene(a, b, g) <= 1.0
    {
      match g
      case Zero =>
      case One =>
      case Two =>
    }
    if 0.0 < a < 1.0 && 0.0 < b < 1.0 {
      MulPositive(na, nb);
      MulPositive(na, b);
      MulPositive(a, b);
      forall g
        ensures 0.0 < ChildGene(a, b, g)
      {
        match g
        case Zero =>
        case One =>
        case Two =>
      }
    }
  }

  /** Probability that person `n` carries `g` copies under `w`. Only the
      mother is consulted to decide whether `n` is a founder. */
  function GeneTerm(people: map<Name, Person>, w: World, n: Name, g: Copies): (r: real)
    requires n in people
    ensures people[n].Founder() ==> r == GenePrior(g)
    ensures !people[n].Founder() ==>
      r == ChildGene(PassOn(CopiesOf(w, people[n].mother.value)), Transmit(w, people[n].father), g)
    ensures 0.0 < r <= 1.0
  {
    var p := people[n];
    if p.Founder() then GenePrior(g)
    else
      var pM, pF := Transmit(w, p.mother), Transmit(w, p.father);
      ChildGeneIsDistribution(pM, pF);
      ChildGene(pM, pF, g)
  }

  /** Whatever the hypothesis, a person's gene term is a distribution over
      the three counts. */
  lemma GeneTermIsDistribution(people: map<Name, Person>, w: World, n: Name)
    requires n in people
    ensures GeneTerm(people, w, n, Zero) + GeneTerm(people, w, n, One) + GeneTerm(people, w, n, Two) == 1.0
  {
    var p := people[n];
    if p.Founder() {
      GenePriorIsDistribution();
    } else {
      ChildGeneIsDistribution(Transmit(w, p.mother), Transmit(w, p.father));
    }
  }

  /** Person `n`'s factor of the joint probability: gene term times trait
      term, both taken at the gene count `w` assigns to `n`. */
  function PersonTerm(people: map<Name, Person>, w: World, n: Name): (r: real)
    requires n in people
    ensures 0.0 < r <= 1.0
  {
    var g := CopiesOf(w, n);
    var gene := GeneTerm(people, w, n, g);
    var shown := TraitGiven(g, n in w.haveTrait);
    ProductInUnit(shown, gene);
    gene * shown
  }

  /** The product of a list of numbers, multiplied left to right. */
  function Product(xs: seq<real>): (r: real)
    ensures (forall i :: 0 <= i < |xs| ==> 0.0 < xs[i] <= 1.0) ==> 0.0 < r <= 1.0
  {
    if xs == [] then 1.0
    else
      var prefix := Product(xs[..|xs| - 1]);
      var last := xs[|xs| - 1];
      assert (forall i :: 0 <= i < |xs| ==> 0.0 < xs[i] <= 1.0) ==> 0.0 < prefix * last <= 1.0 by {
        if forall i :: 0 <= i < |xs| ==> 0.0 < xs[i] <= 1.0 {
          assert forall i :: 0 <= i < |xs| - 1 ==> xs[..|xs| - 1][i] == xs[i];
          ProductInUnit(prefix, last);
          MulPositive(prefix, last);
        }
      }
      prefix * last
  }

  /** Appending one more factor multiplies the product by it. */
  lemma ProductExtend(xs: seq<real>, i: nat, p: real, f: real)
    requires i < |xs|
    requires p == Product(xs[..i]) && f == xs[i]
    ensures Product(xs[..i + 1]) == p * f
  {
    var next := xs[..i + 1];
    assert next[..|next| - 1] == xs[..i];
  }

  /** The per-person factors, in the order the people are iterated. */
  function Factors(people: map<Name, Person>, w: World, names: seq<Name>): (fs: seq<real>)
    requires forall n :: n in names ==> n in people
    ensures |fs| == |names|
    ensures forall i :: 0 <= i < |names| ==> fs[i] == PersonTerm(people, w, names[i])
    ensures forall i :: 0 <= i < |fs| ==> 0.0 < fs[i] <= 1.0
  {
    seq(|names|, i requires 0 <= i < |names| => PersonTerm(people, w, names[i]))
  }

  /** The joint probability of hypothesis `w`: the product of every
      person's factor. */
  function Joint(people: map<Name, Person>, w: World, names: seq<Name>): (r: real)
    requires forall n :: n in names ==> n in people
    ensures 0.0 < r <= 1.0
  {
    Product(Factors(people, w, names))
  }

  /** Computes the joint probability of hypothesis `w` over the whole family
      by one pass over the people, collecting each person's factor and
      multiplying it in. */
  method JointProbability(fam: Family, w: World) returns (p: real)
    requires fam.Valid()
    ensures p == Joint(fam.people, w, fam.names)
    ensures 0.0 < p <= 1.0
  {
    ghost var fs := Factors(fam.people, w, fam.names);
    p := 1.0;
    var i := 0;
    while i < |fam.names|
      invariant 0 <= i <= |fam.names| == |fs|
      invariant p == Product(fs[..i])
    {
      var factor := PersonTerm(fam.people, w, fam.names[i]);
      assert factor == fs[i];
      ProductExtend(fs, i, p, factor);
      p := p * factor;
      i := i + 1;
    }
    assert fs[..i] == fs;
  }
}
