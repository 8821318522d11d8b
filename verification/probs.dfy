/**
 The fixed conditional probability tables of the gene/trait network
 (`PROBS` in heredity.py): the unconditional gene-count prior, the
 trait-given-gene table and the mutation rate. Every entry is an exact
 rational, so the model uses `real` and "sums to 1" is an exact theorem.
 */
module Probs {

  /** Number of copies of the gene a person carries. */
  datatype Copies = Zero | One | Two

  /** Probability that a transmitted allele flips. */
  const Mutation: real := 0.01

  /** Unconditional probability of carrying `g` copies (founders). */
  function GenePrior(g: Copies): (r: real)
    ensures 0.0 < r < 1.0
  {
    match g
    case Two => 0.01
    case One => 0.03
    case Zero => 0.96
  }

  /** Probability that a person with `g` copies shows the trait (`hasTrait`)
      or does not (`!hasTrait`). */
  function TraitGiven(g: Copies, hasTrait: bool): (r: real)
    ensures 0.0 < r < 1.0
  {
    match g
    case Two => if hasTrait then 0.65 else 0.35
    case One => if hasTrait then 0.56 else 0.44
    case Zero => if hasTrait then 0.01 else 0.99
  }

  /** The prior is a probability distribution over the three gene counts. */
  lemma GenePriorIsDistribution()
    ensures GenePrior(Zero) + GenePrior(One) + GenePrior(Two) == 1.0
  {
  }

  /** Each row of the trait table is a distribution over {true, false}. */
  lemma TraitRowIsDistribution(g: Copies)
    ensures TraitGiven(g, true) + TraitGiven(g, false) == 1.0
  {
  }
}
