# Heredity: exact inference over a gene/trait family network

This project models, in Dafny, the inference engine of `heredity.py`. The
program reads a family: each person has an optional mother, an optional
father and an optionally observed trait. For every person it computes two
posterior distributions. One is over how many copies of a gene the person
carries (0, 1 or 2). The other is over whether the person shows the trait.

The engine works by exact enumeration:

1. `powerset` lists every subset of the people.
2. `main` keeps every candidate trait set that agrees with the observed
   traits. For each such set it pairs every one-copy set with every
   two-copy set drawn from the remaining people.
3. `joint_probability` weighs each hypothesis. It multiplies, over every
   person, a gene term by a trait term. The gene term is the prior for a
   founder. For a child it is the Mendelian-with-mutation formula, using
   the parents' assignments in the same hypothesis.
4. `update` adds the weight to each person's gene bucket and trait bucket.
5. `normalize` rescales every person's tallies so that they sum to 1.

All probabilities are exact `real`s. So "sums to 1" and "lies in [0,1]" are
exact theorems, not floating-point tolerances.

Modules, one per component:

- `Probs` (probs.dfy): the `PROBS` table.
- `Family` (family.dfy): people, hypotheses, and the three-way gene
  classification.
- `Powerset` (powerset.dfy): subset enumeration.
- `Evaluator` (joint.dfy): the joint probability.
- `Accumulator` (accumulator.dfy): `update`, accumulation and `normalize`.
- `Inference` (inference.dfy): the evidence filter, the enumeration loops
  of `main`, and the end-to-end theorems.

## Model

| member | source | states |
|---|---|---|
| `Probs.GenePrior` | heredity.py:11-15 | Every entry of the unconditional gene-count prior lies strictly between 0 and 1. |
| `Probs.TraitGiven` | heredity.py:17-36 | Every entry of the trait-given-gene table lies strictly between 0 and 1. |
| `Probs.GenePriorIsDistribution` | heredity.py:11-15 | The prior over 0, 1 and 2 copies sums to exactly 1. |
| `Probs.TraitRowIsDistribution` | heredity.py:17-36 | For each gene count, P(trait) + P(no trait) is exactly 1. |
| `Family.CopiesOf` | heredity.py:253-259 | A person has one copy exactly when in `one_gene`. They have two copies exactly when outside `one_gene` and inside `two_genes`. Otherwise they have none, so `one_gene` is checked first. |
| `Family.ClassesPartition` | heredity.py:209-233 | When the gene sets are disjoint, each person is in exactly one class, and that class is determined by set membership alone. |
| `Powerset.Subsets` | heredity.py:122-131 | The enumeration has 2^n entries, and every entry is a subset of the input. |
| `Powerset.SubsetsComplete` | heredity.py:122-131 | Every subset of the input is enumerated. |
| `Powerset.SubsetsExactly` | heredity.py:122-131 | A set is enumerated if and only if it is a subset of the input, so both the empty set and the whole set appear. |
| `Powerset.Without` | heredity.py:81 | `names - one_gene` as a list holds exactly the names outside `one_gene`. |
| `Powerset.WithoutDistinct` | heredity.py:81 | Removing `one_gene` from a list that names each person once leaves a list that names each person once. |
| `Powerset.SubsetsUnique` | heredity.py:122-131 | When the input lists each element once, no subset is enumerated twice, as with `powerset` over a set. |
| `Evaluator.Transmit` | heredity.py:161-178 | A parent passes the gene on with probability 0.5, 1 − mutation or mutation, according to the parent's class in the same hypothesis (one copy is checked first). A blank parent gets the mutation rate. The result is strictly inside (0,1). |
| `Evaluator.ChildGeneIsDistribution` | heredity.py:181-191 | For any pM and pF in [0,1], the three child terms each lie in [0,1] and sum to exactly 1. They are all positive when pM and pF are strictly inside (0,1). |
| `Evaluator.GeneTerm` | heredity.py:209-233 | A person whose mother is absent or the empty name gets the prior. Anyone else gets the child formula applied to their parents' transmission probabilities. The term is in (0,1]. |
| `Evaluator.GeneTermIsDistribution` | heredity.py:148-191 | For any hypothesis, a person's gene term summed over the three counts is exactly 1. |
| `Evaluator.PersonTerm` | heredity.py:194-235 | A person's factor, gene term times trait term at their assigned count, lies in (0,1]. |
| `Evaluator.Product` | heredity.py:239 | The left-to-right product of factors in (0,1] lies in (0,1]. |
| `Evaluator.ProductExtend` | heredity.py:235-239 | Appending a factor multiplies the running product by it. |
| `Evaluator.Factors` | heredity.py:203-237 | There is one factor per person, in iteration order, and every factor lies in (0,1], so no person's term can make the product zero or exceed 1. |
| `Evaluator.Joint` | heredity.py:134-239 | The joint probability of any hypothesis lies in (0,1]. |
| `Evaluator.JointProbability` | heredity.py:134-239 | One pass over the people, multiplying in each factor, yields exactly the joint probability, which lies in (0,1]. |
| `Accumulator.GeneDist.Add` | heredity.py:253-261 | Adding p to one gene bucket raises that bucket by p, leaves the other two alone, and raises the total by p. |
| `Accumulator.TraitDist.Add` | heredity.py:264-269 | Adding p to one trait bucket raises that bucket by p, leaves the other alone, and raises the total by p. |
| `Accumulator.GeneDist.Normalized` | heredity.py:280-290 | Each gene value becomes the old value divided by the old total (the same as multiplying by `1 / total`). The new values sum to 1 and lie in [0,1] when the old ones are non-negative. |
| `Accumulator.TraitDist.Normalized` | heredity.py:292-300 | Each trait value becomes the old value divided by the old total. The new values sum to 1 and lie in [0,1] when the old ones are non-negative. |
| `Accumulator.Blank` | heredity.py:51-64 | Every person starts with all five buckets at zero, and nobody else has an entry. |
| `Accumulator.Update` | heredity.py:242-269 | Each person's gene bucket for their class under the hypothesis grows by p, and the other two gene buckets are unchanged. The trait bucket for membership of `have_trait` grows by p, and the other is unchanged. Both totals grow by exactly p. No person is added or dropped. |
| `Accumulator.Accumulate` | heredity.py:80-85 | Feeding weighed hypotheses into the tallies keeps exactly the same people. |
| `Accumulator.AccumulateMarginals` | heredity.py:250-269 | After feeding a list of hypotheses, each bucket has grown by the total probability of the hypotheses that put the person in that bucket. Both totals have grown by the total probability of all the hypotheses. |
| `Accumulator.AccumulateConserves` | heredity.py:51-85 | Starting from zero, each person's gene total and trait total are equal, and both equal the probability fed in. |
| `Accumulator.AccumulateFromZero` | heredity.py:51-85 | Starting from zero, each bucket holds exactly the probability of the hypotheses that put the person in it. |
| `Accumulator.AccumulateKeepsNonNegative` | heredity.py:250-269 | Non-negative tallies stay non-negative when non-negative weights are added. |
| `Accumulator.AccumulateFromZeroNonNegative` | heredity.py:51-85 | Starting from zero with non-negative weights, every bucket is non-negative. |
| `Accumulator.TraitMassUnreached` | heredity.py:264-269 | If no hypothesis puts a person on one side of the trait, that side receives no mass. |
| `Accumulator.MassPositive` | heredity.py:84-85 | A non-empty list of hypotheses, each with positive probability, has positive total probability. |
| `Accumulator.TalliesReady` | heredity.py:278-296 | Starting from zero with non-negative weights of positive total, every person ends with non-negative buckets and positive totals, so neither division in `normalize` divides by zero. |
| `Accumulator.Normalize` | heredity.py:272-300 | Given non-zero totals: each person's gene buckets sum to 1 and trait buckets sum to 1. Every new value is the old value divided by the old total, which preserves proportions. Non-negative tallies land in [0,1]. No person is added or dropped. |
| `Accumulator.NormalizeFixesDistributions` | heredity.py:272-300 | Tallies that already sum to 1 are left unchanged. |
| `Accumulator.NormalizeIdempotent` | heredity.py:272-300 | Normalizing twice is the same as normalizing once. |
| `Accumulator.CertainStaysCertain` | heredity.py:292-300 | A trait tally with no mass on one side normalizes to probability 1 on the other side and 0 on the empty side. |
| `Accumulator.TallyQuotients` | heredity.py:278-300 | A tally that was built from zero by a list of hypotheses normalizes to: mass of the hypotheses in the bucket, divided by the mass of all of them. |
| `Accumulator.Posterior` | heredity.py:51-88 | Blank tallies, then accumulation, then `normalize`: for each person and bucket the result is the conditional probability of that bucket given the hypotheses. Every person's gene and trait values sum to 1 and lie in [0,1]. |
| `Inference.FailsEvidence` | heredity.py:71-75 | A candidate trait set fails exactly when some person's observed trait differs from their membership in the set. |
| `Inference.EvidenceFilter` | heredity.py:70-77 | A trait set survives the filter if and only if every observed person is in it exactly when their observation is true. |
| `Inference.PairWithMembers` | heredity.py:81-85 | The inner loop body visits exactly the hypotheses with the given one-copy set and trait set, with a two-copy set taken from the list. |
| `Inference.GeneWorldsMembers` | heredity.py:80-85 | The two gene loops visit exactly the pairs where the one-copy set is enumerated and the two-copy set is a subset of the remaining people. |
| `Inference.TraitWorldsMembers` | heredity.py:66-85 | The three loops visit exactly the hypotheses whose trait set is enumerated and passes the filter, with gene sets as above. |
| `Inference.HypothesesExactly` | heredity.py:66-85 | A hypothesis is visited if and only if three things hold. Its sets are drawn from the people. Its two-copy set is disjoint from its one-copy set. Its trait set agrees with the evidence. |
| `Inference.HypothesesNonEmpty` | heredity.py:66-85 | At least one hypothesis always survives the evidence filter. |
| `Inference.PairWithUnique` | heredity.py:81-85 | Different two-copy sets give different hypotheses. |
| `Inference.GeneWorldsUnique` | heredity.py:80-85 | The two gene loops visit no hypothesis twice. |
| `Inference.TraitWorldsUnique` | heredity.py:66-85 | The three loops visit no hypothesis twice when the candidate trait sets are all different. |
| `Inference.HypothesesUnique` | heredity.py:66-85 | The enumeration visits every hypothesis at most once. |
| `Inference.Weigh` | heredity.py:84 | Each hypothesis is paired, in order, with its joint probability, which lies in (0,1]. |
| `Inference.Evidence` | heredity.py:66-85 | The weighed hypotheses visited are not empty. Each is well formed and consistent with the evidence, and carries its joint probability, which lies in (0,1]. |
| `Inference.EvidenceEnumerates` | heredity.py:66-85 | A hypothesis is weighed if and only if it is well formed, that is, consistent with the evidence. |
| `Inference.EvidenceUnique` | heredity.py:66-85 | No hypothesis is weighed twice. |
| `Inference.EvidenceMassPositive` | heredity.py:66-85 | The visited hypotheses have non-negative weights with a positive total. |
| `Inference.Tallies` | heredity.py:51-85 | The accumulated tallies hold exactly the family's people. |
| `Inference.Infer` | heredity.py:43-88 | For every person, each final gene and trait value is the summed probability of the weighed hypotheses that put the person in that bucket, divided by the positive summed probability of all of them. With `EvidenceEnumerates` and `EvidenceUnique`, these sums count every evidence-consistent hypothesis exactly once, so each value is the conditional probability given the evidence. Each distribution sums to 1, with every value in [0,1]. |
| `Inference.ObservedTraitExcludesOpposite` | heredity.py:71-77 | Before normalization, a person observed with trait value v has zero mass in the bucket for the opposite value. |
| `Inference.ObservedOppositeIsImpossible` | heredity.py:71-88 | After normalization, the opposite of an observed trait value has probability 0. |
| `Inference.ObservedTraitIsCertain` | heredity.py:71-88 | After normalization, a person observed with trait value v has probability 1 for v and 0 for the opposite value. |

Facts about the code that the model reproduces:

- Founder status depends only on the mother (heredity.py:211). Python's
  truth test treats an absent mother and the empty name alike, so
  `Person.Founder` accepts both, and `GeneTerm` gives a
  founder the prior whatever the father field holds. The loader's docstring
  says both parents are blank or both are present (heredity.py:104), but
  nothing enforces it. A child with a mother and a blank father is treated
  as if the father had no copies.
- A parent name that is not in the family is never in a gene set, so it
  falls into the `mutation` branch (heredity.py:169, heredity.py:178), as
  `Transmit` does.
- The code raises no error when the evidence filter leaves no hypothesis.
  The model shows that this cannot happen: `HypothesesNonEmpty`,
  `EvidenceMassPositive` and `TalliesReady` prove that every person's
  totals are positive, so `Infer` needs no precondition beyond a
  well-formed family.

## Left out

- `load_data` (CSV reading) is not modelled. Its output is the input
  `Family`, whose `names` lists the people in the loader's dictionary order.
- The command-line check and the printing in `main` are not modelled. They
  are I/O only.
- Floating-point rounding is not modelled; the model uses exact reals. In
  particular, with doubles a large family's product could underflow to 0,
  and `normalize` would then divide by zero. Exact reals cannot show this.
- `Powerset.Subsets` lists subsets in a different order from
  `itertools.combinations`. The same subsets appear, each exactly once
  (`SubsetsExactly`, `SubsetsUnique`). Accumulation is a sum, so the order
  does not change any exact result, but no lemma states this order
  independence.
- Python iterates `set(people)` and `names - one_gene` in an unspecified
  order. The model uses the family's `names` order.
- `Accumulator.Accumulate`: its own contract only says the set of people
  is kept. What it adds is stated by `AccumulateMarginals`,
  `AccumulateConserves` and `AccumulateFromZero`.
- `Inference.Tallies`: its own contract only says the set of people is
  kept. Its contents are stated by `ObservedTraitExcludesOpposite` and, after
  normalization, by `Infer`.
- The loops in `main` compute each hypothesis's probability and add it at
  once. The model first lists the weighed hypotheses (`Evidence`) and then
  adds them in the same order (`Accumulate`). Each addition depends only on
  its own hypothesis, so the tallies are the same.
- Exponential cost (2^n trait sets times 3^n gene assignments) is not
  modelled. The model states what is enumerated, not how fast.
- The unused `random` import is not modelled.
