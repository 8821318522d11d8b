/**
 The input of the inference engine and the hypotheses it enumerates.

 A family is what the CSV loader produces: for every person an optional
 mother, an optional father and an optional observed trait. `names` is the
 order in which the people are iterated (the order of the loader's
 dictionary); it lists every person exactly once.

 A hypothesis (`World`) fixes, for every person, a gene count and whether
 the trait is present: everyone in `oneGene` has one copy, everyone else in
 `twoGenes` has two, everyone else none; everyone in `haveTrait` shows the
 trait.
 */
module Family {
  import opened Optional
  import opened Probs
  import opened Powerset

  type Name = string

  datatype Person = Person(mother: Option<Name>, father: Option<Name>, observed: Option<bool>) {
    /** The person is treated as a founder, with the unconditional gene
        prior: their mother is absent or the empty name, either of which is
        false as a condition. The father is not consulted. */
    predicate Founder() {
      mother.None? || mother.value == ""
    }
  }

  datatype Family = Family(names: seq<Name>, people: map<Name, Person>) {

    /** `names` enumerates the keys of `people`, each exactly once. */
    predicate Valid() {
      && Distinct(names)
      && (forall n :: n in names ==> n in people)
      && (forall n :: n in people ==> n in names)
    }
  }

  datatype World = World(oneGene: set<Name>, twoGenes: set<Name>, haveTrait: set<Name>)

  /** The gene count a hypothesis assigns to `n`. Membership of `oneGene` is
      checked first, then `twoGenes`; anyone in neither has no copy. */
  function CopiesOf(w: World, n: Name): (g: Copies)
    ensures g == One <==> n in w.oneGene
    ensures g == Two <==> n !in w.oneGene && n in w.twoGenes
  {
    if n in w.oneGene then One
    else if n in w.twoGenes then Two
    else Zero
  }

  /** When the two gene sets are disjoint, as every enumerated hypothesis
      makes them, each person is in exactly one of the three classes and
      the class is read off membership alone. */
  lemma ClassesPartition(w: World, n: Name)
    requires w.oneGene !! w.twoGenes
    ensures CopiesOf(w, n) == One <==> n in w.oneGene
    ensures CopiesOf(w, n) == Two <==> n in w.twoGenes
    ensures CopiesOf(w, n) == Zero <==> n !in w.oneGene && n !in w.twoGenes
  {
  }
}
