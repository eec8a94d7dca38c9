/** Genotype: a bunny's three gene pairs, inherited from two parents or taken from the
  * gene pool for generation zero, and their field-by-field state save and restore.
  */
module Genotypes {
  import opened Base
  import opened Genetics

  /** `GenePair.combine`: one allele of the father's pair and one of the mother's. The
    * random choice of slot is supplied as two coin flips (true picks the slot that
    * the parent got from its own father).
    */
  function Combine(father: GenePair, mother: GenePair, fromFathersFather: bool, fromMothersFather: bool): (p: GenePair)
    ensures father.Has(p.fatherAllele) && mother.Has(p.motherAllele)
    ensures p in Cross(father, mother).cells
  {
    GenePair(
      if fromFathersFather then father.fatherAllele else father.motherAllele,
      if fromMothersFather then mother.fatherAllele else mother.motherAllele)
  }

  /** The coin flips for the three genes, two per gene. */
  datatype Coins = Coins(fur: (bool, bool), ears: (bool, bool), teeth: (bool, bool))
  {
    function Of(g: Gene): (bool, bool)
    {
      match g
      case Fur => fur
      case Ears => ears
      case Teeth => teeth
    }
  }

  /** The gene pairs a new genotype receives. With both parents, each pair combines the
    * parents' pairs for that gene; with neither, the gene pool's generation-zero pairs.
    * A single parent is not allowed.
    */
  function Inherit(father: Option<GenePairs>, mother: Option<GenePairs>, generationZero: GenePairs, coins: Coins): (r: GenePairs)
    requires father.Some? <==> mother.Some?
    ensures father.None? ==> r == generationZero
    ensures father.Some? ==> forall g: Gene ::
      father.value.PairOf(g).Has(r.PairOf(g).fatherAllele) && mother.value.PairOf(g).Has(r.PairOf(g).motherAllele)
  {
    if father.Some? then
      GenePairs(
        Combine(father.value.fur, mother.value.fur, coins.fur.0, coins.fur.1),
        Combine(father.value.ears, mother.value.ears, coins.ears.0, coins.ears.1),
        Combine(father.value.teeth, mother.value.teeth, coins.teeth.0, coins.teeth.1))
    else generationZero
  }

  /** An inherited pair is one of the cells of the cross of the parents' pairs, and
    * every cell can be reached by some choice of coins.
    */
  lemma InheritIsCrossCell(father: GenePairs, mother: GenePairs, generationZero: GenePairs, coins: Coins, g: Gene)
    ensures Inherit(Some(father), Some(mother), generationZero, coins).PairOf(g)
      in Cross(father.PairOf(g), mother.PairOf(g)).cells
    ensures forall j :: 0 <= j < LITTER_SIZE ==>
      Combine(father.PairOf(g), mother.PairOf(g), j < 2, j % 2 == 0) == Cross(father.PairOf(g), mother.PairOf(g)).cells[j]
  {
    var r := Inherit(Some(father), Some(mother), generationZero, coins);
    var f, m := father.PairOf(g), mother.PairOf(g);
    assert r.PairOf(g) == Combine(f, m, coins.Of(g).0, coins.Of(g).1);
    forall j | 0 <= j < LITTER_SIZE
      ensures Combine(f, m, j < 2, j % 2 == 0) == Cross(f, m).cells[j]
    {
      if j == 0 {
      } else if j == 1 {
      } else if j == 2 {
      } else {
        assert j == 3;
      }
    }
  }

  /** A genotype as saved: one state value per gene pair. */
  datatype GenotypeState<S> = GenotypeState(furGenePair: S, earsGenePair: S, teethGenePair: S)

  /** `toStateObject`, with `encode` standing for the gene pair's own serialisation. */
  function ToStateObject<S>(pairs: GenePairs, encode: GenePair -> S): GenotypeState<S>
  {
    GenotypeState(encode(pairs.fur), encode(pairs.ears), encode(pairs.teeth))
  }

  /** `fromStateObject`, with `decode` standing for the gene pair's own deserialisation. */
  function FromStateObject<S, V>(state: GenotypeState<S>, decode: S -> V): GenotypeState<V>
  {
    GenotypeState(decode(state.furGenePair), decode(state.earsGenePair), decode(state.teethGenePair))
  }

  /** The gene pairs that `setValue` leaves behind when given `state`. */
  function Restored(state: GenotypeState<GenePair>): GenePairs
  {
    GenePairs(state.furGenePair, state.earsGenePair, state.teethGenePair)
  }

  /** Saving and restoring a genotype gives back the same gene pairs whenever the gene
    * pair's own serialisation round-trips.
    */
  lemma StateRoundTrip<S>(pairs: GenePairs, encode: GenePair -> S, decode: S -> GenePair)
    requires forall p :: decode(encode(p)) == p
    ensures Restored(FromStateObject(ToStateObject(pairs, encode), decode)) == pairs
  {
  }

  /** The saved value of a gene pair depends on that pair alone: two genotypes that agree
    * on a gene save the same value for it, and a change to one gene changes no other
    * gene's saved value.
    */
  lemma StateFieldwise<S>(a: GenePairs, b: GenePairs, encode: GenePair -> S)
    ensures var sa, sb := ToStateObject(a, encode), ToStateObject(b, encode);
      (a.fur == b.fur ==> sa.furGenePair == sb.furGenePair)
      && (a.ears == b.ears ==> sa.earsGenePair == sb.earsGenePair)
      && (a.teeth == b.teeth ==> sa.teethGenePair == sb.teethGenePair)
  {
  }

  class Genotype {
    var furGenePair: GenePair
    var earsGenePair: GenePair
    var teethGenePair: GenePair

    function Pairs(): GenePairs
      reads this
    {
      GenePairs(furGenePair, earsGenePair, teethGenePair)
    }

    /** A bunny has two parents or none. */
    constructor (father: Option<GenePairs>, mother: Option<GenePairs>, generationZero: GenePairs, coins: Coins)
      requires father.Some? <==> mother.Some?
      ensures Pairs() == Inherit(father, mother, generationZero, coins)
    {
      if father.Some? && mother.Some? {
        furGenePair := Combine(father.value.fur, mother.value.fur, coins.fur.0, coins.fur.1);
        earsGenePair := Combine(father.value.ears, mother.value.ears, coins.ears.0, coins.ears.1);
        teethGenePair := Combine(father.value.teeth, mother.value.teeth, coins.teeth.0, coins.teeth.1);
      } else {
        furGenePair := generationZero.fur;
        earsGenePair := generationZero.ears;
        teethGenePair := generationZero.teeth;
      }
    }

    /** `setValue`: each gene pair takes the value of its own field of the state. */
    method SetValue(state: GenotypeState<GenePair>)
      modifies this
      ensures Pairs() == Restored(state)
    {
      furGenePair := state.furGenePair;
      earsGenePair := state.earsGenePair;
      teethGenePair := state.teethGenePair;
    }
  }
}
