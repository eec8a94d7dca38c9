/** The genetics that the population engine consumes: the three genes and their six
  * alleles, gene pairs, Punnett squares, phenotype expression and the gene pool's
  * per-gene dominance and "mutation coming" flags. The alleles are those of
  * Allele.js; the genes, GenePair, PunnettSquare and GenePool are collaborators of the
  * engine and are modelled here only as far as the engine relies on them.
  */
module Genetics {
  import opened Base

  datatype Gene = Fur | Ears | Teeth

  /** The six interned alleles. Identity is the constructor: no two alleles are equal. */
  datatype Allele = WhiteFur | BrownFur | StraightEars | FloppyEars | ShortTeeth | LongTeeth

  /** The genes, in the gene pool's order. */
  const Genes: seq<Gene> := [Fur, Ears, Teeth]

  function NormalAllele(g: Gene): Allele
  {
    match g
    case Fur => WhiteFur
    case Ears => StraightEars
    case Teeth => ShortTeeth
  }

  function MutantAllele(g: Gene): Allele
  {
    match g
    case Fur => BrownFur
    case Ears => FloppyEars
    case Teeth => LongTeeth
  }

  /** The gene an allele belongs to: each allele is the normal or the mutant allele of
    * exactly one gene.
    */
  function GeneOf(a: Allele): (g: Gene)
    ensures a == NormalAllele(g) || a == MutantAllele(g)
    ensures forall h: Gene :: (a == NormalAllele(h) || a == MutantAllele(h)) ==> h == g
  {
    match a
    case WhiteFur => Fur
    case BrownFur => Fur
    case StraightEars => Ears
    case FloppyEars => Ears
    case ShortTeeth => Teeth
    case LongTeeth => Teeth
  }

  /** Number of offspring produced by one mating: one per cell of a 2x2 Punnett square. */
  const LITTER_SIZE: nat := 4

  /** The two alleles one bunny carries for one gene. */
  datatype GenePair = GenePair(fatherAllele: Allele, motherAllele: Allele)
  {
    predicate Has(a: Allele)
    {
      fatherAllele == a || motherAllele == a
    }
  }

  /** The three gene pairs of a genotype. */
  datatype GenePairs = GenePairs(fur: GenePair, ears: GenePair, teeth: GenePair)
  {
    function PairOf(g: Gene): GenePair
    {
      match g
      case Fur => fur
      case Ears => ears
      case Teeth => teeth
    }

    /** Genotype.hasAllele: some slot of some pair holds `a`. */
    predicate HasAllele(a: Allele)
    {
      fur.Has(a) || ears.Has(a) || teeth.Has(a)
    }
  }

  //--------------------------------------------------------------------------------
  // Punnett squares
  //--------------------------------------------------------------------------------

  /** The cells of a genetic cross, in `getCell` order. */
  datatype PunnettSquare = PunnettSquare(cells: seq<GenePair>)

  /** The cross of a father's and a mother's gene pair: every combination of one of the
    * father's alleles with one of the mother's.
    */
  function Cross(father: GenePair, mother: GenePair): (sq: PunnettSquare)
    ensures |sq.cells| == LITTER_SIZE
  {
    PunnettSquare([
      GenePair(father.fatherAllele, mother.fatherAllele),
      GenePair(father.fatherAllele, mother.motherAllele),
      GenePair(father.motherAllele, mother.fatherAllele),
      GenePair(father.motherAllele, mother.motherAllele)])
  }

  /** Mendel's law of segregation for the cross: each of a parent's two alleles is
    * passed on by exactly half of the cells, and a cell's father allele comes from the
    * father, its mother allele from the mother.
    */
  lemma CrossSegregates(father: GenePair, mother: GenePair)
    ensures var c := Cross(father, mother).cells;
      multiset{c[0].fatherAllele, c[1].fatherAllele, c[2].fatherAllele, c[3].fatherAllele}
        == multiset{father.fatherAllele, father.fatherAllele, father.motherAllele, father.motherAllele}
    ensures var c := Cross(father, mother).cells;
      multiset{c[0].motherAllele, c[1].motherAllele, c[2].motherAllele, c[3].motherAllele}
        == multiset{mother.fatherAllele, mother.motherAllele, mother.fatherAllele, mother.motherAllele}
    ensures forall c :: c in Cross(father, mother).cells ==>
      father.Has(c.fatherAllele) && mother.Has(c.motherAllele)
  {
  }

  /** The cells of the three crosses at one index, as the gene pairs of one offspring. */
  function LitterCell(father: GenePairs, mother: GenePairs, j: nat): GenePairs
    requires j < LITTER_SIZE
  {
    GenePairs(
      Cross(father.fur, mother.fur).cells[j],
      Cross(father.ears, mother.ears).cells[j],
      Cross(father.teeth, mother.teeth).cells[j])
  }

  //--------------------------------------------------------------------------------
  // Gene pool
  //--------------------------------------------------------------------------------

  /** Per-gene state kept by the gene pool: the dominant allele (none until a mutation
    * has been configured) and whether a mutation is scheduled for the next litter.
    */
  datatype GeneState = GeneState(dominantAllele: Option<Allele>, mutationComing: bool)

  datatype GenePool = GenePool(furGene: GeneState, earsGene: GeneState, teethGene: GeneState)
  {
    function Get(g: Gene): GeneState
    {
      match g
      case Fur => furGene
      case Ears => earsGene
      case Teeth => teethGene
    }

    /** Clears every "mutation coming" flag and keeps the dominance. */
    function ResetMutationComing(): (p: GenePool)
      ensures forall g: Gene :: !p.Get(g).mutationComing
      ensures forall g: Gene :: p.Get(g).dominantAllele == Get(g).dominantAllele
    {
      GenePool(furGene.(mutationComing := false), earsGene.(mutationComing := false),
               teethGene.(mutationComing := false))
    }

    /** A mutant allele whose gene does not currently have it as the dominant allele. */
    predicate IsRecessiveMutation(a: Allele)
    {
      a == MutantAllele(GeneOf(a)) && Get(GeneOf(a)).dominantAllele != Some(a)
    }
  }

  /** Resetting the flags twice is resetting them once. */
  lemma ResetMutationComingIdempotent(p: GenePool)
    ensures p.ResetMutationComing().ResetMutationComing() == p.ResetMutationComing()
  {
  }

  //--------------------------------------------------------------------------------
  // Births with a forced mutation
  //--------------------------------------------------------------------------------

  /** The genotype of a newborn and the mutation (if any) it was born with. */
  datatype Birth = Birth(genotype: GenePairs, mutation: Option<Allele>)

  /** Replaces the father allele of a pair with the gene's mutant allele. */
  function ForceMutant(p: GenePair, g: Gene): GenePair
  {
    GenePair(MutantAllele(g), p.motherAllele)
  }

  /** A newborn built from one cell per gene. A gene selected for mutation receives the
    * mutant allele in one slot; the newborn records the mutant allele of the first
    * selected gene (fur, ears, teeth order) as its mutation.
    */
  function BirthGenotype(cells: GenePairs, mutateFur: bool, mutateEars: bool, mutateTeeth: bool): Birth
  {
    var g := GenePairs(
      if mutateFur then ForceMutant(cells.fur, Fur) else cells.fur,
      if mutateEars then ForceMutant(cells.ears, Ears) else cells.ears,
      if mutateTeeth then ForceMutant(cells.teeth, Teeth) else cells.teeth);
    var mutation :=
      if mutateFur then Some(MutantAllele(Fur))
      else if mutateEars then Some(MutantAllele(Ears))
      else if mutateTeeth then Some(MutantAllele(Teeth))
      else None;
    Birth(g, mutation)
  }

  /** With at most one gene selected, a newborn is a mutant exactly when a gene was
    * selected, its mutation is that gene's mutant allele, it carries that allele, and
    * every other gene pair is inherited unchanged from the cells.
    */
  lemma BirthGenotypeSingleMutation(cells: GenePairs, mutateFur: bool, mutateEars: bool, mutateTeeth: bool, g: Gene)
    requires (if mutateFur then 1 else 0) + (if mutateEars then 1 else 0) + (if mutateTeeth then 1 else 0) <= 1
    ensures var b := BirthGenotype(cells, mutateFur, mutateEars, mutateTeeth);
      var selected := match g case Fur => mutateFur case Ears => mutateEars case Teeth => mutateTeeth;
      (selected <==> b.mutation == Some(MutantAllele(g)))
      && (selected ==> b.genotype.PairOf(g).Has(MutantAllele(g)))
      && (!selected ==> b.genotype.PairOf(g) == cells.PairOf(g))
    ensures BirthGenotype(cells, mutateFur, mutateEars, mutateTeeth).mutation.Some?
      <==> mutateFur || mutateEars || mutateTeeth
  {
  }

  //--------------------------------------------------------------------------------
  // Phenotype
  //--------------------------------------------------------------------------------

  /** The expressed allele of each gene. */
  datatype Phenotype = Phenotype(fur: Allele, ears: Allele, teeth: Allele)
}
