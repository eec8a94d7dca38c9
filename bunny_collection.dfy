/** BunnyCollection: the bookkeeping of the population engine. Bunnies live in a
  * registry keyed by id (the role of the PhET-iO group that owns them); the live and
  * dead arrays and the array of recessive mutants waiting to mate eagerly hold ids.
  * Mating, ageing, death, disposal and pruning keep these arrays consistent with the
  * registry.
  */
module BunnyCollections {
  import opened Base
  import opened Genetics

  //--------------------------------------------------------------------------------
  // Bunnies
  //--------------------------------------------------------------------------------

  /** A bunny is identified by the id the registry gives it when it is created. */
  type BunnyId = nat

  /** Why a bunny died: of old age (the only cause the collection itself applies), or
    * of any other cause an environmental factor applies through `Die`.
    */
  datatype CauseOfDeath = OldAge | OtherCause

  /** What the collection reads and writes of a bunny. */
  datatype Bunny = Bunny(
    father: Option<BunnyId>, mother: Option<BunnyId>,
    generation: nat, age: nat,
    isAlive: bool, causeOfDeath: Option<CauseOfDeath>,
    genotype: GenePairs,
    mutation: Option<Allele>)
  {
    /** A bunny born with a forced mutation. */
    predicate IsOriginalMutant()
    {
      mutation.Some?
    }
  }

  //--------------------------------------------------------------------------------
  // Rest time between hops
  //--------------------------------------------------------------------------------

  /** A range of rest times, in seconds. */
  datatype RestRange = RestRange(min: nat, max: nat)

  const BUNNY_REST_RANGE_SHORT := RestRange(2, 4)
  const BUNNY_REST_RANGE_MEDIUM := RestRange(3, 7)
  const BUNNY_REST_RANGE_LONG := RestRange(5, 9)

  /** The rest range derived from the number of live bunnies. */
  function BunnyRestRange(length: nat): (r: RestRange)
    ensures r.min < r.max
    ensures r in {BUNNY_REST_RANGE_SHORT, BUNNY_REST_RANGE_MEDIUM, BUNNY_REST_RANGE_LONG}
  {
    if length < 10 then BUNNY_REST_RANGE_SHORT
    else if length < 250 then BUNNY_REST_RANGE_MEDIUM
    else BUNNY_REST_RANGE_LONG
  }

  /** A larger population never rests less: both ends of the range grow with the
    * population, and only the thresholds 10 and 250 change it.
    */
  lemma RestRangeMonotone(a: nat, b: nat)
    requires a <= b
    ensures BunnyRestRange(a).min <= BunnyRestRange(b).min
    ensures BunnyRestRange(a).max <= BunnyRestRange(b).max
    ensures (a < 10 <==> b < 10) && (a < 250 <==> b < 250) ==> BunnyRestRange(a) == BunnyRestRange(b)
  {
  }

  //--------------------------------------------------------------------------------
  // Mutation indices
  //--------------------------------------------------------------------------------

  /** `Utils.roundSymmetric` of the non-negative fraction num/den: the nearest integer,
    * halves rounded up.
    */
  function RoundSymmetric(num: nat, den: nat): (r: nat)
    requires den > 0
    ensures 2 * den * r <= 2 * num + den < 2 * den * r + 2 * den
  {
    (2 * num + den) / (2 * den)
  }

  /** How many newborns receive each applied mutation: the percentage of the litter
    * size rounded symmetrically, but at least one.
    */
  function NumberToMutate(percentNum: nat, percentDen: nat, numberToBeBorn: nat): (k: nat)
    requires percentDen > 0
    ensures k >= 1
    ensures k == 1 || k == RoundSymmetric(percentNum * numberToBeBorn, percentDen)
    ensures k >= RoundSymmetric(percentNum * numberToBeBorn, percentDen)
  {
    var r := RoundSymmetric(percentNum * numberToBeBorn, percentDen);
    if r < 1 then 1 else r
  }

  /** The indices 0 .. n-1, in order. */
  function Indices(n: nat): (s: seq<nat>)
    ensures |s| == n
    ensures forall i :: 0 <= i < n ==> s[i] == i
  {
    if n == 0 then [] else Indices(n - 1) + [n - 1]
  }

  /** The shuffled indices of `n` newborns are exactly 0 .. n-1, each once. */
  lemma PermutedIndices(n: nat, draws: seq<nat>)
    ensures Distinct(Permute(Indices(n), draws))
    ensures forall b: nat :: b in Permute(Indices(n), draws) <==> b < n
  {
    PermuteDistinct(Indices(n), draws);
    forall b: nat
      ensures b in Permute(Indices(n), draws) <==> b < n
    {
      PermuteMembers(Indices(n), draws, b);
      if b < n {
        assert Indices(n)[b] == b;
      }
    }
  }

  /** Where each mutation's indices start and end in the shuffled indices: fur takes
    * the first `numberToMutate` (or fewer, if there are not that many), ears the next,
    * teeth the next; a mutation that is not applied takes none.
    */
  function MutationBounds(n: nat, numberToMutate: nat, mutateFur: bool, mutateEars: bool, mutateTeeth: bool): (b: (nat, nat, nat))
    ensures b.0 <= b.1 <= b.2 <= n
  {
    var a := Taken(n, numberToMutate, mutateFur);
    var e := a + Taken(n - a, numberToMutate, mutateEars);
    var t := e + Taken(n - e, numberToMutate, mutateTeeth);
    (a, e, t)
  }

  /** How many of `available` indices one `splice(0, numberToMutate)` takes: none when
    * its mutation does not apply, otherwise as many as there are, up to `numberToMutate`.
    */
  function Taken(available: nat, numberToMutate: nat, applies: bool): (r: nat)
    ensures r <= available && r <= numberToMutate
    ensures !applies ==> r == 0
    ensures applies ==> (r == numberToMutate || r == available)
  {
    if !applies then 0 else if numberToMutate <= available then numberToMutate else available
  }

  /** The fur, ears and teeth index sets are disjoint, hold only indices of newborns,
    * and each has at most `numberToMutate` members, none when its mutation is off; so no
    * newborn receives two mutations.
    */
  lemma {:induction false} MutationIndicesDisjoint(n: nat, numberToMutate: nat, mutateFur: bool, mutateEars: bool,
                                                  mutateTeeth: bool, perm: seq<nat>, b: nat)
    requires Distinct(perm) && |perm| == n
    ensures var (a, e, t) := MutationBounds(n, numberToMutate, mutateFur, mutateEars, mutateTeeth);
      var fur, ears, teeth := perm[..a], perm[a..e], perm[e..t];
      |fur| <= numberToMutate && |ears| <= numberToMutate && |teeth| <= numberToMutate
      && (!mutateFur ==> fur == []) && (!mutateEars ==> ears == []) && (!mutateTeeth ==> teeth == [])
      && (b in fur ==> b !in ears && b !in teeth)
      && (b in ears ==> b !in teeth)
  {
  }

  /** The index-selection part of `mateBunnies`: the indices of the newborns are
    * shuffled (by `draws`) and each applied mutation splices its indices off the front.
    */
  method MutationIndices(numberToBeBorn: nat, numberToMutate: nat, mutateFur: bool, mutateEars: bool,
                         mutateTeeth: bool, draws: seq<nat>)
    returns (furIndices: seq<nat>, earsIndices: seq<nat>, teethIndices: seq<nat>)
    ensures var perm := Permute(Indices(numberToBeBorn), draws);
      var (a, e, t) := MutationBounds(numberToBeBorn, numberToMutate, mutateFur, mutateEars, mutateTeeth);
      furIndices == perm[..a] && earsIndices == perm[a..e] && teethIndices == perm[e..t]
  {
    var indices: seq<nat> := [];
    for i := 0 to numberToBeBorn
      invariant indices == Indices(i)
    {
      indices := indices + [i];
    }
    indices := Permute(indices, draws);
    furIndices, earsIndices, teethIndices := SpliceMutationIndices(indices, numberToMutate, mutateFur, mutateEars, mutateTeeth);
  }

  /** The successive `splice(0, numberToMutate)` calls on the shuffled indices, one per
    * applied mutation: each takes the next `Taken` indices off the front of what the
    * earlier ones left.
    */
  method SpliceMutationIndices(indices: seq<nat>, numberToMutate: nat, mutateFur: bool, mutateEars: bool, mutateTeeth: bool)
    returns (furIndices: seq<nat>, earsIndices: seq<nat>, teethIndices: seq<nat>)
    ensures var b := MutationBounds(|indices|, numberToMutate, mutateFur, mutateEars, mutateTeeth);
      furIndices == indices[..b.0] && earsIndices == indices[b.0..b.1] && teethIndices == indices[b.1..b.2]
  {
    var k1 := Taken(|indices|, numberToMutate, mutateFur);
    var k2 := Taken(|indices| - k1, numberToMutate, mutateEars);
    var k3 := Taken(|indices| - (k1 + k2), numberToMutate, mutateTeeth);
    furIndices := indices[..k1];
    earsIndices := indices[k1..k1 + k2];
    teethIndices := indices[k1 + k2..k1 + k2 + k3];
  }

  //--------------------------------------------------------------------------------
  // Eager mating helpers
  //--------------------------------------------------------------------------------

  /** A registered bunny other than the father that carries the father's mutant allele. */
  predicate IsMate(father: BunnyId, mutation: Allele, b: BunnyId, registry: map<BunnyId, Bunny>)
  {
    b != father && b in registry && registry[b].genotype.HasAllele(mutation)
  }

  /** The index of the first mate in `pool`, or -1 when there is none. */
  function FirstMateIndex(father: BunnyId, mutation: Allele, pool: seq<BunnyId>, registry: map<BunnyId, Bunny>): (i: int)
    ensures -1 <= i < |pool|
    ensures i == -1 <==> forall k :: 0 <= k < |pool| ==> !IsMate(father, mutation, pool[k], registry)
    ensures 0 <= i ==> (IsMate(father, mutation, pool[i], registry)
      && forall k :: 0 <= k < i ==> !IsMate(father, mutation, pool[k], registry))
    decreases |pool|
  {
    if |pool| == 0 then -1
    else if IsMate(father, mutation, pool[0], registry) then 0
    else
      var j := FirstMateIndex(father, mutation, pool[1..], registry);
      assert forall k :: 1 <= k < |pool| ==> pool[k] == pool[1..][k - 1];
      if j == -1 then -1 else j + 1
  }

  /** `getMateForRecessiveMutant`: the first bunny of `pool`, other than the father,
    * whose genotype has the father's mutant allele; none when no bunny qualifies.
    */
  method GetMateForRecessiveMutant(father: BunnyId, mutation: Allele, pool: seq<BunnyId>, registry: map<BunnyId, Bunny>)
    returns (mother: Option<BunnyId>)
    ensures var i := FirstMateIndex(father, mutation, pool, registry);
      mother == if i == -1 then None else Some(pool[i])
    ensures mother.Some? ==> mother.value in pool && IsMate(father, mutation, mother.value, registry)
  {
    mother := None;
    var i := 0;
    while i < |pool| && mother.None?
      invariant 0 <= i <= |pool|
      invariant mother.None? ==> forall k :: 0 <= k < i ==> !IsMate(father, mutation, pool[k], registry)
      invariant mother.Some? ==> (0 < i && mother.value == pool[i - 1] && IsMate(father, mutation, pool[i - 1], registry)
        && forall k :: 0 <= k < i - 1 ==> !IsMate(father, mutation, pool[k], registry))
    {
      var b := pool[i];
      if IsMate(father, mutation, b, registry) {
        mother := Some(b);
      }
      i := i + 1;
    }
  }

  /** Both alleles of the cell are `a`. */
  predicate Homozygous(c: GenePair, a: Allele)
  {
    c.fatherAllele == a && c.motherAllele == a
  }

  /** The index of the first homozygous `a` cell, or -1. */
  function FirstHomozygous(cells: seq<GenePair>, a: Allele): (i: int)
    ensures -1 <= i < |cells|
    ensures i == -1 <==> forall k :: 0 <= k < |cells| ==> !Homozygous(cells[k], a)
    ensures 0 <= i ==> Homozygous(cells[i], a) && forall k :: 0 <= k < i ==> !Homozygous(cells[k], a)
    decreases |cells|
  {
    if |cells| == 0 then -1
    else if Homozygous(cells[0], a) then 0
    else
      var j := FirstHomozygous(cells[1..], a);
      assert forall k :: 1 <= k < |cells| ==> cells[k] == cells[1..][k - 1];
      if j == -1 then -1 else j + 1
  }

  /** The index of the first cell holding `a` in either slot, or -1. */
  function FirstHaving(cells: seq<GenePair>, a: Allele): (i: int)
    ensures -1 <= i < |cells|
    ensures i == -1 <==> forall k :: 0 <= k < |cells| ==> !cells[k].Has(a)
    ensures 0 <= i ==> cells[i].Has(a) && forall k :: 0 <= k < i ==> !cells[k].Has(a)
    decreases |cells|
  {
    if |cells| == 0 then -1
    else if cells[0].Has(a) then 0
    else
      var j := FirstHaving(cells[1..], a);
      assert forall k :: 1 <= k < |cells| ==> cells[k] == cells[1..][k - 1];
      if j == -1 then -1 else j + 1
  }

  /** The cell chosen for the additional offspring of an eager mating: the first
    * homozygous mutant cell; failing that, when a dominant allele is set, the first cell
    * holding it; failing that, the randomly drawn cell.
    */
  function AdditionalCell(cells: seq<GenePair>, mutantAllele: Allele, dominantAllele: Option<Allele>,
                          randomIndex: nat): (c: GenePair)
    requires randomIndex < |cells|
    ensures c in cells
  {
    var h := FirstHomozygous(cells, mutantAllele);
    if h >= 0 then cells[h]
    else if dominantAllele.Some? && FirstHaving(cells, dominantAllele.value) >= 0 then
      cells[FirstHaving(cells, dominantAllele.value)]
    else cells[randomIndex]
  }

  /** The priority of the choice: a homozygous mutant cell whenever there is one, and
    * otherwise a cell with the dominant allele whenever there is one.
    */
  lemma AdditionalCellPriority(cells: seq<GenePair>, mutantAllele: Allele, dominantAllele: Option<Allele>,
                               randomIndex: nat)
    requires randomIndex < |cells|
    ensures var c := AdditionalCell(cells, mutantAllele, dominantAllele, randomIndex);
      ((exists k :: 0 <= k < |cells| && Homozygous(cells[k], mutantAllele)) ==> Homozygous(c, mutantAllele))
      && ((forall k :: 0 <= k < |cells| ==> !Homozygous(cells[k], mutantAllele))
          && dominantAllele.Some? && (exists k :: 0 <= k < |cells| && cells[k].Has(dominantAllele.value))
          ==> c.Has(dominantAllele.value))
  {
  }

  /** `getAdditionalPunnettCell`: two searches with a found-variable, then the random
    * cell (its index supplied as `randomIndex`).
    */
  method GetAdditionalPunnettCell(square: PunnettSquare, mutantAllele: Allele, dominantAllele: Option<Allele>,
                                  randomIndex: nat)
    returns (cell: GenePair)
    requires randomIndex < |square.cells|
    ensures cell == AdditionalCell(square.cells, mutantAllele, dominantAllele, randomIndex)
  {
    var cells := square.cells;
    var found: Option<GenePair> := None;
    var i := 0;
    while i < |cells| && found.None?
      invariant 0 <= i <= |cells|
      invariant found.None? ==> forall k :: 0 <= k < i ==> !Homozygous(cells[k], mutantAllele)
      invariant found.Some? ==>
        FirstHomozygous(cells, mutantAllele) >= 0 && found == Some(cells[FirstHomozygous(cells, mutantAllele)])
    {
      if Homozygous(cells[i], mutantAllele) {
        found := Some(cells[i]);
      }
      i := i + 1;
    }
    if found.None? && dominantAllele.Some? {
      i := 0;
      while i < |cells| && found.None?
        invariant 0 <= i <= |cells|
        invariant found.None? ==> forall k :: 0 <= k < i ==> !cells[k].Has(dominantAllele.value)
        invariant found.Some? ==>
          FirstHaving(cells, dominantAllele.value) >= 0 && found == Some(cells[FirstHaving(cells, dominantAllele.value)])
      {
        if cells[i].Has(dominantAllele.value) {
          found := Some(cells[i]);
        }
        i := i + 1;
      }
    }
    if found.None? {
      cell := square.cells[randomIndex];
    } else {
      cell := found.value;
    }
  }

  //--------------------------------------------------------------------------------
  // The population: the registry and the arrays over it
  //--------------------------------------------------------------------------------

  /** What the collection knows of its bunnies: the registry (the group that owns them,
    * by id), the id the next bunny receives, the live and dead bunnies and the recessive
    * mutants waiting to mate eagerly. Every operation changes these together.
    */
  datatype Population = Population(
    bunnyGroup: map<BunnyId, Bunny>, nextId: BunnyId,
    liveBunnies: seq<BunnyId>, deadBunnies: seq<BunnyId>, recessiveMutants: seq<BunnyId>)
  {
    /** The registry and the arrays agree: no array holds a bunny twice; every live
      * bunny is registered, alive and younger than `maxAge`; every dead bunny is
      * registered and dead; every registered bunny has an id below `nextId` and is live
      * or dead; every recessive mutant is a live original mutant.
      */
    ghost predicate Consistent(maxAge: nat)
    {
      Distinct(liveBunnies) && Distinct(deadBunnies) && Distinct(recessiveMutants)
      && (forall id :: id in liveBunnies ==> id in bunnyGroup && bunnyGroup[id].isAlive && bunnyGroup[id].age < maxAge)
      && (forall id :: id in deadBunnies ==> id in bunnyGroup && !bunnyGroup[id].isAlive)
      && (forall id :: id in bunnyGroup ==> id < nextId && (id in liveBunnies || id in deadBunnies))
      && (forall id :: id in recessiveMutants ==> id in liveBunnies && id in bunnyGroup && bunnyGroup[id].IsOriginalMutant())
    }

    /** `createBunny` and the created-listener: the bunny is registered under the next
      * id and pushed onto the live bunnies.
      */
    function Born(b: Bunny): Population
    {
      Population(bunnyGroup[nextId := b], nextId + 1, liveBunnies + [nextId], deadBunnies, recessiveMutants)
    }

    /** `bunny.die(cause)` and the died-listener: the bunny is dead of `cause`, leaves
      * the live bunnies and the recessive mutants, and joins the dead bunnies.
      */
    function Died(id: BunnyId, cause: CauseOfDeath): Population
      requires id in bunnyGroup
    {
      Population(bunnyGroup[id := bunnyGroup[id].(isAlive := false, causeOfDeath := Some(cause))], nextId,
                 Without(liveBunnies, {id}), deadBunnies + [id], Without(recessiveMutants, {id}))
    }

    /** Disposal and the disposed-listener: the bunny leaves the registry and every array. */
    function Disposed(id: BunnyId): Population
    {
      Population(bunnyGroup - {id}, nextId, Without(liveBunnies, {id}), Without(deadBunnies, {id}),
                 Without(recessiveMutants, {id}))
    }

    /** One bunny of `ageBunnies`: if ageing makes it MAX_AGE it first dies of old age,
      * and its record is then the aged bunny.
      */
    function AgedOne(id: BunnyId, maxAge: nat): Population
    {
      if id !in bunnyGroup then this
      else
        var b := bunnyGroup[id];
        var p := if ReachesMaxAge(b, maxAge) then Died(id, OldAge) else this;
        p.(bunnyGroup := p.bunnyGroup[id := Aged(b, maxAge)])
    }

    /** The bunnies `ids` aged one at a time, in order. */
    function AgedBy(ids: seq<BunnyId>, maxAge: nat): Population
      decreases |ids|
    {
      if |ids| == 0 then this else AgedBy(ids[..|ids| - 1], maxAge).AgedOne(ids[|ids| - 1], maxAge)
    }

    /** A bunny `pruneDeadBunnies` disposes of: registered, from more than
      * `maxDeadBunnyGenerations` generations ago, and not the selected bunny.
      */
    predicate Prunable(id: BunnyId, currentGeneration: int, maxDeadBunnyGenerations: int, selected: Option<BunnyId>)
    {
      id in bunnyGroup && currentGeneration - bunnyGroup[id].generation > maxDeadBunnyGenerations
      && selected != Some(id)
    }

    function PrunedOne(id: BunnyId, currentGeneration: int, maxDeadBunnyGenerations: int,
                       selected: Option<BunnyId>): Population
    {
      if Prunable(id, currentGeneration, maxDeadBunnyGenerations, selected) then Disposed(id) else this
    }

    /** A birth of the main mating loop: `Born`, and a newborn that is a tracked mutant is
      * also pushed onto the recessive mutants.
      */
    function BornTracked(b: Bunny, pool: GenePool): Population
    {
      var p := Born(b);
      if IsTrackedMutant(b, pool) then p.(recessiveMutants := p.recessiveMutants + [nextId]) else p
    }

    /** The newborns `bs` born one at a time, in order. */
    function BornAll(bs: seq<Bunny>, pool: GenePool): Population
      decreases |bs|
    {
      if |bs| == 0 then this else BornAll(bs[..|bs| - 1], pool).BornTracked(bs[|bs| - 1], pool)
    }

    /** The bunnies `ids` considered for pruning from the last to the first. */
    function PrunedBy(ids: seq<BunnyId>, currentGeneration: int, maxDeadBunnyGenerations: int,
                      selected: Option<BunnyId>): Population
      decreases |ids|
    {
      if |ids| == 0 then this
      else PrunedBy(ids[1..], currentGeneration, maxDeadBunnyGenerations, selected)
             .PrunedOne(ids[0], currentGeneration, maxDeadBunnyGenerations, selected)
    }
  }

  /** A consistent registry is split by the arrays: its size is the number of live plus
    * the number of dead bunnies, and no bunny is both.
    */
  lemma ConsistentCounts(p: Population, maxAge: nat)
    requires p.Consistent(maxAge)
    ensures |p.liveBunnies| + |p.deadBunnies| == |p.bunnyGroup|
    ensures forall id :: id in p.liveBunnies ==> id !in p.deadBunnies
  {
    var l, d := Elements(p.liveBunnies), Elements(p.deadBunnies);
    assert l + d == p.bunnyGroup.Keys;
    assert l * d == {};
    DistinctCardinality(p.liveBunnies);
    DistinctCardinality(p.deadBunnies);
  }

  /** A live newborn younger than MAX_AGE joins consistently under a fresh id. */
  lemma BornConsistent(p: Population, maxAge: nat, b: Bunny)
    requires p.Consistent(maxAge)
    requires b.isAlive && b.age < maxAge
    ensures p.nextId !in p.bunnyGroup && p.nextId !in p.liveBunnies && p.nextId !in p.recessiveMutants
    ensures p.Born(b).Consistent(maxAge)
  {
    DistinctSnoc(p.liveBunnies, p.nextId);
  }

  /** A live bunny that dies moves consistently to the dead bunnies. */
  lemma DiedConsistent(p: Population, maxAge: nat, id: BunnyId, cause: CauseOfDeath)
    requires p.Consistent(maxAge)
    requires id in p.liveBunnies
    ensures p.Died(id, cause).Consistent(maxAge)
  {
    ConsistentCounts(p, maxAge);
    DistinctSnoc(p.deadBunnies, id);
    WithoutDistinct(p.liveBunnies, {id});
    WithoutDistinct(p.recessiveMutants, {id});
    WithoutElements(p.liveBunnies, {id});
    WithoutElements(p.recessiveMutants, {id});
  }

  /** Any bunny disposed of leaves the population consistent. */
  lemma DisposedConsistent(p: Population, maxAge: nat, id: BunnyId)
    requires p.Consistent(maxAge)
    ensures p.Disposed(id).Consistent(maxAge)
  {
    WithoutDistinct(p.liveBunnies, {id});
    WithoutDistinct(p.deadBunnies, {id});
    WithoutDistinct(p.recessiveMutants, {id});
    WithoutElements(p.liveBunnies, {id});
    WithoutElements(p.deadBunnies, {id});
    WithoutElements(p.recessiveMutants, {id});
  }

  /** Ageing a live bunny keeps the population consistent: it either stays live and
    * younger than MAX_AGE, or has died of old age.
    */
  lemma AgedOneConsistent(p: Population, maxAge: nat, id: BunnyId)
    requires p.Consistent(maxAge)
    requires id in p.liveBunnies
    ensures p.AgedOne(id, maxAge).Consistent(maxAge)
  {
    if ReachesMaxAge(p.bunnyGroup[id], maxAge) {
      DiedConsistent(p, maxAge, id, OldAge);
    }
  }

  /** `array.includes(x) && array.remove(x)`: the first occurrence, if any, removed. */
  method RemoveIfIncluded(s: seq<BunnyId>, x: BunnyId) returns (r: seq<BunnyId>)
    requires Distinct(s)
    ensures r == Without(s, {x})
  {
    if x in s {
      SpliceIndexOf(s, x);
      r := SpliceOne(s, IndexOf(s, x));
    } else {
      WithoutMembers(s, {x}, x);
      WithoutNothing(s, {x});
      r := s;
    }
  }

  /** The died-listener's array updates: `liveBunnies.remove`, `deadBunnies.push` and,
    * if it is one, the removal from the recessive mutants.
    */
  method RecordDeath(p: Population, maxAge: nat, id: BunnyId, cause: CauseOfDeath) returns (q: Population)
    requires p.Consistent(maxAge)
    requires id in p.liveBunnies
    ensures q == p.Died(id, cause)
    ensures q.Consistent(maxAge)
  {
    DiedConsistent(p, maxAge, id, cause);
    var live := RemoveIfIncluded(p.liveBunnies, id);
    var mutants := RemoveIfIncluded(p.recessiveMutants, id);
    q := Population(p.bunnyGroup[id := p.bunnyGroup[id].(isAlive := false, causeOfDeath := Some(cause))], p.nextId,
                    live, p.deadBunnies + [id], mutants);
  }

  /** The disposed-listener's array updates: each array that includes the bunny drops it. */
  method RecordDisposal(p: Population, maxAge: nat, id: BunnyId) returns (q: Population)
    requires p.Consistent(maxAge)
    ensures q == p.Disposed(id)
    ensures q.Consistent(maxAge)
  {
    DisposedConsistent(p, maxAge, id);
    var live := RemoveIfIncluded(p.liveBunnies, id);
    var dead := RemoveIfIncluded(p.deadBunnies, id);
    var mutants := RemoveIfIncluded(p.recessiveMutants, id);
    q := Population(p.bunnyGroup - {id}, p.nextId, live, dead, mutants);
  }

  /** `bunnies.splice(bunnies.indexOf(m), 1)` for each `m` of `mutants` in turn: every
    * mutant, all of them present, is spliced out of `s`.
    */
  method SpliceOutAll(s: seq<BunnyId>, mutants: seq<BunnyId>) returns (r: seq<BunnyId>)
    requires Distinct(s) && Distinct(mutants)
    requires forall m :: m in mutants ==> m in s
    ensures r == Without(s, Elements(mutants))
  {
    WithoutNothing(s, {});
    assert Elements(mutants[..0]) == {};
    r := s;
    for i := 0 to |mutants|
      invariant r == Without(s, Elements(mutants[..i]))
    {
      var m := mutants[i];
      assert m !in mutants[..i];
      WithoutMembers(s, Elements(mutants[..i]), m);
      WithoutDistinct(s, Elements(mutants[..i]));
      SpliceIndexOf(r, m);
      WithoutWithout(s, Elements(mutants[..i]), {m});
      assert Elements(mutants[..i]) + {m} == Elements(mutants[..i + 1]);
      r := SpliceOne(r, IndexOf(r, m));
    }
    assert mutants[..|mutants|] == mutants;
  }

  /** The selection candidates hold no bunny twice and are exactly the live bunnies that
    * are not recessive mutants.
    */
  lemma CandidatesOf(live: seq<BunnyId>, draws: seq<nat>, mutants: seq<BunnyId>)
    requires Distinct(live)
    ensures Distinct(Without(Permute(live, draws), Elements(mutants)))
    ensures forall id :: id in Without(Permute(live, draws), Elements(mutants)) <==> id in live && id !in mutants
  {
    PermuteDistinct(live, draws);
    WithoutDistinct(Permute(live, draws), Elements(mutants));
    forall id
      ensures id in Without(Permute(live, draws), Elements(mutants)) <==> id in live && id !in mutants
    {
      WithoutMembers(Permute(live, draws), Elements(mutants), id);
      PermuteMembers(live, draws, id);
    }
  }

  //--------------------------------------------------------------------------------
  // Ageing
  //--------------------------------------------------------------------------------

  /** A bunny one generation older reaches MAX_AGE. */
  predicate ReachesMaxAge(b: Bunny, maxAge: nat)
  {
    b.age + 1 == maxAge
  }

  /** A bunny one generation older, dead of old age if that makes it MAX_AGE. */
  function Aged(b: Bunny, maxAge: nat): (r: Bunny)
    ensures r.age == b.age + 1
    ensures r.isAlive == (b.isAlive && !ReachesMaxAge(b, maxAge))
    ensures ReachesMaxAge(b, maxAge) ==> r.causeOfDeath == Some(OldAge)
    ensures r.(age := b.age, isAlive := b.isAlive, causeOfDeath := b.causeOfDeath) == b
  {
    if ReachesMaxAge(b, maxAge) then b.(age := b.age + 1, isAlive := false, causeOfDeath := Some(OldAge))
    else b.(age := b.age + 1)
  }

  /** The registry after the bunnies `ids` have each aged once. */
  function AgedGroup(group: map<BunnyId, Bunny>, ids: seq<BunnyId>, maxAge: nat): (r: map<BunnyId, Bunny>)
    ensures r.Keys == group.Keys
    decreases |ids|
  {
    if |ids| == 0 then group
    else
      var g, x := AgedGroup(group, ids[..|ids| - 1], maxAge), ids[|ids| - 1];
      if x in group then g[x := Aged(group[x], maxAge)] else g
  }

  /** The bunnies of `ids` that die of old age on ageing, in order. */
  function OldAgeDeaths(group: map<BunnyId, Bunny>, ids: seq<BunnyId>, maxAge: nat): (r: seq<BunnyId>)
    decreases |ids|
  {
    if |ids| == 0 then []
    else
      var d, x := OldAgeDeaths(group, ids[..|ids| - 1], maxAge), ids[|ids| - 1];
      if x in group && ReachesMaxAge(group[x], maxAge) then d + [x] else d
  }

  /** Each registered bunny in `ids` ages exactly once; every other bunny is untouched,
    * and no bunny enters or leaves the registry.
    */
  lemma {:induction false} AgedGroupAt(group: map<BunnyId, Bunny>, ids: seq<BunnyId>, maxAge: nat, x: BunnyId)
    requires Distinct(ids)
    ensures x in group ==> AgedGroup(group, ids, maxAge)[x] == if x in ids then Aged(group[x], maxAge) else group[x]
    decreases |ids|
  {
    if |ids| > 0 {
      var init := ids[..|ids| - 1];
      assert ids == init + [ids[|ids| - 1]];
      DistinctPrefix(ids, |ids| - 1);
      AgedGroupAt(group, init, maxAge, x);
    }
  }

  /** The old-age deaths are exactly the registered bunnies of `ids` that reach MAX_AGE. */
  lemma {:induction false} OldAgeDeathsMembers(group: map<BunnyId, Bunny>, ids: seq<BunnyId>, maxAge: nat, x: BunnyId)
    ensures x in OldAgeDeaths(group, ids, maxAge) <==> x in ids && x in group && ReachesMaxAge(group[x], maxAge)
    decreases |ids|
  {
    if |ids| > 0 {
      var init := ids[..|ids| - 1];
      assert ids == init + [ids[|ids| - 1]];
      OldAgeDeathsMembers(group, init, maxAge, x);
    }
  }

  /** The old-age deaths of distinct bunnies are distinct. */
  lemma {:induction false} OldAgeDeathsDistinct(group: map<BunnyId, Bunny>, ids: seq<BunnyId>, maxAge: nat)
    requires Distinct(ids)
    ensures Distinct(OldAgeDeaths(group, ids, maxAge))
    decreases |ids|
  {
    if |ids| > 0 {
      var init, x := ids[..|ids| - 1], ids[|ids| - 1];
      DistinctPrefix(ids, |ids| - 1);
      OldAgeDeathsDistinct(group, init, maxAge);
      OldAgeDeathsMembers(group, init, maxAge, x);
      assert x !in init;
      if x in group && ReachesMaxAge(group[x], maxAge) {
        DistinctSnoc(OldAgeDeaths(group, init, maxAge), x);
      }
    }
  }

  /** Ageing distinct bunnies one at a time is ageing the registry all at once: the
    * old-age deaths leave the live bunnies and the recessive mutants and are appended to
    * the dead bunnies in the order they aged.
    */
  lemma {:induction false} AgedByClosedForm(p: Population, ids: seq<BunnyId>, maxAge: nat)
    requires Distinct(ids)
    ensures var deaths := OldAgeDeaths(p.bunnyGroup, ids, maxAge);
      p.AgedBy(ids, maxAge) == Population(AgedGroup(p.bunnyGroup, ids, maxAge), p.nextId,
        Without(p.liveBunnies, Elements(deaths)), p.deadBunnies + deaths, Without(p.recessiveMutants, Elements(deaths)))
    decreases |ids|
  {
    if |ids| == 0 {
      assert Elements<BunnyId>([]) == {};
      WithoutNothing(p.liveBunnies, {});
      WithoutNothing(p.recessiveMutants, {});
    } else {
      var init, x := ids[..|ids| - 1], ids[|ids| - 1];
      var d := OldAgeDeaths(p.bunnyGroup, init, maxAge);
      DistinctPrefix(ids, |ids| - 1);
      AgedByClosedForm(p, init, maxAge);
      AgedGroupAt(p.bunnyGroup, init, maxAge, x);
      if x in p.bunnyGroup && ReachesMaxAge(p.bunnyGroup[x], maxAge) {
        WithoutWithout(p.liveBunnies, Elements(d), {x});
        WithoutWithout(p.recessiveMutants, Elements(d), {x});
        assert Elements(d + [x]) == Elements(d) + {x};
      }
    }
  }

  /** While `ageBunnies` works through the live bunnies, the next one is still live. */
  lemma AgeingReachesNext(p: Population, maxAge: nat, i: nat)
    requires Distinct(p.liveBunnies) && i < |p.liveBunnies|
    ensures p.liveBunnies[i] in p.AgedBy(p.liveBunnies[..i], maxAge).liveBunnies
  {
    var ids, x := p.liveBunnies, p.liveBunnies[i];
    DistinctPrefix(ids, i);
    AgedByClosedForm(p, ids[..i], maxAge);
    OldAgeDeathsMembers(p.bunnyGroup, ids[..i], maxAge, x);
    WithoutMembers(ids, Elements(OldAgeDeaths(p.bunnyGroup, ids[..i], maxAge)), x);
  }

  /** A live bunny younger than MAX_AGE stays alive on ageing exactly when it is not
    * among the old-age deaths, and then it is still younger than MAX_AGE.
    */
  lemma SurvivorsYounger(group: map<BunnyId, Bunny>, ids: seq<BunnyId>, maxAge: nat, x: BunnyId)
    requires Distinct(ids) && x in ids && x in group
    requires group[x].isAlive && group[x].age < maxAge
    ensures AgedGroup(group, ids, maxAge)[x].isAlive <==> x !in OldAgeDeaths(group, ids, maxAge)
    ensures AgedGroup(group, ids, maxAge)[x].isAlive ==> AgedGroup(group, ids, maxAge)[x].age < maxAge
  {
    AgedGroupAt(group, ids, maxAge, x);
    OldAgeDeathsMembers(group, ids, maxAge, x);
  }

  //--------------------------------------------------------------------------------
  // Pruning
  //--------------------------------------------------------------------------------

  /** The bunnies of `ids` that pruning disposes of. */
  ghost function PrunedIds(p: Population, ids: seq<BunnyId>, currentGeneration: int, maxDeadBunnyGenerations: int,
                           selected: Option<BunnyId>): set<BunnyId>
  {
    set id | id in ids && p.Prunable(id, currentGeneration, maxDeadBunnyGenerations, selected)
  }

  /** Pruning distinct bunnies one at a time disposes of exactly the prunable ones, all
    * judged on the population as it was: they leave the registry and every array, and
    * nothing else changes.
    */
  lemma {:induction false} PrunedByClosedForm(p: Population, ids: seq<BunnyId>, currentGeneration: int,
                                              maxDeadBunnyGenerations: int, selected: Option<BunnyId>)
    requires Distinct(ids)
    ensures var gone := PrunedIds(p, ids, currentGeneration, maxDeadBunnyGenerations, selected);
      p.PrunedBy(ids, currentGeneration, maxDeadBunnyGenerations, selected) == Population(
        p.bunnyGroup - gone, p.nextId, Without(p.liveBunnies, gone), Without(p.deadBunnies, gone),
        Without(p.recessiveMutants, gone))
    decreases |ids|
  {
    var gone := PrunedIds(p, ids, currentGeneration, maxDeadBunnyGenerations, selected);
    if |ids| == 0 {
      assert gone == {};
      assert p.bunnyGroup - gone == p.bunnyGroup;
      WithoutNothing(p.liveBunnies, {});
      WithoutNothing(p.deadBunnies, {});
      WithoutNothing(p.recessiveMutants, {});
    } else {
      var x, rest := ids[0], ids[1..];
      var gone' := PrunedIds(p, rest, currentGeneration, maxDeadBunnyGenerations, selected);
      DistinctSuffix(ids, 1);
      assert ids[..1] == [x];
      PrunedByClosedForm(p, rest, currentGeneration, maxDeadBunnyGenerations, selected);
      var q := p.PrunedBy(rest, currentGeneration, maxDeadBunnyGenerations, selected);
      assert x !in gone';
      assert q.Prunable(x, currentGeneration, maxDeadBunnyGenerations, selected)
        == p.Prunable(x, currentGeneration, maxDeadBunnyGenerations, selected);
      if p.Prunable(x, currentGeneration, maxDeadBunnyGenerations, selected) {
        assert gone == gone' + {x};
        assert p.bunnyGroup - gone == (p.bunnyGroup - gone') - {x};
        WithoutWithout(p.liveBunnies, gone', {x});
        WithoutWithout(p.deadBunnies, gone', {x});
        WithoutWithout(p.recessiveMutants, gone', {x});
      } else {
        assert gone == gone';
      }
    }
  }

  /** While `pruneDeadBunnies` works backwards through the dead bunnies, the ones it has
    * not reached are still in place and unchanged.
    */
  lemma PruneReachesNext(p: Population, i: nat, currentGeneration: int, maxDeadBunnyGenerations: int,
                         selected: Option<BunnyId>)
    requires Distinct(p.deadBunnies) && i < |p.deadBunnies| && p.deadBunnies[i] in p.bunnyGroup
    ensures var q, x := p.PrunedBy(p.deadBunnies[i + 1..], currentGeneration, maxDeadBunnyGenerations, selected),
                        p.deadBunnies[i];
      i < |q.deadBunnies| && q.deadBunnies[i] == x && x in q.bunnyGroup && q.bunnyGroup[x] == p.bunnyGroup[x]
  {
    var dead, x := p.deadBunnies, p.deadBunnies[i];
    var front, back := dead[..i + 1], dead[i + 1..];
    var gone := PrunedIds(p, back, currentGeneration, maxDeadBunnyGenerations, selected);
    DistinctSuffix(dead, i + 1);
    PrunedByClosedForm(p, back, currentGeneration, maxDeadBunnyGenerations, selected);
    assert dead == front + back;
    WithoutAppend(front, back, gone);
    WithoutNothing(front, gone);
    assert front[i] == x;
  }

  //--------------------------------------------------------------------------------
  // Births
  //--------------------------------------------------------------------------------

  /** The bunny `createBunny` registers for a newborn of `father` and `mother`. */
  function Newborn(father: BunnyId, mother: BunnyId, generation: nat, birth: Birth): Bunny
  {
    Bunny(Some(father), Some(mother), generation, 0, true, None, birth.genotype, birth.mutation)
  }

  /** A newborn the main mating loop keeps track of, to be mated eagerly later: an
    * original mutant whose mutation is recessive.
    */
  predicate IsTrackedMutant(b: Bunny, pool: GenePool)
  {
    b.IsOriginalMutant() && pool.IsRecessiveMutation(b.mutation.value)
  }

  /** The ids from `start` on, `n` of them. */
  function IdsFrom(start: nat, n: nat): (r: seq<BunnyId>)
    ensures |r| == n
    ensures forall k :: 0 <= k < n ==> r[k] == start + k
  {
    if n == 0 then [] else IdsFrom(start, n - 1) + [start + n - 1]
  }

  /** The ids, counting from `start`, of the newborns of `bs` that are tracked mutants. */
  function TrackedIds(start: nat, bs: seq<Bunny>, pool: GenePool): seq<BunnyId>
    decreases |bs|
  {
    if |bs| == 0 then []
    else
      TrackedIds(start, bs[..|bs| - 1], pool)
        + (if IsTrackedMutant(bs[|bs| - 1], pool) then [start + |bs| - 1] else [])
  }

  /** Births one at a time are births all at once: the newborns receive consecutive ids
    * from `nextId` and join the live bunnies in birth order, the tracked mutants among
    * them join the recessive mutants, and the dead bunnies stay as they were.
    */
  lemma {:induction false} BornAllClosedForm(p: Population, bs: seq<Bunny>, pool: GenePool)
    ensures var r := p.BornAll(bs, pool);
      r.nextId == p.nextId + |bs|
      && r.liveBunnies == p.liveBunnies + IdsFrom(p.nextId, |bs|)
      && r.deadBunnies == p.deadBunnies
      && r.recessiveMutants == p.recessiveMutants + TrackedIds(p.nextId, bs, pool)
    decreases |bs|
  {
    if |bs| > 0 {
      var init := bs[..|bs| - 1];
      BornAllClosedForm(p, init, pool);
      assert IdsFrom(p.nextId, |bs|) == IdsFrom(p.nextId, |init|) + [p.nextId + |init|];
    }
  }

  /** The registry after the births: the newborns are registered under the ids from
    * `nextId` on, and no earlier bunny changes.
    */
  lemma {:induction false} BornAllGroup(p: Population, bs: seq<Bunny>, pool: GenePool)
    ensures var r := p.BornAll(bs, pool);
      r.nextId == p.nextId + |bs|
      && (forall id :: id in r.bunnyGroup <==> id in p.bunnyGroup || p.nextId <= id < p.nextId + |bs|)
      && (forall id :: id in p.bunnyGroup && id < p.nextId ==> r.bunnyGroup[id] == p.bunnyGroup[id])
      && (forall k :: 0 <= k < |bs| ==> r.bunnyGroup[p.nextId + k] == bs[k])
    decreases |bs|
  {
    if |bs| > 0 {
      var init := bs[..|bs| - 1];
      BornAllGroup(p, init, pool);
      forall k | 0 <= k < |init|
        ensures init[k] == bs[k]
      {
      }
    }
  }

  /** One more birth after a batch. */
  lemma BornAllSnoc(p: Population, bs: seq<Bunny>, b: Bunny, pool: GenePool)
    ensures p.BornAll(bs + [b], pool) == p.BornAll(bs, pool).BornTracked(b, pool)
  {
    assert (bs + [b])[..|bs|] == bs;
  }

  /** A bunny registered before the births is still registered, unchanged. */
  lemma BornAllKeeps(p: Population, bs: seq<Bunny>, pool: GenePool, id: BunnyId)
    requires id in p.bunnyGroup && id < p.nextId
    ensures id in p.BornAll(bs, pool).bunnyGroup && p.BornAll(bs, pool).bunnyGroup[id] == p.bunnyGroup[id]
  {
    BornAllGroup(p, bs, pool);
  }

  /** Live newborns younger than MAX_AGE join a population consistently. */
  lemma {:induction false} BornAllConsistent(p: Population, maxAge: nat, bs: seq<Bunny>, pool: GenePool)
    requires p.Consistent(maxAge)
    requires forall k :: 0 <= k < |bs| ==> bs[k].isAlive && bs[k].age < maxAge
    ensures p.BornAll(bs, pool).Consistent(maxAge)
    decreases |bs|
  {
    if |bs| > 0 {
      var init := bs[..|bs| - 1];
      assert forall k :: 0 <= k < |init| ==> init[k] == bs[k];
      BornAllConsistent(p, maxAge, init, pool);
      BornTrackedConsistent(p.BornAll(init, pool), maxAge, bs[|bs| - 1], pool);
    }
  }

  /** A live newborn younger than MAX_AGE, tracked or not, joins consistently. */
  lemma BornTrackedConsistent(p: Population, maxAge: nat, b: Bunny, pool: GenePool)
    requires p.Consistent(maxAge)
    requires b.isAlive && b.age < maxAge
    ensures p.BornTracked(b, pool).Consistent(maxAge)
  {
    BornConsistent(p, maxAge, b);
    DistinctSnoc(p.recessiveMutants, p.nextId);
  }

  //--------------------------------------------------------------------------------
  // Mating
  //--------------------------------------------------------------------------------

  /** Newborn `j` of a litter of `father` and `mother` whose first newborn has index
    * `firstIndex`: its cells are the `j`-th of the parents' crosses, and a mutation is
    * applied where its index was picked for it.
    */
  function LitterBirth(father: BunnyId, mother: BunnyId, fatherGenotype: GenePairs, motherGenotype: GenePairs,
                       generation: nat, firstIndex: nat, fur: seq<nat>, ears: seq<nat>, teeth: seq<nat>,
                       j: nat): Bunny
    requires j < LITTER_SIZE
  {
    var bornIndex := firstIndex + j;
    Newborn(father, mother, generation,
            BirthGenotype(LitterCell(fatherGenotype, motherGenotype, j), bornIndex in fur, bornIndex in ears,
                          bornIndex in teeth))
  }

  /** The first `n` newborns of a litter. */
  function Litter(father: BunnyId, mother: BunnyId, fatherGenotype: GenePairs, motherGenotype: GenePairs,
                  generation: nat, firstIndex: nat, fur: seq<nat>, ears: seq<nat>, teeth: seq<nat>,
                  n: nat): (r: seq<Bunny>)
    requires n <= LITTER_SIZE
    ensures |r| == n
  {
    if n == 0 then []
    else
      Litter(father, mother, fatherGenotype, motherGenotype, generation, firstIndex, fur, ears, teeth, n - 1)
        + [LitterBirth(father, mother, fatherGenotype, motherGenotype, generation, firstIndex, fur, ears, teeth, n - 1)]
  }

  /** The litters of the first `k` pairs of the main mating loop: pair `k - 1` mates
    * `bunnies[2k - 1]` (the father) with `bunnies[2k - 2]` (the mother).
    */
  function PairLitters(group: map<BunnyId, Bunny>, bunnies: seq<BunnyId>, generation: nat, fur: seq<nat>,
                       ears: seq<nat>, teeth: seq<nat>, k: nat): (r: seq<Bunny>)
    requires 2 * k <= |bunnies|
    requires forall b :: b in bunnies ==> b in group
    ensures |r| == k * LITTER_SIZE
  {
    if k == 0 then []
    else
      var father, mother := bunnies[2 * k - 1], bunnies[2 * k - 2];
      PairLitters(group, bunnies, generation, fur, ears, teeth, k - 1)
        + Litter(father, mother, group[father].genotype, group[mother].genotype, generation,
                 (k - 1) * LITTER_SIZE, fur, ears, teeth, LITTER_SIZE)
  }

  /** The litters of one more pair: that pair's litter follows the earlier ones. */
  lemma PairLittersNext(group: map<BunnyId, Bunny>, bunnies: seq<BunnyId>, generation: nat, fur: seq<nat>,
                        ears: seq<nat>, teeth: seq<nat>, k: nat)
    requires 2 * k + 2 <= |bunnies|
    requires forall b :: b in bunnies ==> b in group
    ensures var father, mother := bunnies[2 * k + 1], bunnies[2 * k];
      PairLitters(group, bunnies, generation, fur, ears, teeth, k + 1)
      == PairLitters(group, bunnies, generation, fur, ears, teeth, k)
         + Litter(father, mother, group[father].genotype, group[mother].genotype, generation,
                  k * LITTER_SIZE, fur, ears, teeth, LITTER_SIZE)
  {
  }

  /** Newborn `n` of a litter of at least `n + 1`. */
  lemma {:induction false} LitterAt(father: BunnyId, mother: BunnyId, fatherGenotype: GenePairs, motherGenotype: GenePairs,
                                    generation: nat, firstIndex: nat, fur: seq<nat>, ears: seq<nat>, teeth: seq<nat>,
                                    n: nat, j: nat)
    requires j < n <= LITTER_SIZE
    ensures Litter(father, mother, fatherGenotype, motherGenotype, generation, firstIndex, fur, ears, teeth, n)[j]
      == LitterBirth(father, mother, fatherGenotype, motherGenotype, generation, firstIndex, fur, ears, teeth, j)
    decreases n
  {
    if j < n - 1 {
      LitterAt(father, mother, fatherGenotype, motherGenotype, generation, firstIndex, fur, ears, teeth, n - 1, j);
    }
  }

  /** The `n`-th newborn of the main mating loop belongs to pair `n / LITTER_SIZE`: its
    * father is the bunny at the odd index `2 (n / LITTER_SIZE) + 1`, its mother the bunny
    * before it; its cells are the `n % LITTER_SIZE`-th of their crosses, and it is
    * mutated for fur, ears or teeth exactly when `n` was picked for that mutation.
    */
  lemma {:induction false} PairLittersAt(group: map<BunnyId, Bunny>, bunnies: seq<BunnyId>, generation: nat,
                                         fur: seq<nat>, ears: seq<nat>, teeth: seq<nat>, k: nat, n: nat)
    requires 2 * k <= |bunnies|
    requires forall b :: b in bunnies ==> b in group
    requires n < k * LITTER_SIZE
    ensures var pair := n / LITTER_SIZE;
      var father, mother := bunnies[2 * pair + 1], bunnies[2 * pair];
      var b := PairLitters(group, bunnies, generation, fur, ears, teeth, k)[n];
      b == Newborn(father, mother, generation,
                   BirthGenotype(LitterCell(group[father].genotype, group[mother].genotype, n % LITTER_SIZE),
                                 n in fur, n in ears, n in teeth))
    decreases k
  {
    var prev := PairLitters(group, bunnies, generation, fur, ears, teeth, k - 1);
    if n < (k - 1) * LITTER_SIZE {
      PairLittersAt(group, bunnies, generation, fur, ears, teeth, k - 1, n);
    } else {
      var father, mother := bunnies[2 * k - 1], bunnies[2 * k - 2];
      var j := n - (k - 1) * LITTER_SIZE;
      assert n / LITTER_SIZE == k - 1 && n % LITTER_SIZE == j;
      LitterAt(father, mother, group[father].genotype, group[mother].genotype, generation,
               (k - 1) * LITTER_SIZE, fur, ears, teeth, LITTER_SIZE, j);
    }
  }

  /** The indices `mateBunnies` picks for the fur, ears and teeth mutations among
    * `numberToBeBorn` newborns: none unless some mutation is coming; otherwise the
    * shuffled indices, split as `MutationIndices` splits them.
    */
  function MutationPicks(pool: GenePool, numberToBeBorn: nat, percentNum: nat, percentDen: nat,
                         draws: seq<nat>): (seq<nat>, seq<nat>, seq<nat>)
    requires percentDen > 0
  {
    var mutateFur, mutateEars, mutateTeeth :=
      pool.furGene.mutationComing, pool.earsGene.mutationComing, pool.teethGene.mutationComing;
    if mutateFur || mutateEars || mutateTeeth then
      var perm := Permute(Indices(numberToBeBorn), draws);
      var numberToMutate := NumberToMutate(percentNum, percentDen, numberToBeBorn);
      var (a, e, t) := MutationBounds(numberToBeBorn, numberToMutate, mutateFur, mutateEars, mutateTeeth);
      (perm[..a], perm[a..e], perm[e..t])
    else ([], [], [])
  }

  /** The picks name only newborns, no newborn twice, at most `NumberToMutate` for each
    * mutation and none for a mutation that is not coming; so no newborn receives two
    * mutations, and each picked newborn is born a mutant of that gene.
    */
  lemma MutationPicksSound(pool: GenePool, numberToBeBorn: nat, percentNum: nat, percentDen: nat,
                           draws: seq<nat>, b: nat)
    requires percentDen > 0
    ensures var (fur, ears, teeth) := MutationPicks(pool, numberToBeBorn, percentNum, percentDen, draws);
      var k := NumberToMutate(percentNum, percentDen, numberToBeBorn);
      (b in fur || b in ears || b in teeth ==> b < numberToBeBorn)
      && (b in fur ==> b !in ears && b !in teeth) && (b in ears ==> b !in teeth)
      && |fur| <= k && |ears| <= k && |teeth| <= k
      && (!pool.furGene.mutationComing ==> fur == [])
      && (!pool.earsGene.mutationComing ==> ears == [])
      && (!pool.teethGene.mutationComing ==> teeth == [])
  {
    var mutateFur, mutateEars, mutateTeeth :=
      pool.furGene.mutationComing, pool.earsGene.mutationComing, pool.teethGene.mutationComing;
    if mutateFur || mutateEars || mutateTeeth {
      var perm := Permute(Indices(numberToBeBorn), draws);
      var k := NumberToMutate(percentNum, percentDen, numberToBeBorn);
      PermutedIndices(numberToBeBorn, draws);
      MutationIndicesDisjoint(numberToBeBorn, k, mutateFur, mutateEars, mutateTeeth, perm, b);
      var (a, e, t) := MutationBounds(numberToBeBorn, k, mutateFur, mutateEars, mutateTeeth);
      SliceMember(perm, 0, a, b);
      SliceMember(perm, a, e, b);
      SliceMember(perm, e, t, b);
    }
  }

  /** The additional offspring of an eager mating: for each gene, the cell
    * `getAdditionalPunnettCell` picks from the parents' cross given the father's mutant
    * allele and the gene's dominant allele, the random cell being the one
    * `randomCell` draws for the father and that gene.
    */
  function AdditionalBirth(father: BunnyId, mother: BunnyId, fatherGenotype: GenePairs, motherGenotype: GenePairs,
                           mutantAllele: Allele, generation: nat, pool: GenePool,
                           randomCell: (BunnyId, Gene) -> nat): Bunny
  {
    var cells := GenePairs(
      AdditionalCell(Cross(fatherGenotype.fur, motherGenotype.fur).cells, mutantAllele,
                     pool.furGene.dominantAllele, randomCell(father, Fur) % LITTER_SIZE),
      AdditionalCell(Cross(fatherGenotype.ears, motherGenotype.ears).cells, mutantAllele,
                     pool.earsGene.dominantAllele, randomCell(father, Ears) % LITTER_SIZE),
      AdditionalCell(Cross(fatherGenotype.teeth, motherGenotype.teeth).cells, mutantAllele,
                     pool.teethGene.dominantAllele, randomCell(father, Teeth) % LITTER_SIZE));
    Newborn(father, mother, generation, BirthGenotype(cells, false, false, false))
  }

  /** The offspring of an eager mating: a litter without mutations and the additional
    * offspring.
    */
  function EagerLitter(p: Population, father: BunnyId, mother: BunnyId, generation: nat, pool: GenePool,
                       randomCell: (BunnyId, Gene) -> nat): (r: seq<Bunny>)
    requires father in p.bunnyGroup && mother in p.bunnyGroup && p.bunnyGroup[father].mutation.Some?
    ensures |r| == LITTER_SIZE + 1
  {
    var fatherGenotype, motherGenotype := p.bunnyGroup[father].genotype, p.bunnyGroup[mother].genotype;
    Litter(father, mother, fatherGenotype, motherGenotype, generation, 0, [], [], [], LITTER_SIZE)
      + [AdditionalBirth(father, mother, fatherGenotype, motherGenotype, p.bunnyGroup[father].mutation.value,
                         generation, pool, randomCell)]
  }

  /** The mate `getMateForRecessiveMutant` finds among `bunnies` for a registered
    * original mutant; none for any other bunny.
    */
  function EagerMate(p: Population, father: BunnyId, bunnies: seq<BunnyId>): (r: Option<BunnyId>)
    ensures r.Some? ==>
      father in p.bunnyGroup && p.bunnyGroup[father].mutation.Some?
      && r.value in bunnies && IsMate(father, p.bunnyGroup[father].mutation.value, r.value, p.bunnyGroup)
  {
    if father in p.bunnyGroup && p.bunnyGroup[father].mutation.Some? then
      var i := FirstMateIndex(father, p.bunnyGroup[father].mutation.value, bunnies, p.bunnyGroup);
      if i < 0 then None else Some(bunnies[i])
    else None
  }

  /** The outcome of an eager mating of `father` and `mother`: they have their
    * offspring, both leave the bunnies still to mate and the recessive mutants, and the
    * mother leaves what remains of the copy.
    */
  function EagerMated(p: Population, bunnies: seq<BunnyId>, rest: seq<BunnyId>, father: BunnyId, mother: BunnyId,
                      generation: nat, pool: GenePool, randomCell: (BunnyId, Gene) -> nat)
    : (r: (Population, seq<BunnyId>, seq<BunnyId>))
    requires father in p.bunnyGroup && mother in p.bunnyGroup && p.bunnyGroup[father].mutation.Some?
    ensures |r.2| <= |rest|
    ensures (forall b :: b in bunnies ==> b in p.bunnyGroup) ==> forall b :: b in r.1 ==> b in r.0.bunnyGroup
  {
    var born := p.BornAll(EagerLitter(p, father, mother, generation, pool, randomCell), pool);
    BornAllGroup(p, EagerLitter(p, father, mother, generation, pool, randomCell), pool);
    WithoutElements(bunnies, {father});
    WithoutElements(Without(bunnies, {father}), {mother});
    (born.(recessiveMutants := Without(Without(born.recessiveMutants, {father}), {mother})),
     Without(Without(bunnies, {father}), {mother}), Without(rest, {mother}))
  }

  /** One pass of the `mateRecessiveMutants` loop, on the population, the bunnies still
    * to mate and the copy of the recessive mutants still to consider: the first mutant
    * of the copy leaves it, and mates eagerly if it finds a mate.
    */
  function EagerStep(p: Population, bunnies: seq<BunnyId>, copy: seq<BunnyId>, generation: nat, pool: GenePool,
                     randomCell: (BunnyId, Gene) -> nat): (r: (Population, seq<BunnyId>, seq<BunnyId>))
    requires |copy| > 0
    ensures |r.2| < |copy|
    ensures (forall b :: b in bunnies ==> b in p.bunnyGroup) ==> forall b :: b in r.1 ==> b in r.0.bunnyGroup
  {
    var father, rest := copy[0], copy[1..];
    var mother := EagerMate(p, father, bunnies);
    if mother.None? then (p, bunnies, rest)
    else EagerMated(p, bunnies, rest, father, mother.value, generation, pool, randomCell)
  }

  /** `mateRecessiveMutants`: the passes of its loop until the copy is empty; the
    * population and the bunnies left to mate.
    */
  function EagerMatings(p: Population, bunnies: seq<BunnyId>, copy: seq<BunnyId>, generation: nat, pool: GenePool,
                        randomCell: (BunnyId, Gene) -> nat): (r: (Population, seq<BunnyId>))
    ensures (forall b :: b in bunnies ==> b in p.bunnyGroup) ==> forall b :: b in r.1 ==> b in r.0.bunnyGroup
    decreases |copy|
  {
    if |copy| == 0 then (p, bunnies)
    else
      var (q, bunnies', copy') := EagerStep(p, bunnies, copy, generation, pool, randomCell);
      EagerMatings(q, bunnies', copy', generation, pool, randomCell)
  }

  /** What the `mateRecessiveMutants` loop keeps: the bunnies still to mate and the
    * copy hold no bunny twice, the bunnies are live, and every mutant of the copy is
    * still a recessive mutant and still among the bunnies.
    */
  ghost predicate EagerInvariant(p: Population, bunnies: seq<BunnyId>, copy: seq<BunnyId>)
  {
    Distinct(bunnies) && Distinct(copy)
    && (forall b :: b in bunnies ==> b in p.liveBunnies)
    && (forall m :: m in copy ==> m in p.recessiveMutants && m in bunnies)
  }

  /** The newborns of an eager mating carry no mutation, so none is tracked. */
  lemma EagerLitterUntracked(p: Population, father: BunnyId, mother: BunnyId, generation: nat, pool: GenePool,
                             randomCell: (BunnyId, Gene) -> nat)
    requires father in p.bunnyGroup && mother in p.bunnyGroup && p.bunnyGroup[father].mutation.Some?
    ensures var bs := EagerLitter(p, father, mother, generation, pool, randomCell);
      forall k :: 0 <= k < |bs| ==>
        bs[k].mutation.None? && bs[k].isAlive && bs[k].age == 0
        && bs[k].father == Some(father) && bs[k].mother == Some(mother)
  {
    var fg, mg := p.bunnyGroup[father].genotype, p.bunnyGroup[mother].genotype;
    forall j | 0 <= j < LITTER_SIZE {
      LitterAt(father, mother, fg, mg, generation, 0, [], [], [], LITTER_SIZE, j);
    }
  }

  /** A population whose tracked mutants are all untracked is unchanged by tracking. */
  lemma {:induction false} TrackedIdsNone(start: nat, bs: seq<Bunny>, pool: GenePool)
    requires forall k :: 0 <= k < |bs| ==> bs[k].mutation.None?
    ensures TrackedIds(start, bs, pool) == []
    decreases |bs|
  {
    if |bs| > 0 {
      var init := bs[..|bs| - 1];
      assert forall k :: 0 <= k < |init| ==> init[k] == bs[k];
      TrackedIdsNone(start, init, pool);
    }
  }

  /** Dropping bunnies from the recessive mutants keeps a population consistent. */
  lemma UntrackConsistent(p: Population, maxAge: nat, xs: set<BunnyId>)
    requires p.Consistent(maxAge)
    ensures p.(recessiveMutants := Without(p.recessiveMutants, xs)).Consistent(maxAge)
  {
    WithoutDistinct(p.recessiveMutants, xs);
    WithoutElements(p.recessiveMutants, xs);
  }

  /** The offspring of an eager mating join the population consistently, none of them
    * is tracked, and every bunny that was live still is.
    */
  lemma EagerBornKeeps(p: Population, maxAge: nat, father: BunnyId, mother: BunnyId, generation: nat,
                       pool: GenePool, randomCell: (BunnyId, Gene) -> nat)
    requires p.Consistent(maxAge) && maxAge >= 1
    requires father in p.bunnyGroup && mother in p.bunnyGroup && p.bunnyGroup[father].mutation.Some?
    ensures var born := p.BornAll(EagerLitter(p, father, mother, generation, pool, randomCell), pool);
      born.Consistent(maxAge) && born.recessiveMutants == p.recessiveMutants
      && forall b :: b in p.liveBunnies ==> b in born.liveBunnies
  {
    var bs := EagerLitter(p, father, mother, generation, pool, randomCell);
    EagerLitterUntracked(p, father, mother, generation, pool, randomCell);
    BornAllConsistent(p, maxAge, bs, pool);
    BornAllClosedForm(p, bs, pool);
    TrackedIdsNone(p.nextId, bs, pool);
  }

  /** An eager mating of a recessive mutant of the copy keeps the population
    * consistent and keeps what the loop relies on.
    */
  lemma EagerMatedKeeps(p: Population, maxAge: nat, bunnies: seq<BunnyId>, copy: seq<BunnyId>, father: BunnyId,
                        mother: BunnyId, generation: nat, pool: GenePool, randomCell: (BunnyId, Gene) -> nat)
    requires p.Consistent(maxAge) && maxAge >= 1
    requires |copy| > 0 && EagerInvariant(p, bunnies, copy) && father == copy[0]
    requires mother in bunnies && p.bunnyGroup[father].mutation.Some?
    ensures var r := EagerMated(p, bunnies, copy[1..], father, mother, generation, pool, randomCell);
      r.0.Consistent(maxAge) && EagerInvariant(r.0, r.1, r.2)
  {
    var rest := copy[1..];
    var born := p.BornAll(EagerLitter(p, father, mother, generation, pool, randomCell), pool);
    EagerBornKeeps(p, maxAge, father, mother, generation, pool, randomCell);
    var once := born.(recessiveMutants := Without(born.recessiveMutants, {father}));
    UntrackConsistent(born, maxAge, {father});
    UntrackConsistent(once, maxAge, {mother});
    var q := once.(recessiveMutants := Without(once.recessiveMutants, {mother}));
    assert EagerMated(p, bunnies, rest, father, mother, generation, pool, randomCell)
      == (q, Without(Without(bunnies, {father}), {mother}), Without(rest, {mother}));
    EagerInvariantKept(p, q, bunnies, copy, father, mother);
  }

  /** The loop's invariant survives an eager mating of the first mutant of the copy
    * into any population that keeps the live bunnies and drops both parents from the
    * recessive mutants.
    */
  lemma EagerInvariantKept(p: Population, q: Population, bunnies: seq<BunnyId>, copy: seq<BunnyId>,
                           father: BunnyId, mother: BunnyId)
    requires |copy| > 0 && EagerInvariant(p, bunnies, copy) && father == copy[0]
    requires forall b :: b in p.liveBunnies ==> b in q.liveBunnies
    requires q.recessiveMutants == Without(Without(p.recessiveMutants, {father}), {mother})
    ensures EagerInvariant(q, Without(Without(bunnies, {father}), {mother}), Without(copy[1..], {mother}))
  {
    EagerListsKeep(bunnies, copy, p.recessiveMutants, father, mother);
    WithoutElements(bunnies, {father});
    WithoutElements(Without(bunnies, {father}), {mother});
  }

  /** What an eager mating does to the bunnies still to mate, the copy and the recessive
    * mutants keeps the copy within the other two, and nothing twice in any.
    */
  lemma EagerListsKeep(bunnies: seq<BunnyId>, copy: seq<BunnyId>, mutants: seq<BunnyId>, father: BunnyId,
                       mother: BunnyId)
    requires Distinct(bunnies) && Distinct(copy) && |copy| > 0 && copy[0] == father
    requires forall m :: m in copy ==> m in mutants && m in bunnies
    ensures var left, rest := Without(Without(bunnies, {father}), {mother}), Without(copy[1..], {mother});
      Distinct(left) && Distinct(rest)
      && forall x :: x in rest ==> x in Without(Without(mutants, {father}), {mother}) && x in left
  {
    var rest := copy[1..];
    WithoutDistinct(bunnies, {father});
    WithoutDistinct(Without(bunnies, {father}), {mother});
    DistinctSuffix(copy, 1);
    assert copy[..1] == [father];
    WithoutDistinct(rest, {mother});
    forall x | x in Without(rest, {mother})
      ensures x in Without(Without(mutants, {father}), {mother}) && x in Without(Without(bunnies, {father}), {mother})
    {
      WithoutMembers(rest, {mother}, x);
      WithoutMembers(mutants, {father}, x);
      WithoutMembers(Without(mutants, {father}), {mother}, x);
      WithoutMembers(bunnies, {father}, x);
      WithoutMembers(Without(bunnies, {father}), {mother}, x);
    }
  }

  /** A pass of the `mateRecessiveMutants` loop keeps the population consistent and
    * keeps what the loop relies on.
    */
  lemma EagerStepKeeps(p: Population, maxAge: nat, bunnies: seq<BunnyId>, copy: seq<BunnyId>, generation: nat,
                       pool: GenePool, randomCell: (BunnyId, Gene) -> nat)
    requires p.Consistent(maxAge) && maxAge >= 1
    requires |copy| > 0 && EagerInvariant(p, bunnies, copy)
    ensures var r := EagerStep(p, bunnies, copy, generation, pool, randomCell);
      r.0.Consistent(maxAge) && EagerInvariant(r.0, r.1, r.2)
  {
    var mother := EagerMate(p, copy[0], bunnies);
    if mother.Some? {
      EagerMatedKeeps(p, maxAge, bunnies, copy, copy[0], mother.value, generation, pool, randomCell);
    } else {
      DistinctSuffix(copy, 1);
      assert copy == [copy[0]] + copy[1..];
    }
  }

  /** An eager mating by its effects: `LITTER_SIZE + 1` offspring join the live
    * bunnies with the next ids, the dead bunnies are untouched, both parents leave the
    * bunnies still to mate and the recessive mutants, and the mother leaves the rest of
    * the copy.
    */
  lemma EagerMatedEffects(p: Population, bunnies: seq<BunnyId>, rest: seq<BunnyId>, father: BunnyId, mother: BunnyId,
                          generation: nat, pool: GenePool, randomCell: (BunnyId, Gene) -> nat)
    requires father in p.bunnyGroup && mother in p.bunnyGroup && p.bunnyGroup[father].mutation.Some?
    ensures var r := EagerMated(p, bunnies, rest, father, mother, generation, pool, randomCell);
      r.0.nextId == p.nextId + LITTER_SIZE + 1
      && r.0.liveBunnies == p.liveBunnies + IdsFrom(p.nextId, LITTER_SIZE + 1)
      && r.0.deadBunnies == p.deadBunnies
      && (forall b :: b in r.1 <==> b in bunnies && b != father && b != mother)
      && (forall m :: m in r.0.recessiveMutants <==> m in p.recessiveMutants && m != father && m != mother)
      && (forall m :: m in r.2 <==> m in rest && m != mother)
  {
    var bs := EagerLitter(p, father, mother, generation, pool, randomCell);
    var born := p.BornAll(bs, pool);
    EagerLitterUntracked(p, father, mother, generation, pool, randomCell);
    BornAllClosedForm(p, bs, pool);
    TrackedIdsNone(p.nextId, bs, pool);
    assert born.recessiveMutants == p.recessiveMutants;
    var r := EagerMated(p, bunnies, rest, father, mother, generation, pool, randomCell);
    assert r.0 == born.(recessiveMutants := Without(Without(p.recessiveMutants, {father}), {mother}));
    assert r.1 == Without(Without(bunnies, {father}), {mother});
    assert r.2 == Without(rest, {mother});
    ParentsRemoved(bunnies, father, mother);
    ParentsRemoved(p.recessiveMutants, father, mother);
    ParentsRemoved(rest, father, mother);
  }

  /** The members left once the father and then the mother are removed, and once the
    * mother alone is.
    */
  lemma ParentsRemoved(s: seq<BunnyId>, father: BunnyId, mother: BunnyId)
    ensures forall b :: b in Without(Without(s, {father}), {mother}) <==> b in s && b != father && b != mother
    ensures forall b :: b in Without(s, {mother}) <==> b in s && b != mother
  {
    WithoutElements(s, {mother});
    WithoutElements(s, {father});
    WithoutElements(Without(s, {father}), {mother});
  }

  /** One pass of the loop by its effects: a mutant without a mate only leaves the
    * copy and nothing else changes; a mutant with a mate mates eagerly with the first
    * mate found.
    */
  lemma EagerStepEffects(p: Population, bunnies: seq<BunnyId>, copy: seq<BunnyId>, generation: nat, pool: GenePool,
                         randomCell: (BunnyId, Gene) -> nat)
    requires |copy| > 0
    ensures var r := EagerStep(p, bunnies, copy, generation, pool, randomCell);
      var mother := EagerMate(p, copy[0], bunnies);
      (mother.None? ==> r == (p, bunnies, copy[1..]))
      && (mother.Some? ==>
            (r.0.nextId == p.nextId + LITTER_SIZE + 1
             && (forall b :: b in r.1 <==> b in bunnies && b != copy[0] && b != mother.value)
             && (forall m :: m in r.0.recessiveMutants <==> m in p.recessiveMutants && m != copy[0] && m != mother.value)
             && (forall m :: m in r.2 <==> m in copy[1..] && m != mother.value)))
  {
    var mother := EagerMate(p, copy[0], bunnies);
    if mother.Some? {
      EagerMatedEffects(p, bunnies, copy[1..], copy[0], mother.value, generation, pool, randomCell);
    }
  }

  /** The part of `mateBunnies` before the main mating loop that deals with recessive
    * mutants: if there are any, they mate eagerly among the shuffled bunnies.
    */
  function EagerlyMated(p: Population, shuffled: seq<BunnyId>, generation: nat, pool: GenePool,
                        randomCell: (BunnyId, Gene) -> nat): (r: (Population, seq<BunnyId>))
    ensures (forall b :: b in shuffled ==> b in p.bunnyGroup) ==> forall b :: b in r.1 ==> b in r.0.bunnyGroup
  {
    if |p.recessiveMutants| > 0 then EagerMatings(p, shuffled, p.recessiveMutants, generation, pool, randomCell)
    else (p, shuffled)
  }

  /** The main mating loop of `mateBunnies` on the population: the mutation indices are
    * picked (by `indexDraws`) for the litters of `bunnies`, and those bunnies mate in
    * adjacent pairs, newborns that are recessive mutants tracked with the gene pool's
    * flags reset.
    */
  function PairsMated(q: Population, bunnies: seq<BunnyId>, generation: nat, pool: GenePool, percentNum: nat,
                      percentDen: nat, indexDraws: seq<nat>): Population
    requires percentDen > 0
    requires forall b :: b in bunnies ==> b in q.bunnyGroup
  {
    var (fur, ears, teeth) := MutationPicks(pool, |bunnies| / 2 * LITTER_SIZE, percentNum, percentDen, indexDraws);
    q.BornAll(PairLitters(q.bunnyGroup, bunnies, generation, fur, ears, teeth, |bunnies| / 2),
              pool.ResetMutationComing())
  }

  /** `mateBunnies` on the population: the live bunnies are shuffled (by
    * `shuffleDraws`), recessive mutants mate eagerly, and the bunnies left mate in
    * pairs.
    */
  function Mated(p: Population, pool: GenePool, generation: nat, percentNum: nat, percentDen: nat,
                 shuffleDraws: seq<nat>, indexDraws: seq<nat>, randomCell: (BunnyId, Gene) -> nat): Population
    requires percentDen > 0
    requires forall b :: b in p.liveBunnies ==> b in p.bunnyGroup
  {
    var shuffled := Permute(p.liveBunnies, shuffleDraws);
    PermuteElements(p.liveBunnies, shuffleDraws);
    var (q, bunnies) := EagerlyMated(p, shuffled, generation, pool, randomCell);
    PairsMated(q, bunnies, generation, pool, percentNum, percentDen, indexDraws)
  }

  /** Two batches of births in a row are one batch. */
  lemma {:induction false} BornAllAppend(p: Population, a: seq<Bunny>, b: seq<Bunny>, pool: GenePool)
    ensures p.BornAll(a + b, pool) == p.BornAll(a, pool).BornAll(b, pool)
    decreases |b|
  {
    if |b| == 0 {
      assert a + b == a;
    } else {
      var init := b[..|b| - 1];
      assert (a + b)[..|a + b| - 1] == a + init;
      assert (a + b)[|a + b| - 1] == b[|b| - 1];
      BornAllAppend(p, a, init, pool);
    }
  }

  /** `bunnies.splice(bunnies.indexOf(x), 1)` for a bunny that is present. */
  method SpliceOut(s: seq<BunnyId>, x: BunnyId) returns (r: seq<BunnyId>)
    requires Distinct(s) && x in s
    ensures r == Without(s, {x})
  {
    SpliceIndexOf(s, x);
    r := SpliceOne(s, IndexOf(s, x));
  }

  /** One more litter is LITTER_SIZE more births. */
  lemma LittersStep(k: nat)
    ensures (k + 1) * LITTER_SIZE == k * LITTER_SIZE + LITTER_SIZE
  {
  }

  /** The pair loop `for (i = 1; i < n; i += 2)` runs floor(n/2) times. */
  lemma PairCount(n: nat, i: nat, k: nat)
    requires i == 2 * k + 1 && 2 * k <= n && n <= i
    ensures k == n / 2
  {
  }

  /** During the main mating loop, the parents of the next pair are still registered
    * with the genotypes they had when the loop began.
    */
  lemma MateParentsFound(p: Population, bunnies: seq<BunnyId>, generation: nat, fur: seq<nat>, ears: seq<nat>,
                         teeth: seq<nat>, pool: GenePool, maxAge: nat, k: nat)
    requires p.Consistent(maxAge)
    requires 2 * k + 2 <= |bunnies|
    requires forall b :: b in bunnies ==> b in p.bunnyGroup
    ensures var q := p.BornAll(PairLitters(p.bunnyGroup, bunnies, generation, fur, ears, teeth, k), pool);
      var father, mother := bunnies[2 * k + 1], bunnies[2 * k];
      father in q.bunnyGroup && mother in q.bunnyGroup
      && q.bunnyGroup[father] == p.bunnyGroup[father] && q.bunnyGroup[mother] == p.bunnyGroup[mother]
  {
    var done := PairLitters(p.bunnyGroup, bunnies, generation, fur, ears, teeth, k);
    BornAllKeeps(p, done, pool, bunnies[2 * k + 1]);
    BornAllKeeps(p, done, pool, bunnies[2 * k]);
  }

  /** The litter of the next pair, born after the earlier litters, completes the
    * litters of one more pair.
    */
  lemma PairLittersBorn(p: Population, bunnies: seq<BunnyId>, generation: nat, fur: seq<nat>, ears: seq<nat>,
                        teeth: seq<nat>, k: nat, pool: GenePool, father: BunnyId, mother: BunnyId,
                        fatherGenotype: GenePairs, motherGenotype: GenePairs, firstIndex: nat)
    requires 2 * k + 2 <= |bunnies|
    requires forall b :: b in bunnies ==> b in p.bunnyGroup
    requires father == bunnies[2 * k + 1] && mother == bunnies[2 * k] && firstIndex == k * LITTER_SIZE
    requires fatherGenotype == p.bunnyGroup[father].genotype && motherGenotype == p.bunnyGroup[mother].genotype
    ensures p.BornAll(PairLitters(p.bunnyGroup, bunnies, generation, fur, ears, teeth, k), pool).BornAll(
        Litter(father, mother, fatherGenotype, motherGenotype, generation, firstIndex, fur, ears, teeth, LITTER_SIZE), pool)
      == p.BornAll(PairLitters(p.bunnyGroup, bunnies, generation, fur, ears, teeth, k + 1), pool)
  {
    PairLittersNext(p.bunnyGroup, bunnies, generation, fur, ears, teeth, k);
    BornAllAppend(p, PairLitters(p.bunnyGroup, bunnies, generation, fur, ears, teeth, k),
                  Litter(father, mother, fatherGenotype, motherGenotype, generation, firstIndex, fur, ears, teeth,
                         LITTER_SIZE), pool);
  }

  //--------------------------------------------------------------------------------
  // The collection
  //--------------------------------------------------------------------------------

  class BunnyCollection {
    var population: Population
    var selectedBunny: Option<BunnyId>
    var genePool: GenePool
    /** How many times each of the two notifications has fired. */
    var allBunniesHaveDiedCount: nat
    var bunniesHaveTakenOverTheWorldCount: nat

    /** MAX_AGE: a bunny dies of old age on reaching it. */
    const maxAge: nat
    /** MAX_POPULATION: the population at which bunnies have taken over the world. */
    const maxPopulation: nat
    /** The mutation percentage as the fraction num/den. */
    const mutationPercentNum: nat
    const mutationPercentDen: nat
    /** MAX_DEAD_BUNNY_GENERATIONS. */
    const maxDeadBunnyGenerations: int

    ghost predicate Valid()
      reads this
    {
      maxAge >= 1 && mutationPercentDen > 0 && population.Consistent(maxAge)
    }

    /** An empty collection over the given gene pool. The dead-bunny window is the
      * configured maximum age times one less than the pedigree tree depth.
      */
    constructor (genePool: GenePool, maxAge: nat, maxPopulation: nat, mutationPercentNum: nat,
                 mutationPercentDen: nat, queryMaxAge: nat, pedigreeTreeDepth: nat)
      requires maxAge >= 1 && mutationPercentDen > 0
      ensures Valid()
      ensures population == Population(map[], 0, [], [], [])
      ensures selectedBunny == None && this.genePool == genePool
      ensures allBunniesHaveDiedCount == 0 && bunniesHaveTakenOverTheWorldCount == 0
      ensures this.maxAge == maxAge && this.maxPopulation == maxPopulation
      ensures this.mutationPercentNum == mutationPercentNum && this.mutationPercentDen == mutationPercentDen
      ensures maxDeadBunnyGenerations == queryMaxAge * (pedigreeTreeDepth - 1)
    {
      population := Population(map[], 0, [], [], []);
      selectedBunny := None;
      this.genePool := genePool;
      allBunniesHaveDiedCount := 0;
      bunniesHaveTakenOverTheWorldCount := 0;
      this.maxAge := maxAge;
      this.maxPopulation := maxPopulation;
      this.mutationPercentNum := mutationPercentNum;
      this.mutationPercentDen := mutationPercentDen;
      maxDeadBunnyGenerations := queryMaxAge * (pedigreeTreeDepth - 1);
    }

    /** `createBunny`: registers a newborn under a fresh id; the created-listener
      * pushes it onto the live bunnies.
      */
    method CreateBunny(father: Option<BunnyId>, mother: Option<BunnyId>, generation: nat,
                       genotype: GenePairs, mutation: Option<Allele>)
      returns (id: BunnyId)
      requires Valid()
      modifies this`population
      ensures Valid()
      ensures id == old(population).nextId && id !in old(population).bunnyGroup
      ensures population == old(population).Born(Bunny(father, mother, generation, 0, true, None, genotype, mutation))
    {
      var b := Bunny(father, mother, generation, 0, true, None, genotype, mutation);
      BornConsistent(population, maxAge, b);
      id := population.nextId;
      population := population.Born(b);
    }

    /** `createBunnyZero`: a bunny of generation zero, without parents. */
    method CreateBunnyZero(genotype: GenePairs) returns (id: BunnyId)
      requires Valid()
      modifies this`population
      ensures Valid()
      ensures id == old(population).nextId
      ensures population == old(population).Born(Bunny(None, None, 0, 0, true, None, genotype, None))
    {
      id := CreateBunny(None, None, 0, genotype, None);
    }

    /** `bunny.die(cause)` followed by the died-listener; the all-died notification
      * fires when no live bunny remains.
      */
    method Die(id: BunnyId, cause: CauseOfDeath)
      requires Valid()
      requires id in population.liveBunnies
      modifies this`population, this`allBunniesHaveDiedCount
      ensures Valid()
      ensures population == old(population).Died(id, cause)
      ensures allBunniesHaveDiedCount == old(allBunniesHaveDiedCount) + (if population.liveBunnies == [] then 1 else 0)
    {
      population := RecordDeath(population, maxAge, id, cause);
      if |population.liveBunnies| == 0 {
        allBunniesHaveDiedCount := allBunniesHaveDiedCount + 1;
      }
    }

    /** The disposed-listener, after the group has dropped the bunny. */
    method DisposeBunny(id: BunnyId)
      requires Valid()
      modifies this`population
      ensures Valid()
      ensures population == old(population).Disposed(id)
    {
      population := RecordDisposal(population, maxAge, id);
    }

    /** `reset`: clearing the group disposes of every bunny, and the selection is cleared. */
    method Reset()
      requires Valid()
      modifies this`population, this`selectedBunny
      ensures Valid()
      ensures population == Population(map[], old(population).nextId, [], [], [])
      ensures selectedBunny == None
    {
      population := Population(map[], population.nextId, [], [], []);
      selectedBunny := None;
    }

    /** `getSelectionCandidates`: the live bunnies in shuffled order (by `draws`), each
      * recessive mutant spliced out; the index looked up never misses.
      */
    method GetSelectionCandidates(draws: seq<nat>) returns (candidates: seq<BunnyId>)
      requires Valid()
      ensures candidates == Without(Permute(population.liveBunnies, draws), Elements(population.recessiveMutants))
      ensures Distinct(candidates)
      ensures forall id :: id in candidates <==> id in population.liveBunnies && id !in population.recessiveMutants
    {
      var live, mutants := population.liveBunnies, population.recessiveMutants;
      var shuffled := Permute(live, draws);
      PermuteDistinct(live, draws);
      forall m | m in mutants
        ensures m in shuffled
      {
        PermuteMembers(live, draws, m);
      }
      candidates := SpliceOutAll(shuffled, mutants);
      CandidatesOf(live, draws, mutants);
    }

    /** One bunny of `ageBunnies`: it is one generation older, and dies of old age
      * (through `Die`) when that makes it MAX_AGE.
      */
    method AgeBunny(id: BunnyId)
      requires Valid()
      requires id in population.liveBunnies
      modifies this`population, this`allBunniesHaveDiedCount
      ensures Valid()
      ensures population == old(population).AgedOne(id, maxAge)
      ensures allBunniesHaveDiedCount == old(allBunniesHaveDiedCount)
        + (if ReachesMaxAge(old(population).bunnyGroup[id], maxAge) && population.liveBunnies == [] then 1 else 0)
    {
      ghost var p0 := population;
      var b := population.bunnyGroup[id];
      if ReachesMaxAge(b, maxAge) {
        Die(id, OldAge);
      }
      AgedOneConsistent(p0, maxAge, id);
      population := population.(bunnyGroup := population.bunnyGroup[id := Aged(b, maxAge)]);
    }

    /** `ageBunnies`: every bunny live at the start ages once, in order (see
      * `AgedByClosedForm` for the result all at once). The all-died notification fires
      * once, when ageing kills the last live bunny.
      */
    method AgeBunnies()
      requires Valid()
      modifies this`population, this`allBunniesHaveDiedCount
      ensures Valid()
      ensures population == old(population).AgedBy(old(population).liveBunnies, maxAge)
      ensures allBunniesHaveDiedCount == old(allBunniesHaveDiedCount)
        + (if old(population).liveBunnies != [] && population.liveBunnies == [] then 1 else 0)
    {
      ghost var p0, count0 := population, allBunniesHaveDiedCount;
      var bunnies := population.liveBunnies;
      for i := 0 to |bunnies|
        invariant Valid()
        invariant population == p0.AgedBy(bunnies[..i], maxAge)
        invariant allBunniesHaveDiedCount == count0 + (if bunnies != [] && population.liveBunnies == [] then 1 else 0)
      {
        AgeingReachesNext(p0, maxAge, i);
        assert bunnies[..i + 1][..i] == bunnies[..i];
        AgeBunny(bunnies[i]);
      }
      assert bunnies[..|bunnies|] == bunnies;
    }

    /** `pruneDeadBunnies`: working backwards through the dead bunnies, each one from
      * more than MAX_DEAD_BUNNY_GENERATIONS generations ago that is not selected is
      * disposed of (see `PrunedByClosedForm` for the result all at once).
      */
    method PruneDeadBunnies(currentGeneration: int)
      requires Valid()
      modifies this`population
      ensures Valid()
      ensures population == old(population).PrunedBy(old(population).deadBunnies, currentGeneration,
                                                      maxDeadBunnyGenerations, selectedBunny)
    {
      ghost var p0 := population;
      var i := |population.deadBunnies|;
      assert p0.deadBunnies[i..] == [];
      while i > 0
        invariant 0 <= i <= |p0.deadBunnies|
        invariant Valid()
        invariant population == p0.PrunedBy(p0.deadBunnies[i..], currentGeneration, maxDeadBunnyGenerations, selectedBunny)
      {
        i := i - 1;
        PruneReachesNext(p0, i, currentGeneration, maxDeadBunnyGenerations, selectedBunny);
        var id := population.deadBunnies[i];
        var bunny := population.bunnyGroup[id];
        assert p0.deadBunnies[i..][0] == id && p0.deadBunnies[i..][1..] == p0.deadBunnies[i + 1..];
        if currentGeneration - bunny.generation > maxDeadBunnyGenerations && selectedBunny != Some(id) {
          DisposeBunny(id);
        }
      }
    }

    /** A newborn of the main mating loop that is a recessive original mutant is pushed
      * onto the recessive mutants.
      */
    method Track(id: BunnyId, ghost before: Population, ghost b: Bunny)
      requires Valid()
      requires before.Consistent(maxAge) && b.isAlive && b.age < maxAge
      requires population == before.Born(b) && id == before.nextId
      modifies this`population
      ensures Valid()
      ensures population == before.BornTracked(b, genePool)
    {
      BornTrackedConsistent(before, maxAge, b, genePool);
      var bunny := population.bunnyGroup[id];
      if bunny.IsOriginalMutant() && genePool.IsRecessiveMutation(bunny.mutation.value) {
        population := population.(recessiveMutants := population.recessiveMutants + [id]);
      }
    }

    /** The litter of one pair in the main mating loop: LITTER_SIZE newborns, the
      * `j`-th with the `j`-th cells of the parents' crosses, mutated where its index was
      * picked; `bornIndex` counts the newborns.
      */
    method MateLitter(father: BunnyId, mother: BunnyId, fatherGenotype: GenePairs, motherGenotype: GenePairs,
                      generation: nat, bornIndex: nat, fur: seq<nat>, ears: seq<nat>, teeth: seq<nat>)
      returns (nextBornIndex: nat)
      requires Valid()
      modifies this`population
      ensures Valid()
      ensures nextBornIndex == bornIndex + LITTER_SIZE
      ensures population == old(population).BornAll(
        Litter(father, mother, fatherGenotype, motherGenotype, generation, bornIndex, fur, ears, teeth, LITTER_SIZE),
        genePool)
    {
      ghost var p0 := population;
      nextBornIndex := bornIndex;
      for j := 0 to LITTER_SIZE
        invariant Valid()
        invariant nextBornIndex == bornIndex + j
        invariant population == p0.BornAll(
          Litter(father, mother, fatherGenotype, motherGenotype, generation, bornIndex, fur, ears, teeth, j), genePool)
      {
        ghost var before := population;
        var cells := LitterCell(fatherGenotype, motherGenotype, j);
        var birth := BirthGenotype(cells, nextBornIndex in fur, nextBornIndex in ears, nextBornIndex in teeth);
        var id := CreateBunny(Some(father), Some(mother), generation, birth.genotype, birth.mutation);
        nextBornIndex := nextBornIndex + 1;
        Track(id, before, Newborn(father, mother, generation, birth));
        BornAllSnoc(p0, Litter(father, mother, fatherGenotype, motherGenotype, generation, bornIndex, fur, ears, teeth, j),
                    Newborn(father, mother, generation, birth), genePool);
      }
    }

    /** One pass of the main mating loop, the `k`-th: the bunny at index `i = 2k + 1`
      * mates with the one before it, their genotypes read when the pass begins.
      */
    method MatePair(bunnies: seq<BunnyId>, i: nat, generation: nat, fur: seq<nat>, ears: seq<nat>, teeth: seq<nat>,
                    bornIndex: nat, ghost k: nat, ghost p0: Population)
      returns (nextBornIndex: nat)
      requires Valid() && p0.Consistent(maxAge)
      requires i == 2 * k + 1 && i < |bunnies| && bornIndex == k * LITTER_SIZE
      requires forall b :: b in bunnies ==> b in p0.bunnyGroup
      requires population == p0.BornAll(PairLitters(p0.bunnyGroup, bunnies, generation, fur, ears, teeth, k), genePool)
      modifies this`population
      ensures Valid() && nextBornIndex == bornIndex + LITTER_SIZE
      ensures population == p0.BornAll(PairLitters(p0.bunnyGroup, bunnies, generation, fur, ears, teeth, k + 1), genePool)
    {
      var father, mother := bunnies[i], bunnies[i - 1];
      MateParentsFound(p0, bunnies, generation, fur, ears, teeth, genePool, maxAge, k);
      var fatherGenotype, motherGenotype := population.bunnyGroup[father].genotype, population.bunnyGroup[mother].genotype;
      PairLittersBorn(p0, bunnies, generation, fur, ears, teeth, k, genePool, father, mother,
                      fatherGenotype, motherGenotype, bornIndex);
      nextBornIndex := MateLitter(father, mother, fatherGenotype, motherGenotype, generation, bornIndex, fur, ears, teeth);
    }

    /** The main mating loop: the bunny at each odd index mates with the one before it;
      * an odd one out does not mate. Every pair has a litter, so `bornIndex` ends at the
      * number expected to be born.
      */
    method MatePairs(bunnies: seq<BunnyId>, generation: nat, fur: seq<nat>, ears: seq<nat>, teeth: seq<nat>)
      returns (bornIndex: nat)
      requires Valid()
      requires forall b :: b in bunnies ==> b in population.bunnyGroup
      modifies this`population
      ensures Valid()
      ensures bornIndex == |bunnies| / 2 * LITTER_SIZE
      ensures population == old(population).BornAll(
        PairLitters(old(population).bunnyGroup, bunnies, generation, fur, ears, teeth, |bunnies| / 2), genePool)
    {
      ghost var p0 := population;
      bornIndex := 0;
      var i := 1;
      ghost var k := 0;
      while i < |bunnies|
        invariant i == 2 * k + 1 && 2 * k <= |bunnies|
        invariant forall b :: b in bunnies ==> b in p0.bunnyGroup
        invariant bornIndex == k * LITTER_SIZE
        invariant Valid()
        invariant population == p0.BornAll(PairLitters(p0.bunnyGroup, bunnies, generation, fur, ears, teeth, k), genePool)
      {
        bornIndex := MatePair(bunnies, i, generation, fur, ears, teeth, bornIndex, k, p0);
        LittersStep(k);
        i := i + 2;
        k := k + 1;
      }
      PairCount(|bunnies|, i, k);
    }

    /** The offspring of an eager mating: a litter without mutations, then one more
      * newborn whose cells `GetAdditionalPunnettCell` picks.
      */
    method MateEagerly(father: BunnyId, mother: BunnyId, generation: nat, randomCell: (BunnyId, Gene) -> nat)
      requires Valid()
      requires father in population.bunnyGroup && mother in population.bunnyGroup
      requires population.bunnyGroup[father].mutation.Some?
      modifies this`population
      ensures Valid()
      ensures population == old(population).BornAll(
        EagerLitter(old(population), father, mother, generation, genePool, randomCell), genePool)
    {
      var fatherGenotype, motherGenotype := population.bunnyGroup[father].genotype, population.bunnyGroup[mother].genotype;
      var mutantAllele := population.bunnyGroup[father].mutation.value;
      ghost var p0 := population;
      for j := 0 to LITTER_SIZE
        invariant Valid()
        invariant population == p0.BornAll(
          Litter(father, mother, fatherGenotype, motherGenotype, generation, 0, [], [], [], j), genePool)
      {
        var birth := BirthGenotype(LitterCell(fatherGenotype, motherGenotype, j), false, false, false);
        var _ := CreateBunny(Some(father), Some(mother), generation, birth.genotype, birth.mutation);
        ghost var litter := Litter(father, mother, fatherGenotype, motherGenotype, generation, 0, [], [], [], j + 1);
        assert litter[..j] == Litter(father, mother, fatherGenotype, motherGenotype, generation, 0, [], [], [], j);
      }
      var furCell := GetAdditionalPunnettCell(Cross(fatherGenotype.fur, motherGenotype.fur), mutantAllele,
                                              genePool.furGene.dominantAllele, randomCell(father, Fur) % LITTER_SIZE);
      var earsCell := GetAdditionalPunnettCell(Cross(fatherGenotype.ears, motherGenotype.ears), mutantAllele,
                                               genePool.earsGene.dominantAllele, randomCell(father, Ears) % LITTER_SIZE);
      var teethCell := GetAdditionalPunnettCell(Cross(fatherGenotype.teeth, motherGenotype.teeth), mutantAllele,
                                                genePool.teethGene.dominantAllele, randomCell(father, Teeth) % LITTER_SIZE);
      var birth := BirthGenotype(GenePairs(furCell, earsCell, teethCell), false, false, false);
      var _ := CreateBunny(Some(father), Some(mother), generation, birth.genotype, birth.mutation);
      ghost var all := EagerLitter(p0, father, mother, generation, genePool, randomCell);
      assert all[..LITTER_SIZE] == Litter(father, mother, fatherGenotype, motherGenotype, generation, 0, [], [], [], LITTER_SIZE);
    }

    /** One pass of the `mateRecessiveMutants` loop. */
    method MateRecessiveMutant(generation: nat, bunnies: seq<BunnyId>, copy: seq<BunnyId>,
                               randomCell: (BunnyId, Gene) -> nat)
      returns (bunnies': seq<BunnyId>, copy': seq<BunnyId>)
      requires Valid()
      requires |copy| > 0 && EagerInvariant(population, bunnies, copy)
      modifies this`population
      ensures Valid() && EagerInvariant(population, bunnies', copy')
      ensures (population, bunnies', copy') == EagerStep(old(population), bunnies, copy, generation, genePool, randomCell)
    {
      EagerStepKeeps(population, maxAge, bunnies, copy, generation, genePool, randomCell);
      var father := copy[0];
      copy' := copy[1..];
      var mutantAllele := population.bunnyGroup[father].mutation.value;
      var mother := GetMateForRecessiveMutant(father, mutantAllele, bunnies, population.bunnyGroup);
      bunnies' := bunnies;
      if mother.Some? {
        var m := mother.value;
        MateEagerly(father, m, generation, randomCell);
        bunnies' := SpliceOut(bunnies', father);
        WithoutDistinct(bunnies, {father});
        WithoutMembers(bunnies, {father}, m);
        bunnies' := SpliceOut(bunnies', m);
        var mutants := RemoveIfIncluded(population.recessiveMutants, father);
        WithoutDistinct(population.recessiveMutants, {father});
        mutants := RemoveIfIncluded(mutants, m);
        population := population.(recessiveMutants := mutants);
        DistinctSuffix(copy, 1);
        copy' := RemoveIfIncluded(copy', m);
      }
    }

    /** `mateRecessiveMutants`: each recessive mutant in turn (from a copy) mates with
      * the first bunny that has its mutant allele, if any. Returns the bunnies left.
      */
    method MateRecessiveMutants(generation: nat, bunnies: seq<BunnyId>, randomCell: (BunnyId, Gene) -> nat)
      returns (rest: seq<BunnyId>)
      requires Valid()
      requires EagerInvariant(population, bunnies, population.recessiveMutants)
      modifies this`population
      ensures Valid() && Distinct(rest) && forall b :: b in rest ==> b in population.liveBunnies
      ensures (population, rest)
        == EagerMatings(old(population), bunnies, old(population).recessiveMutants, generation, genePool, randomCell)
    {
      var copy := population.recessiveMutants;
      ghost var target := EagerMatings(population, bunnies, copy, generation, genePool, randomCell);
      rest := bunnies;
      while |copy| > 0
        invariant Valid() && EagerInvariant(population, rest, copy)
        invariant EagerMatings(population, rest, copy, generation, genePool, randomCell) == target
        decreases |copy|
      {
        rest, copy := MateRecessiveMutant(generation, rest, copy, randomCell);
      }
    }

    /** The main part of `mateBunnies` on the bunnies left after eager mating: the
      * mutation flags are read and reset, the mutation indices picked, and the bunnies
      * mate in pairs.
      */
    method MateMainPairs(generation: nat, bunnies: seq<BunnyId>, indexDraws: seq<nat>)
      requires Valid()
      requires forall b :: b in bunnies ==> b in population.bunnyGroup
      modifies this`population, this`genePool
      ensures Valid()
      ensures genePool == old(genePool).ResetMutationComing()
      ensures population == PairsMated(old(population), bunnies, generation, old(genePool), mutationPercentNum,
                                       mutationPercentDen, indexDraws)
    {
      ghost var pool0 := genePool;
      var numberToBeBorn := |bunnies| / 2 * LITTER_SIZE;
      var mutateFur := genePool.furGene.mutationComing;
      var mutateEars := genePool.earsGene.mutationComing;
      var mutateTeeth := genePool.teethGene.mutationComing;
      genePool := genePool.ResetMutationComing();
      var furIndices: seq<nat>, earsIndices: seq<nat>, teethIndices: seq<nat> := [], [], [];
      if mutateFur || mutateEars || mutateTeeth {
        var numberToMutate := NumberToMutate(mutationPercentNum, mutationPercentDen, numberToBeBorn);
        furIndices, earsIndices, teethIndices :=
          MutationIndices(numberToBeBorn, numberToMutate, mutateFur, mutateEars, mutateTeeth, indexDraws);
      }
      assert (furIndices, earsIndices, teethIndices)
        == MutationPicks(pool0, numberToBeBorn, mutationPercentNum, mutationPercentDen, indexDraws);
      var bornIndex := MatePairs(bunnies, generation, furIndices, earsIndices, teethIndices);
    }

    /** The start of `mateBunnies`: the live bunnies are shuffled and, if there are
      * recessive mutants, they mate eagerly first. Returns the bunnies left to mate.
      */
    method ShuffleAndMateEagerly(generation: nat, shuffleDraws: seq<nat>, randomCell: (BunnyId, Gene) -> nat)
      returns (bunnies: seq<BunnyId>)
      requires Valid()
      modifies this`population
      ensures Valid() && forall b :: b in bunnies ==> b in population.bunnyGroup
      ensures (population, bunnies)
        == EagerlyMated(old(population), Permute(old(population).liveBunnies, shuffleDraws), generation, genePool, randomCell)
    {
      bunnies := Permute(population.liveBunnies, shuffleDraws);
      PermuteElements(population.liveBunnies, shuffleDraws);
      PermuteDistinct(population.liveBunnies, shuffleDraws);
      if |population.recessiveMutants| > 0 {
        bunnies := MateRecessiveMutants(generation, bunnies, randomCell);
      }
    }

    /** The taken-over-the-world notification fires when the live bunnies reach
      * MAX_POPULATION.
      */
    method NotifyIfTakenOver()
      modifies this`bunniesHaveTakenOverTheWorldCount
      ensures bunniesHaveTakenOverTheWorldCount
        == old(bunniesHaveTakenOverTheWorldCount) + (if |population.liveBunnies| >= maxPopulation then 1 else 0)
    {
      if |population.liveBunnies| >= maxPopulation {
        bunniesHaveTakenOverTheWorldCount := bunniesHaveTakenOverTheWorldCount + 1;
      }
    }

    /** `mateBunnies` (see `Mated`); the taken-over-the-world notification fires when
      * the live bunnies reach MAX_POPULATION.
      */
    method MateBunnies(generation: nat, shuffleDraws: seq<nat>, indexDraws: seq<nat>,
                       randomCell: (BunnyId, Gene) -> nat)
      requires Valid()
      modifies this`population, this`genePool, this`bunniesHaveTakenOverTheWorldCount
      ensures Valid()
      ensures genePool == old(genePool).ResetMutationComing()
      ensures population == Mated(old(population), old(genePool), generation, mutationPercentNum, mutationPercentDen,
                                  shuffleDraws, indexDraws, randomCell)
      ensures bunniesHaveTakenOverTheWorldCount
        == old(bunniesHaveTakenOverTheWorldCount) + (if |population.liveBunnies| >= maxPopulation then 1 else 0)
    {
      var bunnies := ShuffleAndMateEagerly(generation, shuffleDraws, randomCell);
      MateMainPairs(generation, bunnies, indexDraws);
      NotifyIfTakenOver();
    }
  }
}
