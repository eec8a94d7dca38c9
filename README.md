# Natural Selection: the generational population engine

This project models, in Dafny, the core of the population engine of the PhET
"Natural Selection" simulation, and proves properties of that model. The engine covers:

- the bookkeeping of live bunnies, dead bunnies and recessive mutants (`BunnyCollection`);
- mating with litters of four and forced mutations;
- eager mating of recessive mutants;
- ageing and death of old age;
- pruning of dead bunnies no longer needed by the pedigree graph;
- parsing of the initial-population query parameters (`parseInitialPopulation`);
- the phenotype counts kept by `BunnyArray`;
- genotype inheritance and its state save and restore (`Genotype`);
- the integer and sortedness helpers of `NaturalSelectionUtils`;
- the round-robin shrub sprite cursors (`ShrubSpritesMap`).

Modules, one per source file, plus two shared modules:

- `Base` (base.dfy): `Option`, `Result`, and the JavaScript array operations the engine relies on:
  - `indexOf` (`IndexOf`);
  - `splice` of one element (`SpliceOne`);
  - removal of a set of elements (`Without`).

  It also holds shuffling with caller-supplied random draws (`Permute`, `Draw`).
- `Genetics` (genetics.dfy): the collaborators the engine consumes:
  - the three genes and six alleles of Allele.js;
  - gene pairs and the 2x2 Punnett square of a cross;
  - the gene pool's dominance and "mutation coming" flags;
  - a birth with a forced mutation;
  - the phenotype a bunny expresses, as carried by `BunnyArray`.

  GenePair.js, PunnettSquare.js, GenePool.js, Gene.js and Bunny.js are not part of this model. This module states only what the engine relies on from them.
- `BunnyCollections` (bunny_collection.dfy): BunnyCollection.js.
  - Bunnies are records in a registry keyed by id. The registry stands for the PhET-iO group that owns them, and ids stand for object identity.
  - `Population` holds the registry, the next id and the three arrays.
  - `Population.Consistent` is the invariant every operation keeps:
    - no array repeats a bunny;
    - live bunnies are registered, alive and younger than `MAX_AGE`;
    - dead bunnies are registered and dead;
    - every registered bunny is live or dead;
    - every recessive mutant is a live original mutant.
  - Each operation has a value-level specification function, such as `Born`, `Died`, `AgedBy`, `PrunedBy`, `BornAll`, `EagerMatings` and `Mated`. The methods of the class `BunnyCollection` are proved against these functions, and the lemmas prove the properties of the functions.
- `InitialPopulation` (parse_initial_population.dfy): parseInitialPopulation.js.
  - Parsing is modelled by the methods, with loops and the in-place `AllelesPair`.
  - Acceptance is stated by predicates such as `MutationsValid`, `ExpressionAccepted` and `PopulationValid`.
  - The varieties built are stated by functions such as `ApplyMutations`, `VarietyOf` and `Varieties`.
- `BunnyArrays` (bunny_array.dfy): BunnyArray.js. It provides the counts kept incrementally and `CountsOf`, the counts computed from scratch.
- `Genotypes` (genotype.dfy): Genotype.js.
- `NaturalSelectionUtils` (natural_selection_utils.dfy): NaturalSelectionUtils.js.
- `ShrubSprites` (shrub_sprites_map.dfy): ShrubSpritesMap.js.

Design decisions:

- Randomness is a parameter.
  - A shuffle is `Permute(s, draws)`: it is a permutation of `s` for every sequence of draws.
  - `getRandomCell` is an index the caller supplies. In eager mating it is a function of the father and the gene.
- The query parameters `maxAge`, `maxPopulation`, `mutationPercentage` and the default values of the two population parameters are constructor or method parameters.
- The two notifications (all bunnies have died, bunnies have taken over the world) are counters of how often they fired.

Two places where the source differs from its own description:

- Genotype.js builds an inherited gene pair with `GenePair.combine` of the parents' pairs. BunnyCollection.js instead passes the alleles of a Punnett square cell in `genotypeOptions`. The model follows each file as written:
  - `Genotypes` models the constructor shown in Genotype.js;
  - `BunnyCollections` builds a newborn's gene pairs directly from the cross cells.
- `abbreviationToAllele` asserts that the gene has a dominant allele. The `try` in `parseInitialPopulation` catches assertion failures too, so the model takes whether assertions are enabled as a parameter (`assertionsOn`). With assertions enabled, a failed assertion is one more parse error.

## Model

| member | source | states |
|---|---|---|
| Base.Draw | js/common/model/BunnyCollection.js:301 | each pick of a shuffle is a position among the elements still to place, namely the supplied draw reduced to that range |
| Base.Permute | js/common/model/BunnyCollection.js:301 | a shuffle has the same length and the same multiset of elements as its input, for any draws |
| Base.PermuteDraws | js/common/model/BunnyCollection.js:301 | for every permutation of the input there are draws under which the shuffle produces it |
| Base.PermuteReachable | js/common/model/BunnyCollection.js:301 | every permutation of the input is a possible outcome of the shuffle |
| Base.PermuteElements | js/common/model/BunnyCollection.js:301 | a shuffle has exactly the members of its input |
| Base.PermuteDistinct | js/common/model/BunnyCollection.js:531 | shuffling an array without repeats gives an array without repeats |
| Base.IndexOf | js/common/model/BunnyCollection.js:488-489 | `indexOf` is -1 exactly when the element is absent, otherwise the index of its first occurrence |
| Base.SpliceIndexOf | js/common/model/BunnyCollection.js:488-489 | on an array without repeats, `splice(indexOf(x), 1)` of a present `x` removes exactly `x` |
| Base.WithoutMembers | js/common/model/BunnyCollection.js:178-180 | after removing a set of bunnies, a bunny is present iff it was present and not in the set |
| Base.WithoutDistinct | js/common/model/BunnyCollection.js:156-158 | removing bunnies from an array without repeats leaves an array without repeats |
| BunnyCollections.BunnyRestRange | js/common/model/BunnyCollection.js:88-104 | the rest range is one of the three ranges of lines 37-39, each with min below max |
| BunnyCollections.RestRangeMonotone | js/common/model/BunnyCollection.js:90-99 | a larger population never rests less, and the range changes only at 10 and at 250 live bunnies |
| BunnyCollections.RoundSymmetric | js/common/model/BunnyCollection.js:329 | the rounded value of num/den is the integer nearest to it, halves rounded up |
| BunnyCollections.NumberToMutate | js/common/model/BunnyCollection.js:329 | the number to mutate is at least 1, and is the rounded percentage of the births unless that is 0 |
| BunnyCollections.Indices | js/common/model/BunnyCollection.js:332-335 | the indices array holds 0 .. n-1 in order |
| BunnyCollections.PermutedIndices | js/common/model/BunnyCollection.js:332-338 | the shuffled indices repeat no index and hold exactly the births 0 .. n-1 |
| BunnyCollections.MutationBounds | js/common/model/BunnyCollection.js:341-349 | the three index blocks are successive, in fur, ears, teeth order, within the shuffled indices |
| BunnyCollections.Taken | js/common/model/BunnyCollection.js:341-349 | one `splice(0, numberToMutate)` takes `numberToMutate` indices, or all that remain; nothing when its flag is off |
| BunnyCollections.MutationIndicesDisjoint | js/common/model/BunnyCollection.js:319-350 | each mutation's indices number at most `numberToMutate`, are empty when its flag is off, and no index is in two of them |
| BunnyCollections.MutationIndices | js/common/model/BunnyCollection.js:331-349 | the fur, ears and teeth indices are the successive blocks of one permutation of 0 .. numberToBeBorn-1 |
| BunnyCollections.SpliceMutationIndices | js/common/model/BunnyCollection.js:341-349 | the three `splice(0, numberToMutate)` calls take the three successive blocks |
| BunnyCollections.MutationPicksSound | js/common/model/BunnyCollection.js:311-350 | read from the gene pool, every picked index is a birth below numberToBeBorn, no birth gets two mutations, each block is within `numberToMutate`, and a gene with no mutation coming gets none |
| BunnyCollections.FirstMateIndex | js/common/model/BunnyCollection.js:596-601 | the index of the first bunny other than the father that carries the father's mutant allele, or -1 exactly when there is none |
| BunnyCollections.GetMateForRecessiveMutant | js/common/model/BunnyCollection.js:590-603 | the search loop returns the first suitable mate, and null exactly when none exists |
| BunnyCollections.FirstHomozygous | js/common/model/BunnyCollection.js:621-627 | the first cell homozygous for the mutant allele, or -1 exactly when there is none |
| BunnyCollections.FirstHaving | js/common/model/BunnyCollection.js:629-637 | the first cell holding the dominant allele, or -1 exactly when there is none |
| BunnyCollections.AdditionalCell | js/common/model/BunnyCollection.js:614-646 | the additional offspring's cell is always one of the square's cells |
| BunnyCollections.AdditionalCellPriority | js/common/model/BunnyCollection.js:619-642 | a homozygous mutant cell is chosen if one exists; otherwise a cell with the dominant allele if the gene has one and such a cell exists |
| BunnyCollections.GetAdditionalPunnettCell | js/common/model/BunnyCollection.js:614-646 | the two search loops and the random fallback compute that cell |
| BunnyCollections.ConsistentCounts | js/common/model/BunnyCollection.js:573-580 | in a consistent population, live plus dead equals the size of the registry, and no bunny is both |
| BunnyCollections.BornConsistent | js/common/model/BunnyCollection.js:148-173 | the next id is fresh, and registering a live young bunny and pushing it onto the live bunnies keeps the population consistent |
| BunnyCollections.DiedConsistent | js/common/model/BunnyCollection.js:155-162 | the died listener (live to dead, dropped from the recessive mutants) keeps the population consistent, so the mutants stay within the live bunnies |
| BunnyCollections.DisposedConsistent | js/common/model/BunnyCollection.js:176-181 | the disposed listener (removal from the registry and every array) keeps the population consistent |
| BunnyCollections.AgedOneConsistent | js/common/model/BunnyCollection.js:269-280 | ageing one live bunny, with death of old age, keeps the population consistent |
| BunnyCollections.RemoveIfIncluded | js/common/model/BunnyCollection.js:158 | `includes(b) && remove(b)` on an array without repeats removes exactly `b` |
| BunnyCollections.RecordDeath | js/common/model/BunnyCollection.js:155-162 | the died listener computes `Died` and keeps the population consistent |
| BunnyCollections.RecordDisposal | js/common/model/BunnyCollection.js:176-181 | the disposed listener computes `Disposed` and keeps the population consistent |
| BunnyCollections.SpliceOutAll | js/common/model/BunnyCollection.js:535-537 | the splice loop removes exactly the recessive mutants from the shuffled bunnies |
| BunnyCollections.CandidatesOf | js/common/model/BunnyCollection.js:528-540 | the candidates repeat no bunny and are exactly the live bunnies that are not recessive mutants |
| BunnyCollections.BunnyCollection.GetSelectionCandidates | js/common/model/BunnyCollection.js:528-540 | the candidates are the shuffled live bunnies without the recessive mutants, and they are exactly the live non-mutants |
| BunnyCollections.Aged | js/common/model/BunnyCollection.js:271-280 | an aged bunny is one generation older, dies of old age exactly on reaching MAX_AGE, and is otherwise unchanged |
| BunnyCollections.AgedGroup | js/common/model/BunnyCollection.js:268-281 | ageing the bunnies of the copy keeps the set of registered bunnies |
| BunnyCollections.AgedGroupAt | js/common/model/BunnyCollection.js:268-281 | every bunny of the copy is aged exactly once and every other bunny is unchanged |
| BunnyCollections.OldAgeDeathsMembers | js/common/model/BunnyCollection.js:276-280 | the bunnies that die are exactly the bunnies of the copy that reach MAX_AGE |
| BunnyCollections.OldAgeDeathsDistinct | js/common/model/BunnyCollection.js:276-280 | no bunny dies twice |
| BunnyCollections.AgedByClosedForm | js/common/model/BunnyCollection.js:261-285 | ageing the copy one bunny at a time ages all of them, moves exactly those reaching MAX_AGE from live to dead in order, and drops them from the recessive mutants |
| BunnyCollections.AgeingReachesNext | js/common/model/BunnyCollection.js:268-269 | a bunny of the copy is still live when its turn comes, so `die` is only called on live bunnies |
| BunnyCollections.SurvivorsYounger | js/common/model/BunnyCollection.js:272-274 | a survivor of ageing is still younger than MAX_AGE, so no age exceeds MAX_AGE |
| BunnyCollections.BunnyCollection.AgeBunny | js/common/model/BunnyCollection.js:271-280 | one iteration computes `AgedOne`, keeps the collection valid, and fires the all-died notification iff this death empties the live bunnies |
| BunnyCollections.BunnyCollection.AgeBunnies | js/common/model/BunnyCollection.js:261-285 | `ageBunnies` ages every bunny live at entry in order, keeps the collection valid, and fires the all-died notification once iff it empties a non-empty population |
| BunnyCollections.PrunedByClosedForm | js/common/model/BunnyCollection.js:548-562 | pruning removes exactly the dead bunnies older than the window that are not selected, from the registry and every array, and leaves everything else |
| BunnyCollections.PruneReachesNext | js/common/model/BunnyCollection.js:553-556 | the backwards loop finds, at index i, the same dead bunny as before, untouched by the later iterations |
| BunnyCollections.BunnyCollection.PruneDeadBunnies | js/common/model/BunnyCollection.js:548-567 | the backwards loop computes `PrunedBy` over the dead bunnies and keeps the collection valid |
| BunnyCollections.IdsFrom | js/common/model/BunnyCollection.js:371-392 | consecutive births receive the consecutive ids from the next id |
| BunnyCollections.BornAllClosedForm | js/common/model/BunnyCollection.js:368-399 | births one at a time append consecutive new ids to the live bunnies, append the tracked recessive mutants, leave the dead bunnies, and advance the next id by the number born |
| BunnyCollections.BornAllGroup | js/common/model/BunnyCollection.js:368-399 | births register exactly the new ids, leave older bunnies unchanged, and record the k-th newborn under the k-th new id |
| BunnyCollections.BornAllSnoc | js/common/model/BunnyCollection.js:371-398 | one more birth extends the births by one tracked birth |
| BunnyCollections.BornAllAppend | js/common/model/BunnyCollection.js:306-400 | births in two stages are the births all at once |
| BunnyCollections.BornAllKeeps | js/common/model/BunnyCollection.js:368-399 | births never change an existing bunny |
| BunnyCollections.BornAllConsistent | js/common/model/BunnyCollection.js:368-399 | births of live young newborns keep the population consistent |
| BunnyCollections.BornTrackedConsistent | js/common/model/BunnyCollection.js:394-398 | tracking a newborn original mutant as a recessive mutant keeps the population consistent |
| BunnyCollections.Litter | js/common/model/BunnyCollection.js:368-399 | a litter has LITTER_SIZE newborns |
| BunnyCollections.LitterAt | js/common/model/BunnyCollection.js:368-390 | the j-th newborn of a litter is born from cell j of each cross, mutated per its birth index |
| BunnyCollections.PairLitters | js/common/model/BunnyCollection.js:356-400 | k pairs produce k * LITTER_SIZE newborns |
| BunnyCollections.PairLittersNext | js/common/model/BunnyCollection.js:356-361 | pair k is (bunnies[2k+1], bunnies[2k]) as father and mother, and its litter follows the earlier ones |
| BunnyCollections.PairLittersAt | js/common/model/BunnyCollection.js:356-392 | the n-th newborn has father bunnies[2(n/4)+1] and mother bunnies[2(n/4)], cell n % 4 of each cross, and the mutations whose index sets contain n |
| BunnyCollections.MateParentsFound | js/common/model/BunnyCollection.js:359-365 | the parents of the next pair are still registered and unchanged when their turn comes |
| BunnyCollections.PairLittersBorn | js/common/model/BunnyCollection.js:356-400 | one more litter extends the births of the mating loop by one pair |
| BunnyCollections.BunnyCollection.MateLitter | js/common/model/BunnyCollection.js:368-399 | the inner loop gives birth to the litter, advances `bornIndex` by LITTER_SIZE, and keeps the collection valid |
| BunnyCollections.BunnyCollection.MatePair | js/common/model/BunnyCollection.js:358-399 | one iteration of the pair loop adds one pair's litter |
| BunnyCollections.BunnyCollection.MatePairs | js/common/model/BunnyCollection.js:356-404 | the pair loop produces the litters of floor(n/2) pairs, so `bornIndex` ends at floor(n/2) * LITTER_SIZE and an odd leftover does not mate |
| BunnyCollections.BunnyCollection.MateMainPairs | js/common/model/BunnyCollection.js:311-404 | the flags are read before the gene pool is reset, the indices are picked from them, and the pair loop gives birth to the pairs' litters |
| BunnyCollections.EagerLitter | js/common/model/BunnyCollection.js:443-485 | an eager mating produces LITTER_SIZE + 1 newborns |
| BunnyCollections.EagerLitterUntracked | js/common/model/BunnyCollection.js:443-485 | eager mating's newborns have both parents, are live, have age 0 and carry no forced mutation |
| BunnyCollections.TrackedIdsNone | js/common/model/BunnyCollection.js:394-398 | newborns without a forced mutation are never tracked |
| BunnyCollections.EagerMate | js/common/model/BunnyCollection.js:431-436 | a mate found for the first mutant of the copy is among the bunnies and carries the father's mutant allele |
| BunnyCollections.EagerMated | js/common/model/BunnyCollection.js:436-499 | an eager mating removes no more of the copy than the mother, and keeps the bunnies still to mate registered |
| BunnyCollections.EagerMatedEffects | js/common/model/BunnyCollection.js:436-499 | LITTER_SIZE + 1 newborns join the live bunnies with the next ids, the dead stay, both parents leave the bunnies and the recessive mutants, and the mother leaves the copy |
| BunnyCollections.ParentsRemoved | js/common/model/BunnyCollection.js:488-499 | after removing the father and then the mother, or the mother alone, exactly the other bunnies remain |
| BunnyCollections.EagerStep | js/common/model/BunnyCollection.js:428-501 | every pass shortens the copy, so the loop terminates |
| BunnyCollections.EagerStepEffects | js/common/model/BunnyCollection.js:428-501 | a mutant without a mate only leaves the copy and stays a recessive mutant; one with a mate has LITTER_SIZE + 1 offspring and both parents leave the bunnies and the recessive mutants |
| BunnyCollections.EagerMatings | js/common/model/BunnyCollection.js:421-504 | the loop's result keeps the bunnies still to mate registered |
| BunnyCollections.UntrackConsistent | js/common/model/BunnyCollection.js:493-496 | removing bunnies from the recessive mutants keeps the population consistent |
| BunnyCollections.EagerBornKeeps | js/common/model/BunnyCollection.js:443-485 | eager offspring join consistently, leave the recessive mutants unchanged and keep every live bunny live |
| BunnyCollections.EagerInvariantKept | js/common/model/BunnyCollection.js:488-499 | the removals after an eager mating keep the loop invariant |
| BunnyCollections.EagerListsKeep | js/common/model/BunnyCollection.js:488-499 | after the removals, the bunnies and the copy repeat no bunny, and every mutant left in the copy is a recessive mutant among the bunnies |
| BunnyCollections.EagerMatedKeeps | js/common/model/BunnyCollection.js:436-499 | an eager mating keeps the population consistent and the loop invariant |
| BunnyCollections.EagerStepKeeps | js/common/model/BunnyCollection.js:428-501 | every pass keeps the population consistent and the loop invariant |
| BunnyCollections.BunnyCollection.MateEagerly | js/common/model/BunnyCollection.js:438-485 | the eager litter and the additional offspring are born and the collection stays valid |
| BunnyCollections.BunnyCollection.MateRecessiveMutant | js/common/model/BunnyCollection.js:429-500 | one pass of the loop computes `EagerStep` and keeps the invariant |
| BunnyCollections.BunnyCollection.MateRecessiveMutants | js/common/model/BunnyCollection.js:421-504 | the loop computes `EagerMatings` from a copy of the recessive mutants, and returns bunnies that are distinct and live |
| BunnyCollections.EagerlyMated | js/common/model/BunnyCollection.js:306-308 | eager mating before the main matings keeps every bunny still to mate registered |
| BunnyCollections.BunnyCollection.ShuffleAndMateEagerly | js/common/model/BunnyCollection.js:301-308 | the live bunnies are shuffled, then mated eagerly if there are recessive mutants |
| BunnyCollections.BunnyCollection.NotifyIfTakenOver | js/common/model/BunnyCollection.js:406-409 | the take-over notification fires iff the live count is at least MAX_POPULATION |
| BunnyCollections.BunnyCollection.MateBunnies | js/common/model/BunnyCollection.js:294-410 | `mateBunnies` computes `Mated`, resets the gene pool's flags, keeps the collection valid, and fires the take-over notification iff the live count reaches MAX_POPULATION |
| BunnyCollections.BunnyCollection.constructor | js/common/model/BunnyCollection.js:41-186 | a new collection is empty and valid, with MAX_DEAD_BUNNY_GENERATIONS = maxAge * (PEDIGREE_TREE_DEPTH - 1) |
| BunnyCollections.BunnyCollection.CreateBunny | js/common/model/BunnyCollection.js:148-173 | `createBunny` registers the live newborn under a fresh id and pushes it onto the live bunnies |
| BunnyCollections.BunnyCollection.CreateBunnyZero | js/common/model/BunnyCollection.js:230-245 | a generation-zero bunny has no parents and generation 0 |
| BunnyCollections.BunnyCollection.Die | js/common/model/BunnyCollection.js:155-162 | the died listener computes `Died` and fires the all-died notification iff the live bunnies become empty |
| BunnyCollections.BunnyCollection.DisposeBunny | js/common/model/BunnyCollection.js:176-181 | disposal computes `Disposed` and keeps the collection valid |
| BunnyCollections.BunnyCollection.Reset | js/common/model/BunnyCollection.js:192-196 | reset disposes of every bunny and clears the selected bunny |
| BunnyCollections.BunnyCollection.Track | js/common/model/BunnyCollection.js:394-398 | a newborn original mutant with a recessive mutation is pushed onto the recessive mutants |
| Genetics.GeneOf | js/common/model/Allele.js:86-108 | each of the six alleles is the normal or the mutant allele of exactly one gene |
| Genetics.Cross | js/common/model/BunnyCollection.js:363-365 | a Punnett square has LITTER_SIZE cells |
| Genetics.CrossSegregates | js/common/NaturalSelectionConstants.js:120-121 | the four cells take each parent allele twice (segregation), and every cell's alleles come from the parents |
| Genetics.GenePool.ResetMutationComing | js/common/model/BunnyCollection.js:314-317 | the reset clears every "mutation coming" flag and keeps every gene's dominance |
| Genetics.ResetMutationComingIdempotent | js/common/model/BunnyCollection.js:314-317 | resetting twice is resetting once |
| Genetics.BirthGenotypeSingleMutation | js/common/model/BunnyCollection.js:385-388 | with at most one mutation selected, a newborn is a mutant iff one was selected, it carries that gene's mutant allele, and other genes are inherited unchanged |
| InitialPopulation.AbbreviationsIdentifyGenes | js/common/model/parseInitialPopulation.js:101-108 | every abbreviation belongs to exactly one gene, the list holds all six, and a gene's two abbreviations differ |
| InitialPopulation.Dominance.Set | js/common/model/parseInitialPopulation.js:117-124 | setting one gene's dominant allele property changes no other gene |
| InitialPopulation.DominanceExtensional | js/common/model/parseInitialPopulation.js:103-125 | dominance is determined by the three genes' properties |
| InitialPopulation.MutationDominance | js/common/model/parseInitialPopulation.js:117-124 | the dominant abbreviation makes the mutant allele dominant, the recessive one the normal allele, in value and initial value; otherwise the gene is unchanged |
| InitialPopulation.Verify | js/common/model/parseInitialPopulation.js:315-319 | `verify` fails exactly when its predicate is false, with the given error |
| InitialPopulation.ParseMutations | js/common/model/parseInitialPopulation.js:91-132 | accepts iff no gene has both abbreviations and every character is an abbreviation; on success it returns the characters and configures the dominance; each error names its cause |
| InitialPopulation.CountValue | js/common/model/parseInitialPopulation.js:189-190 | a count string reads as a number exactly when it is a non-empty string of digits |
| InitialPopulation.CountValuePositive | js/common/model/parseInitialPopulation.js:189-191 | a count string passes the positive-integer check exactly when it is a count |
| InitialPopulation.CountOf | js/common/model/parseInitialPopulation.js:190 | a count is positive exactly for a valid count string, and is its decimal value |
| InitialPopulation.FirstLetterIndex | js/common/model/parseInitialPopulation.js:181 | `search(/[a-zA-Z]/)` is the index of the first letter, or -1 exactly when there is none |
| InitialPopulation.SplitAtFirstLetter | js/common/model/parseInitialPopulation.js:181-185 | the count and genotype strings are the substrings before and from the first letter |
| InitialPopulation.ExpressionSplits | js/common/model/parseInitialPopulation.js:180-185 | an expression is its count string followed by its genotype string; the count has no letter and the genotype starts with one |
| InitialPopulation.AlleleFor | js/common/model/parseInitialPopulation.js:292-296 | an abbreviation names the gene's normal or mutant allele |
| InitialPopulation.AbbreviationNamesDominance | js/common/model/parseInitialPopulation.js:292-296 | the dominant abbreviation names the dominant allele and the recessive one the other allele |
| InitialPopulation.Matching | js/common/model/parseInitialPopulation.js:262-267 | a gene's abbreviations in a genotype are no more than its characters |
| InitialPopulation.MatchingCount | js/common/model/parseInitialPopulation.js:212-214 | a gene's abbreviations number its dominant plus its recessive occurrences |
| InitialPopulation.MatchingPrefix | js/common/model/parseInitialPopulation.js:262-267 | a prefix holds no more of a gene's abbreviations than the whole string |
| InitialPopulation.SlotsMeaning | js/common/model/parseInitialPopulation.js:298-305 | the father slot holds the first abbreviation's allele and the mother slot the last one's once there are two |
| InitialPopulation.SlotsStep | js/common/model/parseInitialPopulation.js:263-266 | offering one more character moves the slots as `abbreviationToAllele` does |
| InitialPopulation.SlotsAssertedPrefix | js/common/model/parseInitialPopulation.js:290-303 | once an assertion fails on a prefix it fails on the whole string |
| InitialPopulation.VarietyDefaults | js/common/model/parseInitialPopulation.js:269-278 | a slot not named in the genotype string defaults to the gene's normal allele, and every allele belongs to its gene |
| InitialPopulation.CheckedGenotypeFillsPair | js/common/model/parseInitialPopulation.js:207-224 | when the checks pass, the gene's two abbreviations give the variety's two alleles in order |
| InitialPopulation.AllelesPair.constructor | js/common/model/parseInitialPopulation.js:257-259 | a pair starts with no alleles |
| InitialPopulation.AbbreviationToAllele | js/common/model/parseInitialPopulation.js:288-307 | fills the father slot first and the mother slot second with the named allele, ignores other genes' characters, and fails only on an enabled assertion |
| InitialPopulation.OfferCharacter | js/common/model/parseInitialPopulation.js:264-266 | one call moves a pair to the slots of the longer prefix, or the assertions fail on the whole string |
| InitialPopulation.CreateBunnyVariety | js/common/model/parseInitialPopulation.js:245-279 | builds `VarietyOf` the count and genotype string, and fails exactly when an enabled assertion fails |
| InitialPopulation.PrefixValidIff | js/common/model/parseInitialPopulation.js:175-229 | the loop's prefix is valid iff each of its expressions is |
| InitialPopulation.PrefixValidAt | js/common/model/parseInitialPopulation.js:175-229 | each expression of a valid prefix is valid |
| InitialPopulation.VarietiesUpTo | js/common/model/parseInitialPopulation.js:228 | one variety is pushed per expression |
| InitialPopulation.VarietiesAt | js/common/model/parseInitialPopulation.js:228 | the i-th variety is the i-th expression's |
| InitialPopulation.ParseExpression | js/common/model/parseInitialPopulation.js:178-228 | accepts an expression iff it has a genotype, a positive count, a total below maxPopulation, a genotype of 2 * mutations characters and (with assertions) the per-gene checks; returns its variety |
| InitialPopulation.ParseExpressions | js/common/model/parseInitialPopulation.js:171-229 | the loop succeeds iff every expression is valid, returning their varieties in order and the running total |
| InitialPopulation.ParsePopulation | js/common/model/parseInitialPopulation.js:146-234 | accepts exactly a valid population value (the single positive count without mutations, a non-empty list of valid expressions with a positive total otherwise) and returns its varieties |
| InitialPopulation.RunningTotalMonotone | js/common/model/parseInitialPopulation.js:194 | the running total never decreases |
| InitialPopulation.RunningTotalBelowMax | js/common/model/parseInitialPopulation.js:194-196 | every running total is below maxPopulation iff the final one is |
| InitialPopulation.TotalPositive | js/common/model/parseInitialPopulation.js:230 | with positive counts the total is at least the number of expressions, so the final check never fails |
| InitialPopulation.RunningTotalPrefix | js/common/model/parseInitialPopulation.js:194 | the running total of a prefix depends only on that prefix |
| InitialPopulation.AcceptedPopulation | js/common/model/parseInitialPopulation.js:174-230 | an accepted population has counts of at least 1, genotypes of 2 * mutations characters and a total below maxPopulation |
| InitialPopulation.ParseInitialPopulation | js/common/model/parseInitialPopulation.js:38-79 | valid values give their varieties and dominance; otherwise dominance is cleared and the defaults are parsed |
| InitialPopulation.ResetForgetsRejected | js/common/model/parseInitialPopulation.js:66-74 | after the revert, a gene the default mutations do not name has no dominant allele |
| BunnyArrays.BunnyCounts.Plus | js/common/model/BunnyArray.js:51-54 | adding a bunny raises the total by one |
| BunnyArrays.BunnyCounts.Minus | js/common/model/BunnyArray.js:57-60 | removing a bunny lowers the total by one |
| BunnyArrays.BunnyCounts.Add | js/common/model/BunnyArray.js:52 | totals add |
| BunnyArrays.One | js/common/model/BunnyArray.js:52 | one bunny's counts have total 1 |
| BunnyArrays.PlusMinus | js/common/model/BunnyArray.js:51-60 | removing a bunny undoes adding it |
| BunnyArrays.AddSubMiddle | js/common/model/BunnyArray.js:57-60 | subtracting a summand's counts takes exactly its contribution away |
| BunnyArrays.CountsOf | js/common/model/BunnyArray.js:53 | counts from scratch have total equal to the length |
| BunnyArrays.CountsOfAppend | js/common/model/BunnyArray.js:51-54 | counts of a concatenation are the sum of the counts |
| BunnyArrays.CountsOfSingleton | js/common/model/BunnyArray.js:52 | a single bunny's counts are its own |
| BunnyArrays.CountsOfRemoveAt | js/common/model/BunnyArray.js:57-60 | removing the bunny at k takes exactly its counts off |
| BunnyArrays.CountsOfSane | js/common/model/BunnyArray.js:51-60 | counts of well-formed bunnies are non-negative and each gene's two counts add up to the total |
| BunnyArrays.BunnyArray.constructor | js/common/model/BunnyArray.js:41-48 | a new array is empty with zero counts |
| BunnyArrays.BunnyArray.Push | js/common/model/BunnyArray.js:50-54 | push appends the bunny, its counts are the old plus the bunny, and total equals length |
| BunnyArrays.BunnyArray.Remove | js/common/model/BunnyArray.js:56-60 | remove splices out the first occurrence, its counts are the old minus the bunny, and total equals length; an absent bunny changes nothing |
| Genotypes.Combine | js/common/model/Genotype.js:66-68 | a combined pair takes one allele from each parent's pair, and is a cell of their cross |
| Genotypes.Inherit | js/common/model/Genotype.js:63-76 | with no parents the pairs are generation zero's; with both, each pair takes its alleles from the parents' pairs of that gene |
| Genotypes.InheritIsCrossCell | js/common/model/Genotype.js:63-69 | each inherited pair is a cell of the parents' cross, and every cell is reached by some coins |
| Genotypes.Genotype.constructor | js/common/model/Genotype.js:28-77 | a genotype needs both parents or neither, and gets the inherited or the generation-zero pairs |
| Genotypes.StateRoundTrip | js/common/model/Genotype.js:98-135 | saving and restoring gives back the same pairs when the pair serialisation round-trips |
| Genotypes.StateFieldwise | js/common/model/Genotype.js:98-104 | each gene's saved value depends only on that gene's pair |
| Genotypes.Genotype.SetValue | js/common/model/Genotype.js:124-135 | `setValue` restores each pair from its own field |
| NaturalSelectionUtils.IsSorted | js/common/NaturalSelectionUtils.js:102-111 | the scan returns true iff every adjacent pair is non-decreasing, so empty and single-element arrays are sorted |
| NaturalSelectionUtils.AdjacentSortedIsSorted | js/common/NaturalSelectionUtils.js:102-111 | adjacent order gives order between any two positions |
| NaturalSelectionUtils.PositiveIntegerIff | js/common/NaturalSelectionUtils.js:119-121 | the value is a positive integer iff it is a number that is an integer of at least 1 |
| NaturalSelectionUtils.PositiveIsNonNegative | js/common/NaturalSelectionUtils.js:119-130 | every positive integer is a non-negative integer, and 0 is the only non-negative integer that is not positive |
| NaturalSelectionUtils.NextInRange | js/common/NaturalSelectionUtils.js:138-145 | the result lies in the range, and is `max` when min equals max |
| ShrubSprites.Advance | js/common/view/environment/ShrubSpritesMap.js:62-65 | the index advances by one and wraps to 0 at the length |
| ShrubSprites.AdvanceTimes | js/common/view/environment/ShrubSpritesMap.js:61-67 | the index stays within the sprites after any number of calls |
| ShrubSprites.AdvanceTimesWraps | js/common/view/environment/ShrubSpritesMap.js:61-67 | up to a full cycle, k calls advance the index by k and wrap past the end once; length-many calls restore it |
| ShrubSprites.ShrubSpritesMap.constructor | js/common/view/environment/ShrubSpritesMap.js:27-44 | three tender and three tough sprites, both indices 0 |
| ShrubSprites.ShrubSpritesMap.GetSprites | js/common/view/environment/ShrubSpritesMap.js:52-54 | six sprites, the tender ones followed by the tough ones |
| ShrubSprites.ShrubSpritesMap.GetNextTenderSprite | js/common/view/environment/ShrubSpritesMap.js:61-67 | returns the sprite at the tender index, advances and wraps that index, and leaves the tough index alone |
| ShrubSprites.ShrubSpritesMap.GetNextToughSprite | js/common/view/environment/ShrubSpritesMap.js:74-80 | returns the sprite at the tough index, advances and wraps that index, and leaves the tender index alone |
| ShrubSprites.ShrubSpritesMap.CycleTenderSprites | js/common/view/environment/ShrubSpritesMap.js:61-67 | three consecutive calls return the three tender sprites in cyclic order and restore the index |

## Left out

- View and UI code, images, PhET-iO instrumentation (tandems, IO types), and the PhET-iO state-restore branch that pushes a dead bunny (js/common/model/BunnyCollection.js:166-170): these are rendering and serialisation plumbing. The live-bunny branch is modelled.
- `moveBunnies`, `moveBunniesToGround` and `getLiveBunnyCounts`: motion and hopping belong to Bunny.js, which is not part of this model, and the getter only reads a property. `dispose` and `getArchetype` are left out because they do no engine work.
- The `bunnyCreatedEmitter` and the `phet.log` lines: notifications without effect on the engine's state.
- `BunnyArray` constructed with a number (js/common/model/BunnyArray.js:28-31): this is the plain-array path that `splice` and similar methods use internally. It does not track counts.
- The collection's three arrays are id sequences in `BunnyCollections`. Their phenotype counts are modelled separately, by `BunnyArrays`.
- Base.Permute: any sequence of draws gives a permutation, and every permutation is reachable (`PermuteReachable`). The probability distribution of `phet.joist.random.shuffle` is not modelled.
- How a bunny's phenotype is derived from its genotype belongs to Phenotype.js and Bunny.js, which are not part of this model. A `BunnyRef` carries its phenotype as given.
- Genetics.Cross: the random order of a Punnett square's cells is left out, so the cells are in a fixed order. The allele abbreviations of Gene.js are taken to be F/f, E/e and T/t.
- BunnyCollections.AdditionalBirth: `getRandomCell` is one supplied draw per father and gene, not a fresh random value on every call.
- BunnyCollections.NumberToMutate: `mutationPercentage` is the exact fraction num/den, and `Utils.roundSymmetric` is rounding that fraction half up. Floating-point rounding of the product is not modelled.
- BunnyCollections.EagerMate: the source asserts that the father is an original mutant. The model instead returns no mate for any other bunny, which the loop invariant rules out.
- InitialPopulation.CountValue: count strings are decimal digits only. The JavaScript `isNaN` and `parseFloat` accept more (signs, decimal points, exponents, whitespace), and those cases are not modelled.
- InitialPopulation.ParseMutations: the error messages are enum values without their text. The calls to `QueryStringMachine.addWarning` and `console.error` are left out.
- NaturalSelectionUtils.NextInRange: the random branch takes its random double as a parameter. Values are mathematical reals, not IEEE doubles. The floating-point helpers of that file (luminance, grey scale, timing) are left out.
- NaturalSelectionUtils.IsSorted: the array holds reals. JavaScript values that are not numbers, and NaN, are not modelled.
- The query parameters (`maxAge`, `maxPopulation`, `mutationPercentage`, the default mutations and population) are parameters of the model. Reading them from the URL is left out.
