/** parseInitialPopulation: parsing and validation of the two values that describe the
  * initial population of the Lab screen, a mutations value such as "FeT" and a list
  * of population expressions such as "35FFeEtt", with a fall-back to default values
  * when either is invalid.
  *
  * Each gene has a dominant (upper-case) and a recessive (lower-case) English
  * abbreviation: F/f for fur, E/e for ears and T/t for teeth.
  */
module InitialPopulation {
  import opened Base
  import opened Genetics
  import opened NaturalSelectionUtils

  function DominantAbbreviation(g: Gene): char
  {
    match g
    case Fur => 'F'
    case Ears => 'E'
    case Teeth => 'T'
  }

  function RecessiveAbbreviation(g: Gene): char
  {
    match g
    case Fur => 'f'
    case Ears => 'e'
    case Teeth => 't'
  }

  predicate IsAbbreviation(g: Gene, c: char)
  {
    c == DominantAbbreviation(g) || c == RecessiveAbbreviation(g)
  }

  /** The abbreviations of all genes, dominant before recessive, in the gene pool's order. */
  const AlleleAbbreviations: seq<char> := ['F', 'f', 'E', 'e', 'T', 't']

  /** Every abbreviation belongs to exactly one gene. */
  lemma AbbreviationsIdentifyGenes(g: Gene, h: Gene, c: char)
    ensures IsAbbreviation(g, c) ==> c in AlleleAbbreviations
    ensures c in AlleleAbbreviations ==> IsAbbreviation(Fur, c) || IsAbbreviation(Ears, c) || IsAbbreviation(Teeth, c)
    ensures IsAbbreviation(g, c) && IsAbbreviation(h, c) ==> g == h
    ensures DominantAbbreviation(g) != RecessiveAbbreviation(g)
  {
  }

  //--------------------------------------------------------------------------------
  // Dominance as configured by a mutations value
  //--------------------------------------------------------------------------------

  /** A gene's `dominantAlleleProperty`: its value and the value `reset` returns to. */
  datatype DominantAlleleProperty = DominantAlleleProperty(value: Option<Allele>, initialValue: Option<Allele>)

  datatype Dominance = Dominance(fur: DominantAlleleProperty, ears: DominantAlleleProperty, teeth: DominantAlleleProperty)
  {
    function Get(g: Gene): DominantAlleleProperty
    {
      match g
      case Fur => fur
      case Ears => ears
      case Teeth => teeth
    }

    function Set(g: Gene, p: DominantAlleleProperty): (d: Dominance)
      ensures d.Get(g) == p
      ensures forall h: Gene :: h != g ==> d.Get(h) == Get(h)
    {
      match g
      case Fur => this.(fur := p)
      case Ears => this.(ears := p)
      case Teeth => this.(teeth := p)
    }
  }

  /** Two dominance tables that agree on every gene are equal. */
  lemma DominanceExtensional(a: Dominance, b: Dominance)
    requires a.Get(Fur) == b.Get(Fur) && a.Get(Ears) == b.Get(Ears) && a.Get(Teeth) == b.Get(Teeth)
    ensures a == b
  {
  }

  /** Every gene's dominant allele null in both value and initial value. */
  const NoDominance := Dominance(
    DominantAlleleProperty(None, None), DominantAlleleProperty(None, None), DominantAlleleProperty(None, None))

  /** A gene's property after a valid mutations value: the dominant abbreviation makes the
    * mutant allele dominant, the recessive one the normal allele, and otherwise the
    * property is left as it was.
    */
  function Configured(p: DominantAlleleProperty, g: Gene, chars: seq<char>): DominantAlleleProperty
  {
    if DominantAbbreviation(g) in chars then DominantAlleleProperty(Some(MutantAllele(g)), Some(MutantAllele(g)))
    else if RecessiveAbbreviation(g) in chars then DominantAlleleProperty(Some(NormalAllele(g)), Some(NormalAllele(g)))
    else p
  }

  /** The dominance after configuring every gene from a mutations value. */
  function ApplyMutations(d: Dominance, chars: seq<char>): Dominance
  {
    Dominance(Configured(d.fur, Fur, chars), Configured(d.ears, Ears, chars), Configured(d.teeth, Teeth, chars))
  }

  /** Both abbreviations of a gene occur in the mutations value. */
  predicate Exclusive(chars: seq<char>, g: Gene)
  {
    DominantAbbreviation(g) in chars && RecessiveAbbreviation(g) in chars
  }

  /** A mutations value is accepted when no gene appears with both abbreviations and
    * every character is an abbreviation.
    */
  predicate MutationsValid(chars: seq<char>)
  {
    (forall g: Gene :: !Exclusive(chars, g))
    && forall k :: 0 <= k < |chars| ==> chars[k] in AlleleAbbreviations
  }

  /** What a valid mutations value does to each gene, in value and initial value alike. */
  lemma MutationDominance(d: Dominance, chars: seq<char>, g: Gene)
    requires MutationsValid(chars)
    ensures var p := ApplyMutations(d, chars).Get(g);
      (DominantAbbreviation(g) in chars ==> p.value == Some(MutantAllele(g)) && p.initialValue == Some(MutantAllele(g)))
      && (RecessiveAbbreviation(g) in chars ==> p.value == Some(NormalAllele(g)) && p.initialValue == Some(NormalAllele(g)))
      && (DominantAbbreviation(g) !in chars && RecessiveAbbreviation(g) !in chars ==> p == d.Get(g))
  {
    assert !Exclusive(chars, g);
  }

  datatype ParseError =
    | MutuallyExclusive(gene: Gene)
    | InvalidCharacter
    | NotAPositiveInteger
    | ValueRequired
    | MissingGenotype
    | CountNotAPositiveInteger
    | PopulationTooLarge
    | InvalidGenotype
    | AssertionFailed
    | TotalNotPositive

  /** `verify`: success when the predicate holds, the given error otherwise. */
  function Verify(p: bool, e: ParseError): (r: Result<(), ParseError>)
    ensures r.Ok? <==> p
    ensures r.Err? ==> r.error == e
  {
    if p then Ok(()) else Err(e)
  }

  /** `parseMutations`: configures every gene in the gene pool's order, failing at the
    * first gene named with both abbreviations, then rejects any character that is not
    * an abbreviation. A failure leaves the genes already configured as they are.
    */
  method ParseMutations(d: Dominance, mutationsValue: string) returns (r: Result<seq<char>, ParseError>, after: Dominance)
    ensures r.Ok? <==> MutationsValid(mutationsValue)
    ensures r.Ok? ==> r.value == mutationsValue && after == ApplyMutations(d, mutationsValue)
    ensures r.Err? && r.error.MutuallyExclusive? ==> Exclusive(mutationsValue, r.error.gene)
    ensures r.Err? && !r.error.MutuallyExclusive? ==>
      r.error == InvalidCharacter && forall g: Gene :: !Exclusive(mutationsValue, g)
  {
    var chars := mutationsValue;
    after := d;
    var i := 0;
    while i < |Genes|
      invariant 0 <= i <= |Genes|
      invariant forall j :: 0 <= j < i ==> !Exclusive(chars, Genes[j])
      invariant forall j :: 0 <= j < i ==> after.Get(Genes[j]) == Configured(d.Get(Genes[j]), Genes[j], chars)
      invariant forall j :: i <= j < |Genes| ==> after.Get(Genes[j]) == d.Get(Genes[j])
    {
      var g := Genes[i];
      var check := Verify(!(DominantAbbreviation(g) in chars && RecessiveAbbreviation(g) in chars), MutuallyExclusive(g));
      if check.Err? {
        assert Exclusive(chars, g);
        return Err(check.error), after;
      }
      if DominantAbbreviation(g) in chars {
        after := after.Set(g, DominantAlleleProperty(Some(MutantAllele(g)), Some(MutantAllele(g))));
      } else if RecessiveAbbreviation(g) in chars {
        after := after.Set(g, DominantAlleleProperty(Some(NormalAllele(g)), Some(NormalAllele(g))));
      }
      i := i + 1;
    }
    assert Genes[0] == Fur && Genes[1] == Ears && Genes[2] == Teeth;
    assert !Exclusive(chars, Fur) && !Exclusive(chars, Ears) && !Exclusive(chars, Teeth);
    DominanceExtensional(after, ApplyMutations(d, chars));
    var check := Verify(forall k :: 0 <= k < |chars| ==> chars[k] in AlleleAbbreviations, InvalidCharacter);
    if check.Err? {
      return Err(check.error), after;
    }
    r := Ok(chars);
  }

  //--------------------------------------------------------------------------------
  // Counts
  //--------------------------------------------------------------------------------

  predicate IsDigit(c: char)
  {
    '0' <= c <= '9'
  }

  predicate AllDigits(s: string)
  {
    forall k :: 0 <= k < |s| ==> IsDigit(s[k])
  }

  /** The decimal value of a string of digits. */
  function DigitsValue(s: string): nat
    requires AllDigits(s)
    decreases |s|
  {
    if |s| == 0 then 0 else 10 * DigitsValue(s[..|s| - 1]) + (s[|s| - 1] as int - '0' as int)
  }

  /** `parseFloat` of a count string, for strings of decimal digits; anything else,
    * the empty string included, reads as NaN.
    */
  function CountValue(s: string): (v: JsValue)
    ensures v.Number? <==> |s| > 0 && AllDigits(s)
  {
    if |s| > 0 && AllDigits(s) then Number(DigitsValue(s) as real) else NaN
  }

  /** A non-empty run of digits whose value is at least 1 (so "0" and "00" are not
    * counts, "007" is 7).
    */
  predicate IsCount(s: string)
  {
    |s| > 0 && AllDigits(s) && DigitsValue(s) >= 1
  }

  /** A count string reads as a positive integer exactly when it is a count. */
  lemma CountValuePositive(s: string)
    ensures IsPositiveInteger(CountValue(s)) <==> IsCount(s)
  {
    if |s| > 0 && AllDigits(s) {
      PositiveIntegerIff(CountValue(s), DigitsValue(s));
    }
  }

  /** The count a string stands for: its value when it is a positive integer, else 0. */
  function CountOf(s: string): (n: nat)
    ensures n > 0 <==> IsCount(s)
    ensures n > 0 ==> n == DigitsValue(s)
  {
    if |s| > 0 && AllDigits(s) then DigitsValue(s) else 0
  }

  //--------------------------------------------------------------------------------
  // Population expressions
  //--------------------------------------------------------------------------------

  predicate IsLetter(c: char)
  {
    'a' <= c <= 'z' || 'A' <= c <= 'Z'
  }

  /** `expression.search(/[a-zA-Z]/)`: the index of the first letter, or -1. */
  function FirstLetterIndex(e: string): (i: int)
    ensures -1 <= i < |e|
    ensures i == -1 <==> forall k :: 0 <= k < |e| ==> !IsLetter(e[k])
    ensures 0 <= i ==> IsLetter(e[i]) && forall k :: 0 <= k < i ==> !IsLetter(e[k])
    decreases |e|
  {
    if |e| == 0 then -1
    else if IsLetter(e[0]) then 0
    else
      var j := FirstLetterIndex(e[1..]);
      assert forall k :: 1 <= k < |e| ==> e[k] == e[1..][k - 1];
      if j == -1 then -1 else j + 1
  }

  /** The part of an expression before its first letter. */
  function CountString(e: string): string
    decreases |e|
  {
    if |e| == 0 || IsLetter(e[0]) then "" else [e[0]] + CountString(e[1..])
  }

  /** The part of an expression from its first letter on. */
  function GenotypeString(e: string): string
    decreases |e|
  {
    if |e| == 0 || IsLetter(e[0]) then e else GenotypeString(e[1..])
  }

  /** The two parts are the slices of the expression either side of its first letter;
    * without a letter, the whole expression is the count string.
    */
  lemma {:induction false} SplitAtFirstLetter(e: string)
    ensures FirstLetterIndex(e) == -1 ==> CountString(e) == e && GenotypeString(e) == ""
    ensures FirstLetterIndex(e) >= 0 ==>
      CountString(e) == e[..FirstLetterIndex(e)] && GenotypeString(e) == e[FirstLetterIndex(e)..]
    decreases |e|
  {
    if |e| > 0 && !IsLetter(e[0]) {
      var t := e[1..];
      SplitAtFirstLetter(t);
      var j := FirstLetterIndex(t);
      assert CountString(e) == [e[0]] + CountString(t);
      assert GenotypeString(e) == GenotypeString(t);
      assert FirstLetterIndex(e) == if j == -1 then -1 else j + 1;
      if j >= 0 {
        assert [e[0]] + t[..j] == e[..j + 1];
        assert t[j..] == e[j + 1..];
      } else {
        assert [e[0]] + t == e;
      }
    }
  }

  /** An expression is its count string followed by its genotype string; the count
    * string holds no letter, and the genotype string, when not empty, starts with one.
    */
  lemma {:induction false} ExpressionSplits(e: string)
    ensures CountString(e) + GenotypeString(e) == e
    ensures forall k :: 0 <= k < |CountString(e)| ==> !IsLetter(CountString(e)[k])
    ensures |GenotypeString(e)| > 0 ==> IsLetter(GenotypeString(e)[0])
    ensures |GenotypeString(e)| > 0 <==> FirstLetterIndex(e) != -1
    decreases |e|
  {
    SplitAtFirstLetter(e);
  }

  /** The number of occurrences of `c` in `s`. */
  function Occurrences(s: string, c: char): nat
    decreases |s|
  {
    if |s| == 0 then 0 else Occurrences(s[..|s| - 1], c) + (if s[|s| - 1] == c then 1 else 0)
  }

  /** The per-gene checks made only when assertions are enabled: each gene named in the
    * mutations has exactly two abbreviations in the genotype, and the character after
    * the first of them is also one of its abbreviations.
    */
  predicate GeneChecked(mutationChars: seq<char>, genotype: string, g: Gene)
  {
    var dom, rec := DominantAbbreviation(g), RecessiveAbbreviation(g);
    (dom in mutationChars || rec in mutationChars) ==>
      Occurrences(genotype, dom) + Occurrences(genotype, rec) == 2
      && var di, ri := IndexOf(genotype, dom), IndexOf(genotype, rec);
         var maxIndex := if di >= ri then di else ri;
         var minIndex := if di <= ri then di else ri;
         var firstIndex := if minIndex != -1 then minIndex else maxIndex;
         0 <= firstIndex + 1 < |genotype|
         && (genotype[firstIndex + 1] == dom || genotype[firstIndex + 1] == rec)
  }

  predicate GenotypeChecked(mutationChars: seq<char>, genotype: string)
  {
    GeneChecked(mutationChars, genotype, Fur) && GeneChecked(mutationChars, genotype, Ears)
    && GeneChecked(mutationChars, genotype, Teeth)
  }

  //--------------------------------------------------------------------------------
  // Bunny varieties
  //--------------------------------------------------------------------------------

  /** `BunnyVariety`: how many bunnies to create with which alleles. */
  datatype BunnyVariety = BunnyVariety(count: nat, genotypeString: string, alleles: GenePairs)

  /** The allele an abbreviation stands for: the upper-case abbreviation names the
    * dominant allele and the lower-case one the recessive allele, so the mutant allele
    * is chosen when the mutant is dominant and the abbreviation upper-case, or the
    * mutant is not dominant and the abbreviation lower-case.
    */
  function AlleleFor(g: Gene, dominant: Option<Allele>, c: char): (a: Allele)
    ensures a == NormalAllele(g) || a == MutantAllele(g)
  {
    var isMutantDominant := dominant == Some(MutantAllele(g));
    var isAbbreviationDominant := c == DominantAbbreviation(g);
    if (isMutantDominant && isAbbreviationDominant) || (!isMutantDominant && !isAbbreviationDominant) then
      MutantAllele(g)
    else
      NormalAllele(g)
  }

  /** Once a gene's dominance is configured, its upper-case abbreviation stands for the
    * dominant allele and its lower-case abbreviation for the other one.
    */
  lemma AbbreviationNamesDominance(g: Gene, dominant: Allele)
    requires dominant == NormalAllele(g) || dominant == MutantAllele(g)
    ensures AlleleFor(g, Some(dominant), DominantAbbreviation(g)) == dominant
    ensures AlleleFor(g, Some(dominant), RecessiveAbbreviation(g)) != dominant
  {
  }

  /** The characters of `s` that are abbreviations of `g`, in order. */
  function Matching(g: Gene, s: string): (m: string)
    ensures |m| <= |s|
    decreases |s|
  {
    if |s| == 0 then "" else Matching(g, s[..|s| - 1]) + (if IsAbbreviation(g, s[|s| - 1]) then [s[|s| - 1]] else "")
  }

  /** A gene's abbreviations in a genotype are as many as its two abbreviations'
    * occurrences together.
    */
  lemma {:induction false} MatchingCount(g: Gene, s: string)
    ensures |Matching(g, s)| == Occurrences(s, DominantAbbreviation(g)) + Occurrences(s, RecessiveAbbreviation(g))
    decreases |s|
  {
    if |s| > 0 {
      MatchingCount(g, s[..|s| - 1]);
    }
  }

  /** A prefix has no more of a gene's abbreviations than the whole. */
  lemma {:induction false} MatchingPrefix(g: Gene, s: string, i: nat)
    requires i <= |s|
    ensures |Matching(g, s[..i])| <= |Matching(g, s)|
    decreases |s| - i
  {
    if i < |s| {
      MatchingPrefix(g, s, i + 1);
      assert s[..i + 1][..i] == s[..i];
    } else {
      assert s[..i] == s;
    }
  }

  /** The father and mother slots of a gene's pair after offering it every character of
    * `s` in turn, as `abbreviationToAllele` fills them.
    */
  function Slots(g: Gene, dominant: Option<Allele>, s: string): (Option<Allele>, Option<Allele>)
    decreases |s|
  {
    if |s| == 0 then (None, None)
    else
      var prev := Slots(g, dominant, s[..|s| - 1]);
      var c := s[|s| - 1];
      if !IsAbbreviation(g, c) then prev
      else if prev.0.None? then (Some(AlleleFor(g, dominant, c)), prev.1)
      else (prev.0, Some(AlleleFor(g, dominant, c)))
  }

  /** The father slot holds the allele of the gene's first abbreviation, if any; the
    * mother slot is overwritten by every later one, so it holds the allele of the last
    * abbreviation once there are two or more.
    */
  lemma {:induction false} SlotsMeaning(g: Gene, dominant: Option<Allele>, s: string)
    ensures var m := Matching(g, s);
      Slots(g, dominant, s)
        == (if |m| >= 1 then Some(AlleleFor(g, dominant, m[0])) else None,
            if |m| >= 2 then Some(AlleleFor(g, dominant, m[|m| - 1])) else None)
    decreases |s|
  {
    if |s| > 0 {
      SlotsMeaning(g, dominant, s[..|s| - 1]);
    }
  }

  /** The assertions of `abbreviationToAllele` hold for a gene over a genotype string:
    * a gene that appears has a dominant allele, and no gene appears more than twice.
    */
  predicate SlotsAsserted(g: Gene, dominant: Option<Allele>, s: string)
  {
    var m := Matching(g, s);
    |m| == 0 || (dominant.Some? && |m| <= 2)
  }

  predicate VarietyAsserted(d: Dominance, s: string)
  {
    SlotsAsserted(Fur, d.fur.value, s) && SlotsAsserted(Ears, d.ears.value, s) && SlotsAsserted(Teeth, d.teeth.value, s)
  }

  /** A filled slot, or the gene's normal allele for an empty one. */
  function OrNormal(a: Option<Allele>, g: Gene): Allele
  {
    if a.Some? then a.value else NormalAllele(g)
  }

  function VarietyPair(g: Gene, dominant: Option<Allele>, s: string): GenePair
  {
    var slots := Slots(g, dominant, s);
    GenePair(OrNormal(slots.0, g), OrNormal(slots.1, g))
  }

  /** The variety `createBunnyVariety` builds. */
  function VarietyOf(d: Dominance, count: nat, s: string): BunnyVariety
  {
    BunnyVariety(count, s, GenePairs(
      VarietyPair(Fur, d.fur.value, s), VarietyPair(Ears, d.ears.value, s), VarietyPair(Teeth, d.teeth.value, s)))
  }

  /** Slots not named by the genotype string default to the gene's normal allele: with
    * no abbreviation of the gene both do, with one the mother slot does, and every
    * allele of a variety belongs to its gene.
    */
  lemma VarietyDefaults(d: Dominance, count: nat, s: string, g: Gene)
    ensures var p := VarietyOf(d, count, s).alleles.PairOf(g);
      (|Matching(g, s)| == 0 ==> p == GenePair(NormalAllele(g), NormalAllele(g)))
      && (|Matching(g, s)| == 1 ==> p.motherAllele == NormalAllele(g))
      && GeneOf(p.fatherAllele) == g && GeneOf(p.motherAllele) == g
  {
    SlotsMeaning(g, d.Get(g).value, s);
  }

  /** When the assertion-only checks pass for a gene named in the mutations, the gene's
    * two abbreviations in the genotype give the variety's two alleles, in order.
    */
  lemma CheckedGenotypeFillsPair(mutationChars: seq<char>, d: Dominance, count: nat, s: string, g: Gene)
    requires GeneChecked(mutationChars, s, g)
    requires DominantAbbreviation(g) in mutationChars || RecessiveAbbreviation(g) in mutationChars
    ensures |Matching(g, s)| == 2
    ensures var m := Matching(g, s);
      VarietyOf(d, count, s).alleles.PairOf(g)
        == GenePair(AlleleFor(g, d.Get(g).value, m[0]), AlleleFor(g, d.Get(g).value, m[1]))
  {
    MatchingCount(g, s);
    SlotsMeaning(g, d.Get(g).value, s);
  }

  /** The pair object `abbreviationToAllele` fills in place. */
  class AllelesPair {
    var fatherAllele: Option<Allele>
    var motherAllele: Option<Allele>

    constructor ()
      ensures fatherAllele == None && motherAllele == None
    {
      fatherAllele := None;
      motherAllele := None;
    }
  }

  /** `abbreviationToAllele`: an abbreviation of `g` is turned into an allele that fills
    * the father slot if it is empty and the mother slot otherwise. With assertions
    * enabled it fails when the gene has no dominant allele or both slots are taken.
    */
  method AbbreviationToAllele(c: char, g: Gene, dominant: Option<Allele>, pair: AllelesPair, assertionsOn: bool)
    returns (ok: bool)
    modifies pair
    ensures !IsAbbreviation(g, c) ==> ok && pair.fatherAllele == old(pair.fatherAllele) && pair.motherAllele == old(pair.motherAllele)
    ensures IsAbbreviation(g, c) ==>
      (ok <==> !(assertionsOn && (dominant.None? || (old(pair.fatherAllele).Some? && old(pair.motherAllele).Some?))))
    ensures IsAbbreviation(g, c) && ok && old(pair.fatherAllele).None? ==>
      pair.fatherAllele == Some(AlleleFor(g, dominant, c)) && pair.motherAllele == old(pair.motherAllele)
    ensures IsAbbreviation(g, c) && ok && old(pair.fatherAllele).Some? ==>
      pair.motherAllele == Some(AlleleFor(g, dominant, c)) && pair.fatherAllele == old(pair.fatherAllele)
  {
    ok := true;
    if IsAbbreviation(g, c) {
      if assertionsOn && dominant.None? {
        return false;
      }
      var allele := AlleleFor(g, dominant, c);
      if pair.fatherAllele.None? {
        pair.fatherAllele := Some(allele);
      } else {
        if assertionsOn && pair.motherAllele.Some? {
          return false;
        }
        pair.motherAllele := Some(allele);
      }
    }
  }

  /** Extending a genotype prefix by one character moves a gene's slots as
    * `abbreviationToAllele` does.
    */
  lemma SlotsStep(g: Gene, dominant: Option<Allele>, s: string, i: nat)
    requires i < |s|
    ensures Matching(g, s[..i + 1]) == Matching(g, s[..i]) + (if IsAbbreviation(g, s[i]) then [s[i]] else "")
    ensures var prev := Slots(g, dominant, s[..i]);
      Slots(g, dominant, s[..i + 1])
        == if !IsAbbreviation(g, s[i]) then prev
           else if prev.0.None? then (Some(AlleleFor(g, dominant, s[i])), prev.1)
           else (prev.0, Some(AlleleFor(g, dominant, s[i])))
    ensures Slots(g, dominant, s[..i]).0.Some? <==> |Matching(g, s[..i])| >= 1
    ensures Slots(g, dominant, s[..i]).1.Some? <==> |Matching(g, s[..i])| >= 2
  {
    var t := s[..i + 1];
    assert |t| - 1 == i && t[..|t| - 1] == s[..i] && t[|t| - 1] == s[i];
    SlotsMeaning(g, dominant, s[..i]);
  }

  /** A gene whose assertions fail on a prefix of a genotype string fails them on the
    * whole string: its abbreviations only grow in number.
    */
  lemma SlotsAssertedPrefix(g: Gene, dominant: Option<Allele>, s: string, i: nat)
    requires i <= |s|
    ensures SlotsAsserted(g, dominant, s) ==> SlotsAsserted(g, dominant, s[..i])
  {
    MatchingPrefix(g, s, i);
  }

  /** One character of the genotype string offered to one gene's pair: the pair moves
    * to the slots of the longer prefix, or the assertions fail for the whole string.
    */
  method OfferCharacter(s: string, i: nat, g: Gene, dominant: Option<Allele>, pair: AllelesPair, assertionsOn: bool)
    returns (ok: bool)
    requires i < |s|
    requires (pair.fatherAllele, pair.motherAllele) == Slots(g, dominant, s[..i])
    requires assertionsOn ==> SlotsAsserted(g, dominant, s[..i])
    modifies pair
    ensures ok ==> (pair.fatherAllele, pair.motherAllele) == Slots(g, dominant, s[..i + 1])
    ensures ok ==> (assertionsOn ==> SlotsAsserted(g, dominant, s[..i + 1]))
    ensures !ok ==> assertionsOn && !SlotsAsserted(g, dominant, s)
  {
    SlotsStep(g, dominant, s, i);
    ok := AbbreviationToAllele(s[i], g, dominant, pair, assertionsOn);
    if !ok {
      SlotsAssertedPrefix(g, dominant, s, i + 1);
    }
  }

  /** `createBunnyVariety`: every character of the genotype string is offered to the fur,
    * ears and teeth pairs in turn; empty slots then default to the normal allele.
    */
  method CreateBunnyVariety(d: Dominance, count: nat, genotypeString: string, assertionsOn: bool)
    returns (r: Option<BunnyVariety>)
    requires count >= 1
    ensures r.Some? <==> !assertionsOn || VarietyAsserted(d, genotypeString)
    ensures r.Some? ==> r.value == VarietyOf(d, count, genotypeString)
  {
    var s := genotypeString;
    var furPair := new AllelesPair();
    var earsPair := new AllelesPair();
    var teethPair := new AllelesPair();
    var i := 0;
    while i < |s|
      invariant 0 <= i <= |s|
      invariant (furPair.fatherAllele, furPair.motherAllele) == Slots(Fur, d.fur.value, s[..i])
      invariant (earsPair.fatherAllele, earsPair.motherAllele) == Slots(Ears, d.ears.value, s[..i])
      invariant (teethPair.fatherAllele, teethPair.motherAllele) == Slots(Teeth, d.teeth.value, s[..i])
      invariant assertionsOn ==> VarietyAsserted(d, s[..i])
    {
      var ok := OfferCharacter(s, i, Fur, d.fur.value, furPair, assertionsOn);
      if ok {
        ok := OfferCharacter(s, i, Ears, d.ears.value, earsPair, assertionsOn);
      }
      if ok {
        ok := OfferCharacter(s, i, Teeth, d.teeth.value, teethPair, assertionsOn);
      }
      if !ok {
        return None;
      }
      i := i + 1;
    }
    assert s[..i] == s;
    r := Some(BunnyVariety(count, s, GenePairs(
      GenePair(OrNormal(furPair.fatherAllele, Fur), OrNormal(furPair.motherAllele, Fur)),
      GenePair(OrNormal(earsPair.fatherAllele, Ears), OrNormal(earsPair.motherAllele, Ears)),
      GenePair(OrNormal(teethPair.fatherAllele, Teeth), OrNormal(teethPair.motherAllele, Teeth)))));
  }

  //--------------------------------------------------------------------------------
  // Populations
  //--------------------------------------------------------------------------------

  /** The sum of the counts of the first `k` expressions. */
  function RunningTotal(populationValue: seq<string>, k: nat): nat
    requires k <= |populationValue|
  {
    if k == 0 then 0 else RunningTotal(populationValue, k - 1) + CountOf(CountString(populationValue[k - 1]))
  }

  /** An expression passes every check of the loop when the expressions before it add
    * up to `totalBefore`.
    */
  predicate ExpressionAccepted(d: Dominance, mutationChars: seq<char>, e: string, totalBefore: nat,
                               maxPopulation: int, assertionsOn: bool)
  {
    FirstLetterIndex(e) != -1
    && IsCount(CountString(e))
    && totalBefore + CountOf(CountString(e)) < maxPopulation
    && |GenotypeString(e)| == 2 * |mutationChars|
    && (assertionsOn ==> GenotypeChecked(mutationChars, GenotypeString(e)))
    && (assertionsOn ==> VarietyAsserted(d, GenotypeString(e)))
  }

  /** The `i`-th expression passes every check of the loop. */
  predicate ExpressionValid(d: Dominance, mutationChars: seq<char>, populationValue: seq<string>, i: nat,
                            maxPopulation: int, assertionsOn: bool)
    requires i < |populationValue|
  {
    ExpressionAccepted(d, mutationChars, populationValue[i], RunningTotal(populationValue, i), maxPopulation, assertionsOn)
  }

  /** The first `k` expressions all pass every check of the loop. */
  predicate PrefixValid(d: Dominance, mutationChars: seq<char>, populationValue: seq<string>, k: nat,
                        maxPopulation: int, assertionsOn: bool)
    requires k <= |populationValue|
  {
    k == 0
    || (PrefixValid(d, mutationChars, populationValue, k - 1, maxPopulation, assertionsOn)
        && ExpressionValid(d, mutationChars, populationValue, k - 1, maxPopulation, assertionsOn))
  }

  /** A valid prefix is one whose every expression is valid. */
  lemma {:induction false} PrefixValidIff(d: Dominance, mutationChars: seq<char>, populationValue: seq<string>,
                                          k: nat, maxPopulation: int, assertionsOn: bool)
    requires k <= |populationValue|
    ensures PrefixValid(d, mutationChars, populationValue, k, maxPopulation, assertionsOn)
      <==> forall j :: 0 <= j < k ==> ExpressionValid(d, mutationChars, populationValue, j, maxPopulation, assertionsOn)
    decreases k
  {
    if k > 0 {
      PrefixValidIff(d, mutationChars, populationValue, k - 1, maxPopulation, assertionsOn);
    }
  }

  /** An invalid expression makes every prefix that contains it invalid. */
  lemma {:induction false} PrefixValidAt(d: Dominance, mutationChars: seq<char>, populationValue: seq<string>,
                                         k: nat, j: nat, maxPopulation: int, assertionsOn: bool)
    requires j < k <= |populationValue|
    ensures PrefixValid(d, mutationChars, populationValue, k, maxPopulation, assertionsOn)
      ==> ExpressionValid(d, mutationChars, populationValue, j, maxPopulation, assertionsOn)
    decreases k
  {
    if j < k - 1 {
      PrefixValidAt(d, mutationChars, populationValue, k - 1, j, maxPopulation, assertionsOn);
    }
  }

  /** A population value is accepted: without mutations a single positive integer;
    * with mutations at least one expression, every expression valid and a positive
    * total.
    */
  predicate PopulationValid(d: Dominance, mutationChars: seq<char>, populationValue: seq<string>,
                            maxPopulation: int, assertionsOn: bool)
  {
    if |mutationChars| == 0 then
      |populationValue| == 1 && IsCount(populationValue[0])
    else
      |populationValue| > 0
      && (forall i :: 0 <= i < |populationValue| ==>
            ExpressionValid(d, mutationChars, populationValue, i, maxPopulation, assertionsOn))
      && RunningTotal(populationValue, |populationValue|) > 0
  }

  /** The variety one accepted expression describes. */
  function ExpressionVariety(d: Dominance, e: string): BunnyVariety
  {
    VarietyOf(d, CountOf(CountString(e)), GenotypeString(e))
  }

  /** The varieties of the first `k` expressions. */
  function VarietiesUpTo(d: Dominance, populationValue: seq<string>, k: nat): (vs: seq<BunnyVariety>)
    requires k <= |populationValue|
    ensures |vs| == k
  {
    if k == 0 then [] else VarietiesUpTo(d, populationValue, k - 1) + [ExpressionVariety(d, populationValue[k - 1])]
  }

  /** The `i`-th variety is the variety of the `i`-th expression. */
  lemma {:induction false} VarietiesAt(d: Dominance, populationValue: seq<string>, k: nat, i: nat)
    requires i < k <= |populationValue|
    ensures VarietiesUpTo(d, populationValue, k)[i] == ExpressionVariety(d, populationValue[i])
    decreases k
  {
    if i < k - 1 {
      VarietiesAt(d, populationValue, k - 1, i);
    }
  }

  /** The varieties an accepted population value describes, one per expression. */
  function Varieties(d: Dominance, mutationChars: seq<char>, populationValue: seq<string>): seq<BunnyVariety>
  {
    if |mutationChars| == 0 then
      if |populationValue| == 1 then [VarietyOf(d, CountOf(populationValue[0]), "")] else []
    else VarietiesUpTo(d, populationValue, |populationValue|)
  }

  /** One iteration of the loop of `parsePopulation`: splits the expression at its first
    * letter, checks the count, the running total and the genotype, and builds the
    * variety.
    */
  method ParseExpression(d: Dominance, mutationChars: seq<char>, expression: string, totalBefore: nat,
                         maxPopulation: int, assertionsOn: bool)
    returns (r: Result<BunnyVariety, ParseError>)
    ensures r.Ok? <==> ExpressionAccepted(d, mutationChars, expression, totalBefore, maxPopulation, assertionsOn)
    ensures r.Ok? ==> r.value == ExpressionVariety(d, expression)
  {
    var firstLetterIndex := FirstLetterIndex(expression);
    var check := Verify(firstLetterIndex != -1, MissingGenotype);
    if check.Err? {
      return Err(check.error);
    }
    var countString := expression[..firstLetterIndex];
    var genotypeString := expression[firstLetterIndex..];
    SplitAtFirstLetter(expression);
    check := Verify(IsPositiveInteger(CountValue(countString)), CountNotAPositiveInteger);
    CountValuePositive(countString);
    if check.Err? {
      return Err(check.error);
    }
    var count := CountOf(countString);
    var totalCount := totalBefore + count;
    check := Verify(totalCount < maxPopulation, PopulationTooLarge);
    if check.Err? {
      return Err(check.error);
    }
    check := Verify(|genotypeString| == 2 * |mutationChars|, InvalidGenotype);
    if check.Err? {
      return Err(check.error);
    }
    if assertionsOn {
      check := Verify(GenotypeChecked(mutationChars, genotypeString), InvalidGenotype);
      if check.Err? {
        return Err(check.error);
      }
    }
    var v := CreateBunnyVariety(d, count, genotypeString, assertionsOn);
    if v.None? {
      return Err(AssertionFailed);
    }
    r := Ok(v.value);
  }

  /** The loop of `parsePopulation` over the expressions, stopping at the first
    * expression that fails a check; also yields the total count.
    */
  method ParseExpressions(d: Dominance, mutationChars: seq<char>, populationValue: seq<string>,
                          maxPopulation: int, assertionsOn: bool)
    returns (r: Result<seq<BunnyVariety>, ParseError>, totalCount: nat)
    ensures r.Ok? <==> forall j :: 0 <= j < |populationValue| ==>
      ExpressionValid(d, mutationChars, populationValue, j, maxPopulation, assertionsOn)
    ensures r.Ok? ==> (r.value == VarietiesUpTo(d, populationValue, |populationValue|)
      && totalCount == RunningTotal(populationValue, |populationValue|))
  {
    var initialPopulation: seq<BunnyVariety> := [];
    totalCount := 0;
    var i := 0;
    while i < |populationValue|
      invariant 0 <= i <= |populationValue|
      invariant totalCount == RunningTotal(populationValue, i)
      invariant initialPopulation == VarietiesUpTo(d, populationValue, i)
      invariant PrefixValid(d, mutationChars, populationValue, i, maxPopulation, assertionsOn)
    {
      var v := ParseExpression(d, mutationChars, populationValue[i], totalCount, maxPopulation, assertionsOn);
      if v.Err? {
        assert !ExpressionValid(d, mutationChars, populationValue, i, maxPopulation, assertionsOn);
        PrefixValidAt(d, mutationChars, populationValue, |populationValue|, i, maxPopulation, assertionsOn);
        PrefixValidIff(d, mutationChars, populationValue, |populationValue|, maxPopulation, assertionsOn);
        return Err(v.error), totalCount;
      }
      assert ExpressionValid(d, mutationChars, populationValue, i, maxPopulation, assertionsOn);
      initialPopulation := initialPopulation + [v.value];
      totalCount := totalCount + v.value.count;
      i := i + 1;
    }
    PrefixValidIff(d, mutationChars, populationValue, |populationValue|, maxPopulation, assertionsOn);
    r := Ok(initialPopulation);
  }

  /** `parsePopulation`. */
  method ParsePopulation(d: Dominance, mutationChars: seq<char>, populationValue: seq<string>,
                         maxPopulation: int, assertionsOn: bool)
    returns (r: Result<seq<BunnyVariety>, ParseError>)
    ensures r.Ok? <==> PopulationValid(d, mutationChars, populationValue, maxPopulation, assertionsOn)
    ensures r.Ok? ==> r.value == Varieties(d, mutationChars, populationValue)
  {
    var initialPopulation: seq<BunnyVariety> := [];
    if |mutationChars| == 0 {
      var check := Verify(|populationValue| == 1, NotAPositiveInteger);
      if check.Err? {
        return Err(check.error);
      }
      var countString := populationValue[0];
      check := Verify(IsPositiveInteger(CountValue(countString)), NotAPositiveInteger);
      CountValuePositive(countString);
      if check.Err? {
        return Err(check.error);
      }
      var count := CountOf(countString);
      var v := CreateBunnyVariety(d, count, "", assertionsOn);
      if v.None? {
        return Err(AssertionFailed);
      }
      r := Ok(initialPopulation + [v.value]);
    } else {
      var check := Verify(|populationValue| > 0, ValueRequired);
      if check.Err? {
        return Err(check.error);
      }
      var varieties, totalCount := ParseExpressions(d, mutationChars, populationValue, maxPopulation, assertionsOn);
      if varieties.Err? {
        return Err(varieties.error);
      }
      initialPopulation := varieties.value;
      check := Verify(totalCount > 0, TotalNotPositive);
      if check.Err? {
        return Err(check.error);
      }
      r := Ok(initialPopulation);
    }
  }

  /** Running totals never decrease. */
  lemma {:induction false} RunningTotalMonotone(populationValue: seq<string>, i: nat, j: nat)
    requires i <= j <= |populationValue|
    ensures RunningTotal(populationValue, i) <= RunningTotal(populationValue, j)
    decreases j - i
  {
    if i < j {
      RunningTotalMonotone(populationValue, i, j - 1);
    }
  }

  /** Checking the running total after every expression is the same as checking the
    * final total once.
    */
  lemma RunningTotalBelowMax(populationValue: seq<string>, maxPopulation: int)
    requires |populationValue| > 0
    ensures (forall k :: 1 <= k <= |populationValue| ==> RunningTotal(populationValue, k) < maxPopulation)
      <==> RunningTotal(populationValue, |populationValue|) < maxPopulation
  {
    if RunningTotal(populationValue, |populationValue|) < maxPopulation {
      forall k | 1 <= k <= |populationValue|
        ensures RunningTotal(populationValue, k) < maxPopulation
      {
        RunningTotalMonotone(populationValue, k, |populationValue|);
      }
    }
  }

  /** The final "total must be > 0" check never fails once every expression has a
    * positive count.
    */
  lemma {:induction false} TotalPositive(populationValue: seq<string>)
    requires |populationValue| > 0
    requires forall i :: 0 <= i < |populationValue| ==> IsCount(CountString(populationValue[i]))
    ensures RunningTotal(populationValue, |populationValue|) >= |populationValue|
    decreases |populationValue|
  {
    var n := |populationValue|;
    if n > 1 {
      TotalPositive(populationValue[..n - 1]);
      RunningTotalPrefix(populationValue, n - 1);
    }
  }

  /** The running total of a prefix does not look past the prefix. */
  lemma {:induction false} RunningTotalPrefix(populationValue: seq<string>, k: nat)
    requires k <= |populationValue|
    ensures RunningTotal(populationValue[..k], k) == RunningTotal(populationValue, k)
    decreases k
  {
    if k > 0 {
      var p := populationValue[..k];
      assert p[..k - 1] == populationValue[..k - 1];
      RunningTotalPrefix(populationValue, k - 1);
      RunningTotalPrefix(p, k - 1);
    }
  }

  /** Every accepted population starts at least one bunny per variety, and each variety's
    * genotype string is exactly twice as long as the mutations value.
    */
  lemma AcceptedPopulation(d: Dominance, mutationChars: seq<char>, populationValue: seq<string>,
                           maxPopulation: int, assertionsOn: bool, i: nat)
    requires PopulationValid(d, mutationChars, populationValue, maxPopulation, assertionsOn)
    requires |mutationChars| > 0 && i < |populationValue|
    ensures Varieties(d, mutationChars, populationValue)[i].count >= 1
    ensures |Varieties(d, mutationChars, populationValue)[i].genotypeString| == 2 * |mutationChars|
    ensures RunningTotal(populationValue, |populationValue|) < maxPopulation
  {
    VarietiesAt(d, populationValue, |populationValue|, i);
    assert ExpressionValid(d, mutationChars, populationValue, i, maxPopulation, assertionsOn);
    assert ExpressionValid(d, mutationChars, populationValue, |populationValue| - 1, maxPopulation, assertionsOn);
  }

  //--------------------------------------------------------------------------------
  // The whole parse
  //--------------------------------------------------------------------------------

  /** `parseInitialPopulation`: parses the given values; on any error, every gene's
    * dominant allele is reset to null and the default values are parsed instead (an
    * error there is not caught).
    */
  method ParseInitialPopulation(d: Dominance, mutationsValue: string, populationValue: seq<string>,
                                defaultMutations: string, defaultPopulation: seq<string>,
                                maxPopulation: int, assertionsOn: bool)
    returns (r: Result<seq<BunnyVariety>, ParseError>, after: Dominance)
    ensures var d1 := ApplyMutations(d, mutationsValue);
      MutationsValid(mutationsValue) && PopulationValid(d1, mutationsValue, populationValue, maxPopulation, assertionsOn)
      ==> r == Ok(Varieties(d1, mutationsValue, populationValue)) && after == d1
    ensures var d1 := ApplyMutations(d, mutationsValue);
      var d2 := ApplyMutations(NoDominance, defaultMutations);
      !(MutationsValid(mutationsValue) && PopulationValid(d1, mutationsValue, populationValue, maxPopulation, assertionsOn))
      ==> (r.Ok? <==> MutationsValid(defaultMutations)
                      && PopulationValid(d2, defaultMutations, defaultPopulation, maxPopulation, assertionsOn))
          && (r.Ok? ==> r.value == Varieties(d2, defaultMutations, defaultPopulation) && after == d2)
  {
    var chars, d1 := ParseMutations(d, mutationsValue);
    if chars.Ok? {
      r := ParsePopulation(d1, chars.value, populationValue, maxPopulation, assertionsOn);
      if r.Ok? {
        after := d1;
        return;
      }
    }
    var reset := NoDominance;
    var defaultChars, d2 := ParseMutations(reset, defaultMutations);
    after := d2;
    if defaultChars.Err? {
      r := Err(defaultChars.error);
      return;
    }
    r := ParsePopulation(d2, defaultChars.value, defaultPopulation, maxPopulation, assertionsOn);
  }

  /** After a rejected value, a gene the default mutations do not name has no dominant
    * allele, whatever the rejected value had configured.
    */
  lemma ResetForgetsRejected(defaultMutations: string, g: Gene)
    requires MutationsValid(defaultMutations)
    requires DominantAbbreviation(g) !in defaultMutations
    requires RecessiveAbbreviation(g) !in defaultMutations
    ensures ApplyMutations(NoDominance, defaultMutations).Get(g) == DominantAlleleProperty(None, None)
  {
  }
}
