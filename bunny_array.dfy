/** BunnyArray: an array of bunnies that keeps a running count of each phenotype,
  * updated as bunnies are added and removed.
  */
module BunnyArrays {
  import opened Base
  import opened Genetics

  /** A phenotype whose fur, ears and teeth alleles belong to those genes. */
  predicate WellFormed(p: Phenotype)
  {
    GeneOf(p.fur) == Fur && GeneOf(p.ears) == Ears && GeneOf(p.teeth) == Teeth
  }

  /** What the array holds of a bunny: its identity and the phenotype it expresses. */
  datatype BunnyRef = BunnyRef(id: nat, phenotype: Phenotype)

  /** The total number of bunnies and the number expressing each allele. */
  datatype BunnyCounts = BunnyCounts(
    totalCount: int,
    whiteFurCount: int, brownFurCount: int,
    straightEarsCount: int, floppyEarsCount: int,
    shortTeethCount: int, longTeethCount: int)
  {
    /** `BunnyCounts.plus`: one more bunny with phenotype `p`. */
    function Plus(p: Phenotype): (c: BunnyCounts)
      ensures c.totalCount == totalCount + 1
    {
      Add(One(p))
    }

    /** `BunnyCounts.minus`: one fewer bunny with phenotype `p`. */
    function Minus(p: Phenotype): (c: BunnyCounts)
      ensures c.totalCount == totalCount - 1
    {
      Sub(One(p))
    }

    /** Field-wise sum of two counts. */
    function Add(other: BunnyCounts): (c: BunnyCounts)
      ensures c.totalCount == totalCount + other.totalCount
    {
      BunnyCounts(
        totalCount + other.totalCount,
        whiteFurCount + other.whiteFurCount, brownFurCount + other.brownFurCount,
        straightEarsCount + other.straightEarsCount, floppyEarsCount + other.floppyEarsCount,
        shortTeethCount + other.shortTeethCount, longTeethCount + other.longTeethCount)
    }

    /** Field-wise difference of two counts. */
    function Sub(other: BunnyCounts): BunnyCounts
    {
      BunnyCounts(
        totalCount - other.totalCount,
        whiteFurCount - other.whiteFurCount, brownFurCount - other.brownFurCount,
        straightEarsCount - other.straightEarsCount, floppyEarsCount - other.floppyEarsCount,
        shortTeethCount - other.shortTeethCount, longTeethCount - other.longTeethCount)
    }

    /** Every count is non-negative, and each gene's two allele counts add up to the total. */
    predicate Sane()
    {
      whiteFurCount >= 0 && brownFurCount >= 0 && straightEarsCount >= 0
      && floppyEarsCount >= 0 && shortTeethCount >= 0 && longTeethCount >= 0
      && whiteFurCount + brownFurCount == totalCount
      && straightEarsCount + floppyEarsCount == totalCount
      && shortTeethCount + longTeethCount == totalCount
    }
  }

  /** `BunnyCounts.withZero`. */
  const ZeroCounts := BunnyCounts(0, 0, 0, 0, 0, 0, 0)

  /** The counts of a single bunny with phenotype `p`. */
  function One(p: Phenotype): (c: BunnyCounts)
    ensures c.totalCount == 1
  {
    BunnyCounts(1,
      if p.fur == WhiteFur then 1 else 0, if p.fur == BrownFur then 1 else 0,
      if p.ears == StraightEars then 1 else 0, if p.ears == FloppyEars then 1 else 0,
      if p.teeth == ShortTeeth then 1 else 0, if p.teeth == LongTeeth then 1 else 0)
  }

  /** Removing a bunny undoes adding it. */
  lemma PlusMinus(c: BunnyCounts, p: Phenotype)
    ensures c.Plus(p).Minus(p) == c
  {
  }

  lemma ZeroAdd(x: BunnyCounts)
    ensures ZeroCounts.Add(x) == x
  {
  }

  lemma AddZero(x: BunnyCounts)
    ensures x.Add(ZeroCounts) == x
  {
  }

  lemma AddSubMiddle(x: BunnyCounts, y: BunnyCounts, z: BunnyCounts)
    ensures x.Add(y.Add(z)).Sub(y) == x.Add(z)
  {
  }

  lemma AddAssoc(x: BunnyCounts, y: BunnyCounts, z: BunnyCounts)
    ensures x.Add(y).Add(z) == x.Add(y.Add(z))
  {
  }

  /** The sum of sane counts is sane, and so are the counts of one well-formed bunny. */
  lemma SaneAdd(x: BunnyCounts, y: BunnyCounts)
    requires x.Sane() && y.Sane()
    ensures x.Add(y).Sane()
  {
  }

  lemma OneSane(p: Phenotype)
    requires WellFormed(p)
    ensures One(p).Sane()
  {
  }

  /** The counts of a sequence of bunnies, computed from scratch. */
  function CountsOf(s: seq<BunnyRef>): (c: BunnyCounts)
    ensures c.totalCount == |s|
    decreases |s|
  {
    if |s| == 0 then ZeroCounts else One(s[0].phenotype).Add(CountsOf(s[1..]))
  }

  /** The counts of a concatenation are the sum of the counts. */
  lemma {:induction false} CountsOfAppend(a: seq<BunnyRef>, b: seq<BunnyRef>)
    ensures CountsOf(a + b) == CountsOf(a).Add(CountsOf(b))
    decreases |a|
  {
    if |a| == 0 {
      assert a + b == b;
      ZeroAdd(CountsOf(b));
    } else {
      assert (a + b)[1..] == a[1..] + b;
      assert (a + b)[0] == a[0];
      assert CountsOf(a + b) == One(a[0].phenotype).Add(CountsOf(a[1..] + b));
      CountsOfAppend(a[1..], b);
      AddAssoc(One(a[0].phenotype), CountsOf(a[1..]), CountsOf(b));
      assert CountsOf(a) == One(a[0].phenotype).Add(CountsOf(a[1..]));
    }
  }

  lemma CountsOfSingleton(b: BunnyRef)
    ensures CountsOf([b]) == One(b.phenotype)
  {
    assert [b][1..] == [];
    AddZero(One(b.phenotype));
  }

  /** Removing the bunny at `k` takes exactly that bunny's contribution off the counts. */
  lemma CountsOfRemoveAt(s: seq<BunnyRef>, k: nat)
    requires k < |s|
    ensures CountsOf(s[..k] + s[k + 1..]) == CountsOf(s).Minus(s[k].phenotype)
  {
    var rest := [s[k]] + s[k + 1..];
    SplitAt(s, k);
    CountsOfAppend(s[..k], rest);
    CountsOfAppend(s[..k], s[k + 1..]);
    assert CountsOf(rest) == One(s[k].phenotype).Add(CountsOf(s[k + 1..]));
    AddSubMiddle(CountsOf(s[..k]), One(s[k].phenotype), CountsOf(s[k + 1..]));
  }

  /** Counts of well-formed bunnies are sane: no count is negative and each gene's two
    * allele counts add up to the number of bunnies.
    */
  lemma {:induction false} CountsOfSane(s: seq<BunnyRef>)
    requires forall i :: 0 <= i < |s| ==> WellFormed(s[i].phenotype)
    ensures CountsOf(s).Sane()
    decreases |s|
  {
    if |s| > 0 {
      assert forall i :: 0 <= i < |s[1..]| ==> s[1..][i] == s[i + 1];
      CountsOfSane(s[1..]);
      OneSane(s[0].phenotype);
      SaneAdd(One(s[0].phenotype), CountsOf(s[1..]));
    }
  }

  class BunnyArray {
    var elements: seq<BunnyRef>
    var counts: BunnyCounts

    /** The counts are always those of the current elements. */
    ghost predicate Valid()
      reads this
    {
      counts == CountsOf(elements)
    }

    /** A new array is empty with zero counts. */
    constructor ()
      ensures Valid()
      ensures elements == [] && counts == ZeroCounts
    {
      elements := [];
      counts := ZeroCounts;
    }

    /** `push`, followed by the element-added listener. */
    method Push(b: BunnyRef)
      requires Valid()
      modifies this
      ensures Valid()
      ensures elements == old(elements) + [b]
      ensures counts == old(counts).Plus(b.phenotype)
      ensures counts.totalCount == |elements|
    {
      CountsOfAppend(elements, [b]);
      CountsOfSingleton(b);
      elements := elements + [b];
      counts := counts.Plus(b.phenotype);
    }

    /** `remove`: the first occurrence, if any, is spliced out, followed by the
      * element-removed listener; a bunny that is not present changes nothing.
      */
    method Remove(b: BunnyRef)
      requires Valid()
      modifies this
      ensures Valid()
      ensures elements == (if b in old(elements) then SpliceOne(old(elements), IndexOf(old(elements), b)) else old(elements))
      ensures counts == (if b in old(elements) then old(counts).Minus(b.phenotype) else old(counts))
      ensures counts.totalCount == |elements|
    {
      var i := IndexOf(elements, b);
      if i >= 0 {
        assert SpliceOne(elements, i) == elements[..i] + elements[i + 1..];
        CountsOfRemoveAt(elements, i);
        elements := elements[..i] + elements[i + 1..];
        counts := counts.Minus(b.phenotype);
      }
    }
  }
}
