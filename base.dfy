/** Value-level helpers shared by the model: `Option` and `Result` values, the
  * JavaScript array operations the simulation relies on (`indexOf`, `splice` of one
  * element, removal of a set of elements) and a model of random shuffling in which
  * the random draws are supplied by the caller.
  */
module Base {

  datatype Option<+T> = None | Some(value: T)

  datatype Result<+T, +E> = Ok(value: T) | Err(error: E)

  /** No element occurs twice. */
  ghost predicate Distinct<T>(s: seq<T>)
  {
    forall i, j :: 0 <= i < j < |s| ==> s[i] != s[j]
  }

  /** The set of elements of a sequence. */
  ghost function Elements<T>(s: seq<T>): set<T>
  {
    set x | x in s
  }

  //--------------------------------------------------------------------------------
  // Randomness
  //--------------------------------------------------------------------------------

  /** The k-th random draw reduced to [0, n); a missing draw reads as 0. */
  function Draw(draws: seq<nat>, k: nat, n: nat): (r: nat)
    requires n > 0
    ensures r < n
    ensures k < |draws| ==> r == draws[k] % n
  {
    if k < |draws| then draws[k] % n else 0
  }

  /** A shuffle of `s` driven by `draws`: the first draw picks the element that goes
    * first, the rest of the draws shuffle what remains. Whatever the draws, the
    * result is a permutation of `s`.
    */
  function Permute<T>(s: seq<T>, draws: seq<nat>): (r: seq<T>)
    ensures |r| == |s|
    ensures multiset(r) == multiset(s)
    decreases |s|
  {
    if |s| == 0 then []
    else
      var k := Draw(draws, 0, |s|);
      assert s == s[..k] + [s[k]] + s[k + 1..];
      [s[k]] + Permute(s[..k] + s[k + 1..], if |draws| > 0 then draws[1..] else [])
  }

  lemma PermuteMembers<T>(s: seq<T>, draws: seq<nat>, x: T)
    ensures x in Permute(s, draws) <==> x in s
  {
    var r := Permute(s, draws);
    assert x in r <==> x in multiset(r);
    assert x in s <==> x in multiset(s);
  }

  lemma PermuteElements<T>(s: seq<T>, draws: seq<nat>)
    ensures forall x :: x in Permute(s, draws) <==> x in s
  {
    forall x
      ensures x in Permute(s, draws) <==> x in s
    {
      PermuteMembers(s, draws, x);
    }
  }

  /** Removing the element at `k` takes one occurrence of it out of the multiset. */
  lemma MultisetRemoveAt<T>(s: seq<T>, k: nat)
    requires k < |s|
    ensures multiset(s[..k] + s[k + 1..]) == multiset(s) - multiset{s[k]}
  {
    assert s == s[..k] + [s[k]] + s[k + 1..];
    assert multiset(s) == multiset(s[..k]) + multiset([s[k]]) + multiset(s[k + 1..]);
  }

  /** A first draw of `k` puts the element at `k` first. */
  lemma PermuteFirst<T>(s: seq<T>, k: nat, tail: seq<nat>)
    requires k < |s|
    ensures Permute(s, [k] + tail) == [s[k]] + Permute(s[..k] + s[k + 1..], tail)
  {
    var draws := [k] + tail;
    ModSmall(k, |s|);
    assert Draw(draws, 0, |s|) == k;
    assert draws[1..] == tail;
  }

  lemma ModSmall(k: nat, n: nat)
    requires k < n
    ensures k % n == k
  {
  }

  /** Draws under which the shuffle of `s` is the permutation `r`: the first draw is
    * the position in `s` of the element that goes first.
    */
  lemma {:induction false} PermuteDraws<T>(s: seq<T>, r: seq<T>) returns (draws: seq<nat>)
    requires multiset(r) == multiset(s)
    ensures Permute(s, draws) == r
    decreases |s|
  {
    assert |r| == |s| by {
      assert |multiset(r)| == |r| && |multiset(s)| == |s|;
    }
    if |s| == 0 {
      draws := [];
    } else {
      assert r == [r[0]] + r[1..];
      assert r[0] in multiset(r);
      var k: nat :| k < |s| && s[k] == r[0];
      MultisetRemoveAt(s, k);
      MultisetRemoveAt(r, 0);
      assert r[..0] + r[1..] == r[1..];
      var tail := PermuteDraws(s[..k] + s[k + 1..], r[1..]);
      PermuteFirst(s, k, tail);
      draws := [k] + tail;
    }
  }

  /** Every permutation of `s` is the shuffle of `s` for some draws. */
  lemma PermuteReachable<T>(s: seq<T>, r: seq<T>)
    requires multiset(r) == multiset(s)
    ensures exists draws :: Permute(s, draws) == r
  {
    var draws := PermuteDraws(s, r);
    assert Permute(s, draws) == r;
  }

  /** Appending a new element keeps a sequence free of duplicates. */
  lemma DistinctSnoc<T>(s: seq<T>, x: T)
    requires Distinct(s) && x !in s
    ensures Distinct(s + [x])
  {
    var r := s + [x];
    forall i, j | 0 <= i < j < |r| ensures r[i] != r[j] {
      assert r[i] == s[i];
      if j < |s| {
        assert r[j] == s[j];
      }
    }
  }

  /** A prefix of a sequence without duplicates has none, and misses the next element. */
  lemma DistinctPrefix<T>(s: seq<T>, k: nat)
    requires Distinct(s) && k <= |s|
    ensures Distinct(s[..k])
    ensures k < |s| ==> s[k] !in s[..k]
  {
  }

  /** A suffix of a sequence without duplicates has none, and shares no element with
    * the prefix before it.
    */
  lemma DistinctSuffix<T>(s: seq<T>, k: nat)
    requires Distinct(s) && k <= |s|
    ensures Distinct(s[k..])
    ensures forall y :: y in s[..k] ==> y !in s[k..]
  {
    var front, back := s[..k], s[k..];
    forall i, j | 0 <= i < j < |back| ensures back[i] != back[j] {
      assert back[i] == s[i + k] && back[j] == s[j + k];
    }
    forall a, b | 0 <= a < |front| && 0 <= b < |back| ensures front[a] != back[b] {
      assert front[a] == s[a] && back[b] == s[b + k];
    }
  }

  /** Removing one element keeps a sequence without duplicates free of them. */
  lemma DistinctRemoveAt<T>(s: seq<T>, k: nat)
    requires Distinct(s) && k < |s|
    ensures Distinct(s[..k] + s[k + 1..])
    ensures s[k] !in s[..k] + s[k + 1..]
  {
    var t := s[..k] + s[k + 1..];
    forall i, j | 0 <= i < j < |t| ensures t[i] != t[j] {
      var i' := if i < k then i else i + 1;
      var j' := if j < k then j else j + 1;
      assert t[i] == s[i'] && t[j] == s[j'] && i' < j';
    }
    forall i | 0 <= i < |t| ensures t[i] != s[k] {
      var i' := if i < k then i else i + 1;
      assert t[i] == s[i'] && i' != k;
    }
  }

  /** Putting a new element in front keeps a sequence free of duplicates. */
  lemma DistinctCons<T>(x: T, t: seq<T>)
    requires Distinct(t) && x !in t
    ensures Distinct([x] + t)
  {
    var r := [x] + t;
    forall i, j | 0 <= i < j < |r| ensures r[i] != r[j] {
      assert r[j] == t[j - 1];
      if i > 0 {
        assert r[i] == t[i - 1];
      }
    }
  }

  lemma {:induction false} PermuteDistinct<T>(s: seq<T>, draws: seq<nat>)
    requires Distinct(s)
    ensures Distinct(Permute(s, draws))
    decreases |s|
  {
    if |s| > 0 {
      var k := Draw(draws, 0, |s|);
      var rest := s[..k] + s[k + 1..];
      var rdraws := if |draws| > 0 then draws[1..] else [];
      DistinctRemoveAt(s, k);
      PermuteDistinct(rest, rdraws);
      PermuteMembers(rest, rdraws, s[k]);
      DistinctCons(s[k], Permute(rest, rdraws));
    }
  }

  //--------------------------------------------------------------------------------
  // JavaScript array operations
  //--------------------------------------------------------------------------------

  /** A sequence is its prefix before `k`, the element at `k` and the rest. */
  lemma SplitAt<T>(s: seq<T>, k: nat)
    requires k < |s|
    ensures s == s[..k] + ([s[k]] + s[k + 1..])
    ensures ([s[k]] + s[k + 1..])[0] == s[k] && ([s[k]] + s[k + 1..])[1..] == s[k + 1..]
  {
  }

  /** A member of a slice is a member of the sequence. */
  lemma SliceMember<T>(s: seq<T>, lo: nat, hi: nat, x: T)
    requires lo <= hi <= |s|
    ensures x in s[..hi] ==> x in s
    ensures x in s[lo..hi] ==> x in s
  {
    if x in s[lo..hi] {
      var i :| 0 <= i < hi - lo && s[lo..hi][i] == x;
      assert s[lo + i] == x;
    }
    if x in s[..hi] {
      var i :| 0 <= i < hi && s[..hi][i] == x;
      assert s[i] == x;
    }
  }

  /** `s.indexOf(x)`: the first index holding `x`, or -1. */
  function IndexOf<T(==)>(s: seq<T>, x: T): (i: int)
    ensures -1 <= i < |s|
    ensures i == -1 <==> x !in s
    ensures 0 <= i ==> s[i] == x && forall j :: 0 <= j < i ==> s[j] != x
    decreases |s|
  {
    if |s| == 0 then -1
    else if s[0] == x then 0
    else
      var j := IndexOf(s[1..], x);
      if j == -1 then -1 else j + 1
  }

  /** The array left by `s.splice(start, 1)`: the element at `start` removed, a
    * negative `start` counting back from the end (so `splice(-1, 1)` drops the last
    * element), and nothing removed when `start` is past the end.
    */
  function SpliceOne<T>(s: seq<T>, start: int): (r: seq<T>)
  {
    var k := if start >= 0 then start else if |s| + start >= 0 then |s| + start else 0;
    if k < |s| then s[..k] + s[k + 1..] else s
  }

  /** The sequence with every element of `xs` removed, order kept. */
  function Without<T>(s: seq<T>, xs: set<T>): (r: seq<T>)
    ensures |r| <= |s|
    decreases |s|
  {
    if |s| == 0 then [] else (if s[0] in xs then [] else [s[0]]) + Without(s[1..], xs)
  }

  lemma {:induction false} WithoutMembers<T>(s: seq<T>, xs: set<T>, x: T)
    ensures x in Without(s, xs) <==> x in s && x !in xs
    decreases |s|
  {
    if |s| > 0 {
      WithoutMembers(s[1..], xs, x);
      assert s == [s[0]] + s[1..];
    }
  }

  /** The members of `Without(s, xs)`, all at once. */
  lemma WithoutElements<T>(s: seq<T>, xs: set<T>)
    ensures forall x :: x in Without(s, xs) <==> x in s && x !in xs
  {
    forall x
      ensures x in Without(s, xs) <==> x in s && x !in xs
    {
      WithoutMembers(s, xs, x);
    }
  }

  lemma {:induction false} WithoutAppend<T>(a: seq<T>, b: seq<T>, xs: set<T>)
    ensures Without(a + b, xs) == Without(a, xs) + Without(b, xs)
    decreases |a|
  {
    if |a| > 0 {
      assert (a + b)[1..] == a[1..] + b;
      WithoutAppend(a[1..], b, xs);
    } else {
      assert a + b == b;
    }
  }

  /** Removing nothing that occurs changes nothing. */
  lemma {:induction false} WithoutNothing<T>(s: seq<T>, xs: set<T>)
    requires forall x :: x in s ==> x !in xs
    ensures Without(s, xs) == s
    decreases |s|
  {
    if |s| > 0 {
      WithoutNothing(s[1..], xs);
      assert s == [s[0]] + s[1..];
    }
  }

  /** Removing in two steps is removing the union. */
  lemma {:induction false} WithoutWithout<T>(s: seq<T>, xs: set<T>, ys: set<T>)
    ensures Without(Without(s, xs), ys) == Without(s, xs + ys)
    decreases |s|
  {
    if |s| > 0 {
      var head := if s[0] in xs then [] else [s[0]];
      WithoutAppend(head, Without(s[1..], xs), ys);
      WithoutWithout(s[1..], xs, ys);
      if s[0] !in xs {
        assert Without(head, ys) == (if s[0] in ys then [] else [s[0]]) by {
          assert head[1..] == [];
        }
      }
    }
  }

  lemma {:induction false} WithoutDistinct<T>(s: seq<T>, xs: set<T>)
    requires Distinct(s)
    ensures Distinct(Without(s, xs))
    decreases |s|
  {
    if |s| > 0 {
      assert Distinct(s[1..]) by {
        forall i, j | 0 <= i < j < |s[1..]| ensures s[1..][i] != s[1..][j] {
          assert s[1..][i] == s[i + 1] && s[1..][j] == s[j + 1];
        }
      }
      WithoutDistinct(s[1..], xs);
      var t := Without(s[1..], xs);
      WithoutMembers(s[1..], xs, s[0]);
      assert s[0] !in s[1..];
      var r := Without(s, xs);
      if s[0] !in xs {
        assert r == [s[0]] + t;
        forall i, j | 0 <= i < j < |r| ensures r[i] != r[j] {
          if i == 0 {
            assert r[j] == t[j - 1];
          } else {
            assert r[i] == t[i - 1] && r[j] == t[j - 1];
          }
        }
      } else {
        assert r == t;
      }
    }
  }

  /** `splice(indexOf(x), 1)` on a sequence that holds `x` exactly once removes `x` and
    * nothing else: the index it uses never misses.
    */
  lemma {:induction false} SpliceIndexOf<T>(s: seq<T>, x: T)
    requires Distinct(s) && x in s
    ensures IndexOf(s, x) >= 0
    ensures SpliceOne(s, IndexOf(s, x)) == Without(s, {x})
    decreases |s|
  {
    var t := s[1..];
    DistinctSuffix(s, 1);
    assert s[..1] == [s[0]];
    if s[0] == x {
      assert SpliceOne(s, 0) == t;
      WithoutNothing(t, {x});
    } else {
      assert x in t;
      SpliceIndexOf(t, x);
      var k := IndexOf(t, x);
      assert IndexOf(s, x) == k + 1;
      assert SpliceOne(s, k + 1) == [s[0]] + SpliceOne(t, k) by {
        assert s[..k + 1] == [s[0]] + t[..k];
        assert s[k + 2..] == t[k + 1..];
      }
    }
  }

  /** A sequence without duplicates has as many elements as its set of elements. */
  lemma {:induction false} DistinctCardinality<T>(s: seq<T>)
    requires Distinct(s)
    ensures |Elements(s)| == |s|
    decreases |s|
  {
    if |s| > 0 {
      var t := s[1..];
      assert Distinct(t) by {
        forall i, j | 0 <= i < j < |t| ensures t[i] != t[j] {
          assert t[i] == s[i + 1] && t[j] == s[j + 1];
        }
      }
      DistinctCardinality(t);
      assert s[0] !in t;
      assert Elements(s) == Elements(t) + {s[0]} by {
        assert s == [s[0]] + t;
      }
    }
  }
}
