/**
 * The label ranker of the image recogniser: pair every label of the
 * vocabulary with the probability the network gave it, sort the pairs so
 * that probabilities run from high to low, and keep the first five.
 *
 * Probabilities are float32 values in the program but are only ever
 * compared, so they are modelled as reals (a total order; NaN and signed
 * zeros do not occur in the model).
 */
module Recognition {

  type Probability = real

  /** One vocabulary entry paired with the probability the network gave it. */
  datatype Label = Label(name: string, probability: Probability)

  /** The run-time panic raised by re-slicing a slice past its capacity. */
  datatype RuntimeError = SliceBoundsOutOfRange(high: nat, capacity: nat)

  /** What a call gives back: its value, or the panic it raises. */
  datatype Outcome<T> = Ok(value: T) | Panic(error: RuntimeError)

  function Min(a: nat, b: nat): nat
  {
    if a <= b then a else b
  }

  /**
   * The capacity of a slice of Labels grown from nil by n appends, for
   * n below five: append doubles the capacity (1, 2, 4), and the 24-byte
   * Label struct fills those allocations exactly on a 64-bit platform.
   */
  function AppendCapacity(n: nat): (capacity: nat)
    requires n < 5
    ensures n <= capacity < 5
    ensures capacity == n <==> n != 3
  {
    if n <= 2 then n else 4
  }

  // ---------------------------------------------------------------------
  // Specification
  // ---------------------------------------------------------------------

  /**
   * The pairs the ranker builds before sorting: entry i pairs labels[i]
   * with probabilities[i], and the shorter input decides how many there are.
   */
  function Zip(labels: seq<string>, probabilities: seq<Probability>): (pairs: seq<Label>)
    ensures |pairs| == Min(|labels|, |probabilities|)
    ensures forall i :: 0 <= i < |pairs| ==> pairs[i] == Label(labels[i], probabilities[i])
  {
    if |labels| == 0 || |probabilities| == 0 then []
    else [Label(labels[0], probabilities[0])] + Zip(labels[1..], probabilities[1..])
  }

  /** Probabilities never increase from one position to a later one. */
  ghost predicate SortedDescending(s: seq<Label>)
  {
    forall p, q :: 0 <= p < q < |s| ==> s[p].probability >= s[q].probability
  }

  /** `ranked` holds exactly the pairs of `pairs`, highest probability first. */
  ghost predicate IsRanking(pairs: seq<Label>, ranked: seq<Label>)
  {
    SortedDescending(ranked) && multiset(ranked) == multiset(pairs)
  }

  /**
   * `top` is k of the pairs, highest first, and no pair left out has a
   * higher probability than any pair kept.
   */
  ghost predicate IsTopK(pairs: seq<Label>, top: seq<Label>, k: nat)
  {
    && |top| == k
    && SortedDescending(top)
    && multiset(top) <= multiset(pairs)
    && forall x, y :: x in top && y in multiset(pairs) - multiset(top) ==>
         x.probability >= y.probability
  }

  // ---------------------------------------------------------------------
  // The Labels sort adapter: Len, Less and Swap over the slice of pairs
  // ---------------------------------------------------------------------

  /** The number of pairs in the slice. */
  function Len(a: array<Label>): (n: int)
    reads a
    ensures n == |a[..]|
  {
    a.Length
  }

  /** Whether pair i must come before pair j: its probability is higher. */
  function Less(a: array<Label>, i: int, j: int): (less: bool)
    reads a
    requires 0 <= i < a.Length && 0 <= j < a.Length
    ensures i == j ==> !less
  {
    a[i].probability > a[j].probability
  }

  /** Exchanges pairs i and j and leaves every other position alone. */
  method Swap(a: array<Label>, i: int, j: int)
    requires 0 <= i < a.Length && 0 <= j < a.Length
    modifies a
    ensures a[..] == old(a[..])[i := old(a[j])][j := old(a[i])]
    ensures multiset(a[..]) == multiset(old(a[..]))
  {
    a[i], a[j] := a[j], a[i];
  }

  /**
   * Less is the strict weak order that sorting asks of it: irreflexive,
   * asymmetric, transitive, and with transitive incomparability (ties).
   */
  lemma LessIsStrictWeakOrder(a: array<Label>, i: int, j: int, k: int)
    requires 0 <= i < a.Length && 0 <= j < a.Length && 0 <= k < a.Length
    ensures !Less(a, i, i)
    ensures Less(a, i, j) ==> !Less(a, j, i)
    ensures Less(a, i, j) && Less(a, j, k) ==> Less(a, i, k)
    ensures !Less(a, i, j) && !Less(a, j, i) && !Less(a, j, k) && !Less(a, k, j) ==>
              !Less(a, i, k) && !Less(a, k, i)
  {
  }

  /**
   * Sorts the slice in place through Len, Less and Swap, as the standard
   * library's insertion sort does: each new pair is swapped leftwards while
   * it is Less than its left neighbour. Promises nothing about the order
   * of pairs with equal probabilities.
   */
  method Sort(a: array<Label>)
    modifies a
    ensures SortedDescending(a[..])
    ensures multiset(a[..]) == multiset(old(a[..]))
  {
    var n := Len(a);
    var i := 0;
    while i < n
      invariant 0 <= i <= n
      invariant forall p, q :: 0 <= p < q < i ==> a[p].probability >= a[q].probability
      invariant multiset(a[..]) == multiset(old(a[..]))
    {
      var j := i;
      while j > 0 && Less(a, j, j - 1)
        invariant 0 <= j <= i
        invariant forall p, q :: 0 <= p < q <= i && q != j ==> a[p].probability >= a[q].probability
        invariant 0 < j < i ==> a[j - 1].probability >= a[j + 1].probability
        invariant multiset(a[..]) == multiset(old(a[..]))
      {
        Swap(a, j, j - 1);
        j := j - 1;
      }
      i := i + 1;
    }
  }

  // ---------------------------------------------------------------------
  // getTopFiveLabels
  // ---------------------------------------------------------------------

  /**
   * The loop that walks the probabilities in index order and appends
   * (labels[i], probabilities[i]), stopping at the first index past the
   * end of the labels.
   */
  method PairLabels(labels: seq<string>, probabilities: seq<Probability>) returns (pairs: seq<Label>)
    ensures pairs == Zip(labels, probabilities)
  {
    pairs := [];
    var i := 0;
    while i < |probabilities|
      invariant 0 <= i <= |probabilities| && i <= |labels|
      invariant |pairs| == i
      invariant forall k :: 0 <= k < i ==> pairs[k] == Label(labels[k], probabilities[k])
    {
      if i >= |labels| {
        break;
      }
      pairs := pairs + [Label(labels[i], probabilities[i])];
      i := i + 1;
    }
  }

  /**
   * Pairs the labels with the probabilities, sorts the pairs from the
   * highest probability down and returns the first five; with fewer than
   * five pairs the re-slice panics. `ranked` is the sorted slice the five
   * are cut from.
   */
  method GetTopFiveLabels(labels: seq<string>, probabilities: seq<Probability>)
    returns (result: Outcome<seq<Label>>, ghost ranked: seq<Label>)
    ensures result.Ok? <==> 5 <= Min(|labels|, |probabilities|)
    ensures result.Panic? ==>
              result.error == SliceBoundsOutOfRange(5, AppendCapacity(Min(|labels|, |probabilities|)))
    ensures IsRanking(Zip(labels, probabilities), ranked)
    ensures |ranked| == Min(|labels|, |probabilities|)
    ensures result.Ok? ==> result.value == ranked[..5]
    ensures result.Ok? ==> IsTopK(Zip(labels, probabilities), result.value, 5)
  {
    var pairs := PairLabels(labels, probabilities);
    var a := new Label[|pairs|](k requires 0 <= k < |pairs| => pairs[k]);
    assert a[..] == pairs;
    Sort(a);
    ranked := a[..];
    assert IsRanking(pairs, ranked);
    if Len(a) < 5 {
      return Panic(SliceBoundsOutOfRange(5, AppendCapacity(Len(a)))), ranked;
    }
    RankingPrefixIsTopK(pairs, ranked, 5);
    result := Ok(a[..5]);
  }

  // ---------------------------------------------------------------------
  // Properties of the ranking
  // ---------------------------------------------------------------------

  /** The first k pairs of a ranking are a top-k selection of its pairs. */
  lemma RankingPrefixIsTopK(pairs: seq<Label>, ranked: seq<Label>, k: nat)
    requires IsRanking(pairs, ranked)
    requires k <= |ranked|
    ensures IsTopK(pairs, ranked[..k], k)
  {
    var top, rest := ranked[..k], ranked[k..];
    assert ranked == top + rest;
    assert multiset(pairs) == multiset(top) + multiset(rest);
    forall x, y | x in top && y in multiset(pairs) - multiset(top)
      ensures x.probability >= y.probability
    {
      assert y in rest;
      var p :| 0 <= p < k && top[p] == x;
      var q :| 0 <= q < |rest| && rest[q] == y;
      assert ranked[p] == x && ranked[k + q] == y;
    }
  }

  /** Every pair drawn from the zipped inputs pairs a label with the probability of the same index. */
  lemma TopPairsComeFromInputs(labels: seq<string>, probabilities: seq<Probability>, top: seq<Label>)
    requires multiset(top) <= multiset(Zip(labels, probabilities))
    ensures forall x :: x in top ==>
              exists i :: 0 <= i < Min(|labels|, |probabilities|) && x == Label(labels[i], probabilities[i])
  {
    var pairs := Zip(labels, probabilities);
    forall x | x in top
      ensures exists i :: 0 <= i < Min(|labels|, |probabilities|) && x == Label(labels[i], probabilities[i])
    {
      assert x in multiset(top);
      assert x in pairs;
      var i :| 0 <= i < |pairs| && pairs[i] == x;
    }
  }

  /** Dropping one pair from a descending order leaves a descending order. */
  lemma RemovalKeepsOrder(t: seq<Label>, k: nat)
    requires SortedDescending(t) && k < |t|
    ensures SortedDescending(t[..k] + t[k + 1..])
  {
    var t' := t[..k] + t[k + 1..];
    forall p, q | 0 <= p < q < |t'| ensures t'[p].probability >= t'[q].probability {
      var p' := if p < k then p else p + 1;
      var q' := if q < k then q else q + 1;
      assert t'[p] == t[p'] && t'[q] == t[q'];
    }
  }

  /** Dropping the pair at k takes exactly one copy of it out of the multiset. */
  lemma RemovalMultiset(t: seq<Label>, k: nat)
    requires k < |t|
    ensures multiset(t[..k] + t[k + 1..]) == multiset(t) - multiset{t[k]}
  {
    assert t == t[..k] + [t[k]] + t[k + 1..];
    assert multiset(t) == multiset(t[..k]) + multiset{t[k]} + multiset(t[k + 1..]);
  }

  /**
   * In a descending order whose first k + 1 pairs share one probability,
   * dropping the pair at k leaves the same probabilities as dropping the
   * first pair.
   */
  lemma RemovalInTopRun(t: seq<Label>, k: nat)
    requires SortedDescending(t) && k < |t|
    requires t[k].probability == t[0].probability
    ensures forall i :: 0 <= i < |t| - 1 ==>
              (t[..k] + t[k + 1..])[i].probability == t[1..][i].probability
  {
    var t' := t[..k] + t[k + 1..];
    forall i | 0 <= i < |t| - 1 ensures t'[i].probability == t[1..][i].probability {
      if i < k {
        assert t[0].probability >= t[i].probability >= t[i + 1].probability >= t[k].probability;
        assert t'[i] == t[i];
      } else {
        assert t'[i] == t[i + 1];
      }
    }
  }

  /**
   * The first pair of one descending order occurs in another descending
   * order of the same pairs, at a position holding the top probability.
   */
  lemma LeadingPairFound(s: seq<Label>, t: seq<Label>) returns (k: nat)
    requires SortedDescending(s) && SortedDescending(t)
    requires multiset(s) == multiset(t) && 0 < |s|
    ensures k < |t| && t[k] == s[0]
    ensures t[k].probability == t[0].probability
  {
    assert s[0] in multiset(t);
    k :| 0 <= k < |t| && t[k] == s[0];
    assert t[0] in multiset(s);
    var m :| 0 <= m < |s| && s[m] == t[0];
    assert s[0].probability >= s[m].probability;
  }

  /**
   * Two descending orders of the same pairs agree on the probability at
   * every position: the ranking is unique up to the order of ties.
   */
  lemma {:induction false} RankingsAgreeOnProbabilities(s: seq<Label>, t: seq<Label>)
    requires SortedDescending(s) && SortedDescending(t)
    requires multiset(s) == multiset(t)
    ensures |s| == |t|
    ensures forall i :: 0 <= i < |s| ==> s[i].probability == t[i].probability
  {
    assert |s| == |multiset(s)| == |multiset(t)| == |t|;
    if |s| > 0 {
      var k := LeadingPairFound(s, t);
      RestHoldSamePairs(s, t, k);
      RemovalKeepsOrder(s, 0);
      assert s[..0] + s[1..] == s[1..];
      RemovalKeepsOrder(t, k);
      RankingsAgreeOnProbabilities(s[1..], t[..k] + t[k + 1..]);
      AgreementExtends(s, t, k);
    }
  }

  /** Taking the same pair out of two sequences with equal multisets leaves equal multisets. */
  lemma RestHoldSamePairs(s: seq<Label>, t: seq<Label>, k: nat)
    requires multiset(s) == multiset(t) && 0 < |s|
    requires k < |t| && t[k] == s[0]
    ensures multiset(s[1..]) == multiset(t[..k] + t[k + 1..])
  {
    RemovalMultiset(t, k);
    RemovalMultiset(s, 0);
    assert s[..0] + s[1..] == s[1..];
  }

  /** Agreement of what is left extends to agreement of the whole orders. */
  lemma AgreementExtends(s: seq<Label>, t: seq<Label>, k: nat)
    requires SortedDescending(t) && 0 < |s| == |t|
    requires k < |t| && t[k] == s[0] && t[k].probability == t[0].probability
    requires forall i :: 0 <= i < |s| - 1 ==>
               s[1..][i].probability == (t[..k] + t[k + 1..])[i].probability
    ensures forall i :: 0 <= i < |s| ==> s[i].probability == t[i].probability
  {
    var t' := t[..k] + t[k + 1..];
    RemovalInTopRun(t, k);
    forall i | 0 < i < |s| ensures s[i].probability == t[i].probability {
      assert s[1..][i - 1] == s[i] && t[1..][i - 1] == t[i];
      assert s[1..][i - 1].probability == t'[i - 1].probability == t[1..][i - 1].probability;
    }
  }

  /** Any two rankings of the same pairs put the same probabilities in the top five. */
  lemma TopFiveDeterminedUpToTies(pairs: seq<Label>, ranked1: seq<Label>, ranked2: seq<Label>)
    requires IsRanking(pairs, ranked1) && IsRanking(pairs, ranked2)
    requires 5 <= |pairs|
    ensures |ranked1| == |ranked2| == |pairs|
    ensures forall i :: 0 <= i < 5 ==> ranked1[i].probability == ranked2[i].probability
  {
    assert |ranked1| == |multiset(pairs)| == |pairs|;
    RankingsAgreeOnProbabilities(ranked1, ranked2);
  }

  /** The worked example: three labels and three probabilities pair up by index. */
  lemma ThreeLabelPairs()
    ensures Zip(["cat", "dog", "car"], [0.1, 0.9, 0.05])
         == [Label("cat", 0.1), Label("dog", 0.9), Label("car", 0.05)]
  {
    var labels, probabilities := ["cat", "dog", "car"], [0.1, 0.9, 0.05];
    assert labels[1..] == ["dog", "car"] && probabilities[1..] == [0.9, 0.05];
    assert labels[2..] == ["car"] && probabilities[2..] == [0.05];
  }

  /** The worked example's pairs rank dog, cat, car. */
  lemma ThreeLabelRanking()
    ensures IsRanking([Label("cat", 0.1), Label("dog", 0.9), Label("car", 0.05)],
                      [Label("dog", 0.9), Label("cat", 0.1), Label("car", 0.05)])
  {
    var cat, dog, car := Label("cat", 0.1), Label("dog", 0.9), Label("car", 0.05);
    assert [cat, dog, car] == [cat] + [dog] + [car];
    assert [dog, cat, car] == [dog] + [cat] + [car];
  }
}
