/** CompareBestCards of PokerHandEvaluator.cs: two best-card lists compared
    position by position on Value (not HighValue), the first difference
    deciding. The loop runs over the first list and indexes the second, so a
    second list that runs out first throws ArgumentOutOfRangeException. */
module CardComparison {
  import opened Outcomes
  import opened Cards

  /** The two lists agree on Value at the first n positions. */
  predicate SamePrefix(a: seq<PlayingCard>, b: seq<PlayingCard>, n: int)
    requires 0 <= n <= |a| && n <= |b|
  {
    forall k :: 0 <= k < n ==> a[k].value == b[k].value
  }

  /** What the loop of CompareBestCards returns, by recursion on the
      positions still to be compared. */
  function CompareValues(a: seq<PlayingCard>, b: seq<PlayingCard>): Result<int> {
    if |a| == 0 then Ok(0)
    else if |b| == 0 then Err(ArgumentOutOfRange)
    else if a[0].value > b[0].value then Ok(1)
    else if a[0].value < b[0].value then Ok(-1)
    else CompareValues(a[1..], b[1..])
  }

  /** How many leading positions the two lists share in Value. */
  function Mismatch(a: seq<PlayingCard>, b: seq<PlayingCard>): (m: nat)
    ensures m <= |a| && m <= |b|
  {
    if |a| == 0 || |b| == 0 || a[0].value != b[0].value then 0
    else 1 + Mismatch(a[1..], b[1..])
  }

  /** Mismatch is the first position where the lists differ in Value, or
      the end of the shorter list. */
  lemma {:induction false} MismatchMeaning(a: seq<PlayingCard>, b: seq<PlayingCard>)
    ensures SamePrefix(a, b, Mismatch(a, b))
    ensures Mismatch(a, b) < |a| && Mismatch(a, b) < |b| ==>
              a[Mismatch(a, b)].value != b[Mismatch(a, b)].value
    ensures Mismatch(b, a) == Mismatch(a, b)
    decreases |a|
  {
    if |a| > 0 && |b| > 0 && a[0].value == b[0].value {
      var a', b' := a[1..], b[1..];
      MismatchMeaning(a', b');
      var m := Mismatch(a', b');
      forall k | 0 <= k < m + 1 ensures a[k].value == b[k].value {
        if k > 0 {
          assert a[k] == a'[k - 1] && b[k] == b'[k - 1];
        }
      }
      assert a[m + 1..] == a'[m..] && b[m + 1..] == b'[m..];
      if m < |a'| && m < |b'| {
        assert a[m + 1] == a'[m] && b[m + 1] == b'[m];
      }
    }
  }

  /** The comparison is lexicographic on Value: the first position where the
      lists differ decides; with no difference the first list ties when it
      is not the longer one and throws when it is. */
  lemma {:induction false} CompareValuesMeaning(a: seq<PlayingCard>, b: seq<PlayingCard>)
    ensures CompareValues(a, b) ==
              var m := Mismatch(a, b);
              if m == |a| then Ok(0)
              else if m == |b| then Err(ArgumentOutOfRange)
              else if a[m].value > b[m].value then Ok(1)
              else Ok(-1)
    decreases |a|
  {
    MismatchMeaning(a, b);
    if |a| > 0 && |b| > 0 && a[0].value == b[0].value {
      CompareValuesMeaning(a[1..], b[1..]);
      var m := Mismatch(a[1..], b[1..]);
      MismatchMeaning(a[1..], b[1..]);
      if m < |a| - 1 && m < |b| - 1 {
        assert a[m + 1] == a[1..][m] && b[m + 1] == b[1..][m];
      }
    }
  }

  /** A list compares equal to itself. */
  lemma {:induction false} CompareValuesSelf(a: seq<PlayingCard>)
    ensures CompareValues(a, a) == Ok(0)
    decreases |a|
  {
    if |a| > 0 {
      CompareValuesSelf(a[1..]);
    }
  }

  /** Between lists of one length, swapping the lists negates the result. */
  lemma CompareValuesSwap(a: seq<PlayingCard>, b: seq<PlayingCard>)
    requires |a| == |b|
    ensures CompareValues(a, b).Ok? && CompareValues(b, a).Ok?
    ensures CompareValues(b, a).value == -CompareValues(a, b).value
  {
    MismatchMeaning(a, b);
    CompareValuesMeaning(a, b);
    CompareValuesMeaning(b, a);
  }

  /** PokerHandEvaluator.CompareBestCards. */
  method CompareBestCards(bestCards1: seq<PlayingCard>, bestCards2: seq<PlayingCard>) returns (r: Result<int>)
    ensures r == CompareValues(bestCards1, bestCards2)
  {
    for i := 0 to |bestCards1|
      invariant i <= |bestCards2|
      invariant CompareValues(bestCards1, bestCards2) == CompareValues(bestCards1[i..], bestCards2[i..])
    {
      if i >= |bestCards2| {
        return Err(ArgumentOutOfRange);
      }
      assert bestCards1[i..][1..] == bestCards1[i + 1..] && bestCards2[i..][1..] == bestCards2[i + 1..];
      if bestCards1[i].value > bestCards2[i].value {
        return Ok(1);
      } else if bestCards1[i].value < bestCards2[i].value {
        return Ok(-1);
      }
    }
    return Ok(0);
  }
}
