/** The single-matching loop of DetermineTwoPairCards, written over any card
    type: value groups of one card are paired with the first wild card. */
module SingleMatching {
  import opened Sequences

  /** What the loop appends for the given single keys: each single's group
      (its one card) followed by the hand's first wild card
      (hand.Where(IsWild).Take(1)). */
  function MatchedSingles<T>(group: int -> seq<T>, wilds: seq<T>, singles: seq<int>): seq<T> {
    if |singles| == 0 then []
    else
      MatchedSingles(group, wilds, singles[..|singles| - 1]) +
      group(singles[|singles| - 1]) + Take(wilds, 1)
  }

  function Smaller(a: int, b: int): int { if a < b then a else b }

  /** The keys whose group has exactly one card, in order. */
  function SinglesAmong<T>(keys: seq<int>, group: int -> seq<T>): seq<int> {
    if |keys| == 0 then []
    else
      SinglesAmong(keys[..|keys| - 1], group) +
      (if |group(keys[|keys| - 1])| == 1 then [keys[|keys| - 1]] else [])
  }

  /** The singles among leading keys lead the singles among all of them. */
  lemma {:induction false} SinglesPrefix<T>(keys: seq<int>, group: int -> seq<T>, i: int)
    requires 0 <= i <= |keys|
    ensures SinglesAmong(keys[..i], group) <= SinglesAmong(keys, group)
    decreases |keys| - i
  {
    if i < |keys| {
      var n := |keys|;
      SinglesPrefix(keys[..n - 1], group, i);
      assert keys[..n - 1][..i] == keys[..i];
    } else {
      assert keys[..i] == keys;
    }
  }

  /** One more single appends its group and the first wild card. */
  lemma MatchedSinglesSnoc<T>(group: int -> seq<T>, wilds: seq<T>, singles: seq<int>, key: int)
    ensures MatchedSingles(group, wilds, singles + [key]) ==
            MatchedSingles(group, wilds, singles) + group(key) + Take(wilds, 1)
  {
    assert (singles + [key])[..|singles|] == singles;
  }

  /** The first two singles among a prefix of the keys are the first two
      singles among all the keys. */
  lemma FirstTwoSingles<T>(keys: seq<int>, group: int -> seq<T>, i: int)
    requires 0 <= i <= |keys| && |SinglesAmong(keys[..i], group)| >= 2
    ensures |SinglesAmong(keys, group)| >= 2
    ensures SinglesAmong(keys, group)[..2] == SinglesAmong(keys[..i], group)[..2]
  {
    SinglesPrefix(keys, group, i);
    var all := SinglesAmong(keys, group);
    var some := SinglesAmong(keys[..i], group);
    assert all[..|some|] == some;
    assert all[..2] == all[..|some|][..2];
  }

  /** The state of the loop (cards collected, wild cards left) after the
      given keys, had it not stopped at four cards. */
  function Scan<T>(keys: seq<int>, group: int -> seq<T>, wilds: seq<T>): (seq<T>, int) {
    if |keys| == 0 then ([], |wilds|)
    else
      var (cards, wildCount) := Scan(keys[..|keys| - 1], group, wilds);
      var key := keys[|keys| - 1];
      if |group(key)| == 1 && wildCount > 0 then (cards + group(key) + Take(wilds, 1), wildCount - 1)
      else (cards, wildCount)
  }

  lemma ScanStep<T>(keys: seq<int>, group: int -> seq<T>, wilds: seq<T>, i: int)
    requires 0 <= i < |keys|
    ensures Scan(keys[..i + 1], group, wilds) ==
      var (cards, wildCount) := Scan(keys[..i], group, wilds);
      if |group(keys[i])| == 1 && wildCount > 0 then (cards + group(keys[i]) + Take(wilds, 1), wildCount - 1)
      else (cards, wildCount)
  {
    assert keys[..i + 1][..i] == keys[..i];
  }

  /** The scan matches each of the first singles, as many as there are wild
      cards, with the first wild card. */
  lemma {:induction false} ScanMatchesSingles<T>(keys: seq<int>, group: int -> seq<T>, wilds: seq<T>)
    ensures var used := Smaller(|SinglesAmong(keys, group)|, |wilds|);
      Scan(keys, group, wilds) ==
        (MatchedSingles(group, wilds, SinglesAmong(keys, group)[..used]), |wilds| - used) &&
      |Scan(keys, group, wilds).0| == 2 * used
    decreases |keys|
  {
    if |keys| > 0 {
      var n := |keys|;
      var key := keys[n - 1];
      var before := SinglesAmong(keys[..n - 1], group);
      ScanMatchesSingles(keys[..n - 1], group, wilds);
      var used := Smaller(|before|, |wilds|);
      if |group(key)| != 1 {
        assert SinglesAmong(keys, group) == before + [] == before;
        assert Scan(keys, group, wilds) == Scan(keys[..n - 1], group, wilds);
      } else if used < |wilds| {
        assert SinglesAmong(keys, group) == before + [key];
        assert before[..used] == before;
        MatchedSinglesSnoc(group, wilds, before, key);
        assert (before + [key])[..used + 1] == before + [key];
      } else {
        assert SinglesAmong(keys, group) == before + [key];
        assert Smaller(|before| + 1, |wilds|) == used;
        assert (before + [key])[..used] == before[..used];
      }
    }
  }

  /** The foreach loop of DetermineTwoPairCards over the groups of the
      natural cards (their keys and, by key, their cards): each single is
      matched with the first wild card while wild cards remain, stopping
      once four cards are collected. */
  method MatchSingles<T>(keys: seq<int>, group: int -> seq<T>, wilds: seq<T>)
    returns (bestTwoPairs: seq<T>, wildCount: int)
    ensures |bestTwoPairs| == 4 <==> |wilds| >= 2 && |SinglesAmong(keys, group)| >= 2
    ensures |bestTwoPairs| == 4 ==> bestTwoPairs == MatchedSingles(group, wilds, SinglesAmong(keys, group)[..2])
    ensures |bestTwoPairs| != 4 ==> |bestTwoPairs| in {0, 2} && wildCount == |wilds| - |bestTwoPairs| / 2
  {
    wildCount := |wilds|;
    bestTwoPairs := [];
    var i := 0;
    while i < |keys|
      invariant 0 <= i <= |keys|
      invariant (bestTwoPairs, wildCount) == Scan(keys[..i], group, wilds)
      invariant |bestTwoPairs| < 4
    {
      ScanStep(keys, group, wilds, i);
      ScanMatchesSingles(keys[..i + 1], group, wilds);
      var cards := group(keys[i]);
      if |cards| == 1 && wildCount > 0 {
        wildCount := wildCount - 1;
        bestTwoPairs := bestTwoPairs + cards + Take(wilds, 1);
        if |bestTwoPairs| == 4 {
          FirstTwoSingles(keys, group, i + 1);
          return;
        }
      }
      i := i + 1;
    }
    assert keys[..|keys|] == keys;
    ScanMatchesSingles(keys, group, wilds);
  }
}
