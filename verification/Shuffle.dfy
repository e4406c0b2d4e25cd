/** The Fisher-Yates shuffle of Other/ErrCode/errCode.cpp (the snippet at 2423): card i changes places
    with the card at i + rand() % (n - i).  The values of rand() are a parameter. */
module Shuffle {
  import Cycle

  function Swap(s: seq<int>, i: nat, j: nat): (r: seq<int>)
    requires i < |s| && j < |s|
    ensures |r| == |s|
  {
    s[i := s[j]][j := s[i]]
  }

  /** A choice for every step from i on: step i has n - i cards to choose from. */
  predicate Legal(choices: seq<nat>, i: nat, n: nat)
    decreases |choices|
  {
    if i + 1 < n then choices != [] && choices[0] < n - i && Legal(choices[1..], i + 1, n)
    else choices == []
  }

  /** The deck after the steps from i on, with the given choices. */
  function Dealt(s: seq<int>, i: nat, n: nat, choices: seq<nat>): (r: seq<int>)
    requires n <= |s| && Legal(choices, i, n)
    ensures |r| == |s|
    decreases |choices|
  {
    if choices == [] then s else Dealt(Swap(s, i, i + choices[0]), i + 1, n, choices[1..])
  }

  /** rand() % (n - i) for every step. */
  function Choices(rand: seq<nat>, i: nat, n: nat): (c: seq<nat>)
    requires i + 1 < n ==> |rand| >= n - 1
    ensures Legal(c, i, n)
    decreases n - i
  {
    if i + 1 < n then [rand[i] % (n - i)] + Choices(rand, i + 1, n) else []
  }

  method ShuffleCards(cards: array?<int>, n: int, rand: seq<nat>)
    requires cards != null ==> n <= cards.Length
    requires n > 1 ==> |rand| >= n - 1
    modifies if cards == null then {} else {cards}
    ensures cards != null && n >= 0 ==> cards[..] == Dealt(old(cards[..]), 0, n, Choices(rand, 0, n))
    ensures cards != null && n < 0 ==> cards[..] == old(cards[..])
  {
    if cards == null { return; }
    var i := 0;
    while i < n - 1
      invariant 0 <= i && (n >= 1 ==> i <= n - 1) && (n < 1 ==> i == 0)
      invariant n < 0 ==> cards[..] == old(cards[..])
      invariant n >= 0 ==>
        Dealt(cards[..], i, n, Choices(rand, i, n)) == Dealt(old(cards[..]), 0, n, Choices(rand, 0, n))
    {
      var index := i + rand[i] % (n - i);
      ghost var s := cards[..];
      var temp := cards[i];
      cards[i] := cards[index];
      cards[index] := temp;
      assert cards[..] == Swap(s, i, index);
      assert Choices(rand, i, n)[1..] == Choices(rand, i + 1, n);
      i := i + 1;
    }
  }

  ghost predicate Distinct(s: seq<int>) {
    forall i, j :: 0 <= i < j < |s| ==> s[i] != s[j]
  }

  lemma SwapPermutes(s: seq<int>, i: nat, j: nat)
    requires i < |s| && j < |s|
    ensures multiset(Swap(s, i, j)) == multiset(s)
    ensures Distinct(s) ==> Distinct(Swap(s, i, j))
  {
  }

  /** Every shuffle is a permutation. */
  lemma {:induction false} DealtPermutes(s: seq<int>, i: nat, n: nat, choices: seq<nat>)
    requires n <= |s| && Legal(choices, i, n)
    ensures multiset(Dealt(s, i, n, choices)) == multiset(s)
    decreases |choices|
  {
    if choices != [] {
      SwapPermutes(s, i, i + choices[0]);
      DealtPermutes(Swap(s, i, i + choices[0]), i + 1, n, choices[1..]);
    }
  }

  /** The steps from i on touch no card before i and none from n on. */
  lemma {:induction false} DealtKeeps(s: seq<int>, i: nat, n: nat, choices: seq<nat>, k: nat)
    requires n <= |s| && Legal(choices, i, n) && k < |s| && (k < i || n <= k)
    ensures Dealt(s, i, n, choices)[k] == s[k]
    decreases |choices|
  {
    if choices != [] {
      DealtKeeps(Swap(s, i, i + choices[0]), i + 1, n, choices[1..], k);
    }
  }

  /** With distinct cards different choices give different decks. */
  lemma {:induction false} DealtInjective(s: seq<int>, i: nat, n: nat, c: seq<nat>, d: seq<nat>)
    requires n <= |s| && Legal(c, i, n) && Legal(d, i, n) && Distinct(s)
    requires Dealt(s, i, n, c) == Dealt(s, i, n, d)
    ensures c == d
    decreases |c|
  {
    if c != [] {
      DealtKeeps(Swap(s, i, i + c[0]), i + 1, n, c[1..], i);
      DealtKeeps(Swap(s, i, i + d[0]), i + 1, n, d[1..], i);
      assert c[0] == d[0];
      SwapPermutes(s, i, i + c[0]);
      DealtInjective(Swap(s, i, i + c[0]), i + 1, n, c[1..], d[1..]);
      assert c == [c[0]] + c[1..] && d == [d[0]] + d[1..];
    }
  }

  /** The card that a permutation wants at i is among those still to be chosen from; swapping it in
      extends the common prefix. */
  lemma PickCard(s: seq<int>, i: nat, t: seq<int>) returns (c: nat)
    requires i < |s| == |t| && multiset(s) == multiset(t) && s[..i] == t[..i]
    ensures c < |s| - i && Swap(s, i, i + c)[..i + 1] == t[..i + 1]
  {
    SuffixPermuted(s, t, i);
    assert t[i] == t[i..][0];
    assert t[i] in multiset(s[i..]);
    c :| c < |s| - i && s[i..][c] == t[i];
    var s' := Swap(s, i, i + c);
    assert s'[..i] == s[..i] && s'[i] == t[i];
    assert t[..i + 1] == t[..i] + [t[i]] && s'[..i + 1] == s'[..i] + [s'[i]];
  }

  /** Every permutation of the cards from i on comes from some choices. */
  lemma {:induction false} DealtSurjective(s: seq<int>, i: nat, t: seq<int>) returns (choices: seq<nat>)
    requires i <= |s| == |t| && multiset(s) == multiset(t) && s[..i] == t[..i]
    ensures Legal(choices, i, |s|) && Dealt(s, i, |s|, choices) == t
    decreases |s| - i
  {
    if i + 1 >= |s| {
      choices := [];
      SuffixPermuted(s, t, i);
      LastCard(s, t, i);
    } else {
      var c := PickCard(s, i, t);
      SwapPermutes(s, i, i + c);
      var rest := DealtSurjective(Swap(s, i, i + c), i + 1, t);
      choices := [c] + rest;
      assert choices[1..] == rest;
    }
  }

  /** What remains of a permutation behind a common prefix. */
  lemma SuffixPermuted(s: seq<int>, t: seq<int>, i: nat)
    requires i <= |s| == |t| && multiset(s) == multiset(t) && s[..i] == t[..i]
    ensures multiset(s[i..]) == multiset(t[i..])
  {
    assert s == s[..i] + s[i..] && t == t[..i] + t[i..];
    forall e ensures multiset(s[i..])[e] == multiset(t[i..])[e] {
      assert multiset(s)[e] == multiset(s[..i])[e] + multiset(s[i..])[e];
      assert multiset(t)[e] == multiset(t[..i])[e] + multiset(t[i..])[e];
    }
  }

  lemma LastCard(s: seq<int>, t: seq<int>, i: nat)
    requires |s| == |t| && i <= |s| <= i + 1 && s[..i] == t[..i] && multiset(s[i..]) == multiset(t[i..])
    ensures s == t
  {
    if i < |s| {
      assert s[i..] == [s[i]] && t[i..] == [t[i]];
      assert s[i] in multiset(t[i..]);
    }
    assert s == s[..i] + s[i..] && t == t[..i] + t[i..];
  }

  /** These choices turn the whole deck s into t. */
  ghost predicate Deals(s: seq<int>, choices: seq<nat>, t: seq<int>) {
    Legal(choices, 0, |s|) && Dealt(s, 0, |s|, choices) == t
  }

  /** The shuffle of distinct cards maps choices one-to-one onto permutations: a deck is a permutation of
      the cards exactly if some choices deal it, and no two choices deal the same deck. */
  lemma ChoicesArePermutations(s: seq<int>, t: seq<int>)
    requires Distinct(s)
    ensures multiset(t) == multiset(s) <==>
      exists c :: Deals(s, c, t)
    ensures forall c, d :: Deals(s, c, t) && Deals(s, d, t) ==> c == d
  {
    if multiset(t) == multiset(s) {
      assert |multiset(t)| == |t| && |multiset(s)| == |s|;
      var c := DealtSurjective(s, 0, t);
      assert Deals(s, c, t);
    }
    forall c | Deals(s, c, t) ensures multiset(t) == multiset(s) {
      DealtPermutes(s, 0, |s|, c);
    }
    forall c, d | Deals(s, c, t) && Deals(s, d, t) ensures c == d {
      DealtInjective(s, 0, |s|, c, d);
    }
  }

  /** Every sequence of choices does come from values of rand(). */
  lemma {:induction false} ChoicesReachable(c: seq<nat>, n: nat)
    requires Legal(c, 0, n)
    ensures (0 + 1 < n ==> |c| >= n - 1) && Choices(c, 0, n) == c
  {
    LegalLength(c, 0, n);
    ChoicesFrom(c, 0, n);
  }

  /** c is one of d choices, and differs from x by a multiple of d. */
  predicate ChosenBy(c: nat, x: nat, d: nat) { c < d && (x - c) % d == 0 }

  lemma RemainderChosen(x: nat, d: nat)
    requires d > 0
    ensures ChosenBy(x % d, x, d)
  {
    Cycle.QuotientIs(x - x % d, d, x / d, 0);
  }

  /** Step k chooses among its n - k cards by its own value of rand(), however large that is. */
  lemma {:induction false} ChoiceIsRemainder(rand: seq<nat>, i: nat, n: nat, k: nat)
    requires i <= k && k + 1 < n && |rand| >= n - 1
    ensures k - i < |Choices(rand, i, n)| && ChosenBy(Choices(rand, i, n)[k - i], rand[k], n - k)
    decreases k - i
  {
    var rest := Choices(rand, i + 1, n);
    RemainderChosen(rand[i], n - i);
    assert Choices(rand, i, n) == [rand[i] % (n - i)] + rest;
    if k > i {
      ChoiceIsRemainder(rand, i + 1, n, k);
    }
  }

  lemma {:induction false} LegalLength(c: seq<nat>, i: nat, n: nat)
    requires Legal(c, i, n)
    ensures |c| == if i + 1 < n then n - 1 - i else 0
    decreases |c|
  {
    if c != [] {
      LegalLength(c[1..], i + 1, n);
    }
  }

  lemma {:induction false} ChoicesFrom(rand: seq<nat>, i: nat, n: nat)
    requires i <= |rand| && Legal(rand[i..], i, n) && (i + 1 < n ==> |rand| >= n - 1)
    ensures Choices(rand, i, n) == rand[i..]
    decreases |rand| - i
  {
    if i + 1 < n {
      assert rand[i] == rand[i..][0] && rand[i + 1..] == rand[i..][1..];
      ChoicesFrom(rand, i + 1, n);
      Cycle.QuotientIs(rand[i], n - i, 0, rand[i]);
      assert rand[i..] == [rand[i]] + rand[i + 1..];
    }
  }
}
