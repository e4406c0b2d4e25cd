/** Totals of a weight over a sequence.  The thread protocols count the threads that are at certain
    places in their code with these, and bound the steps still to come. */
module Tally {

  function Total<T>(s: seq<T>, w: T -> nat): nat {
    if s == [] then 0 else w(s[0]) + Total(s[1..], w)
  }

  /** Replacing one element exchanges its weight. */
  lemma {:induction false} TotalUpdate<T>(s: seq<T>, w: T -> nat, i: nat, x: T)
    requires i < |s|
    ensures Total(s[i := x], w) + w(s[i]) == Total(s, w) + w(x)
  {
    if i == 0 {
      assert s[0 := x][1..] == s[1..];
    } else {
      TotalUpdate(s[1..], w, i - 1, x);
      assert s[i := x][1..] == s[1..][i - 1 := x];
    }
  }

  /** One element weighs no more than all of them. */
  lemma {:induction false} TotalAtLeast<T>(s: seq<T>, w: T -> nat, i: nat)
    requires i < |s|
    ensures w(s[i]) <= Total(s, w)
  {
    if i > 0 {
      TotalAtLeast(s[1..], w, i - 1);
    }
  }

  /** Two different positions together weigh no more than all of them. */
  lemma {:induction false} TotalAtLeastTwo<T>(s: seq<T>, w: T -> nat, i: nat, j: nat)
    requires i < j < |s|
    ensures w(s[i]) + w(s[j]) <= Total(s, w)
  {
    if i == 0 {
      TotalAtLeast(s[1..], w, j - 1);
    } else {
      TotalAtLeastTwo(s[1..], w, i - 1, j - 1);
    }
  }

  /** A positive total has a position that contributes to it. */
  lemma {:induction false} TotalWitness<T>(s: seq<T>, w: T -> nat) returns (i: nat)
    requires Total(s, w) > 0
    ensures i < |s| && w(s[i]) > 0
  {
    if w(s[0]) > 0 {
      i := 0;
    } else {
      i := TotalWitness(s[1..], w);
      i := i + 1;
    }
  }

  /** If no element weighs anything the total is zero. */
  lemma {:induction false} TotalZero<T>(s: seq<T>, w: T -> nat)
    requires forall i :: 0 <= i < |s| ==> w(s[i]) == 0
    ensures Total(s, w) == 0
  {
    if s != [] {
      TotalZero(s[1..], w);
    }
  }

  /** Weights that agree on every element of two sequences have the same total. */
  lemma {:induction false} TotalSame<T>(s: seq<T>, s': seq<T>, w: T -> nat)
    requires |s| == |s'|
    requires forall i :: 0 <= i < |s| ==> w(s[i]) == w(s'[i])
    ensures Total(s, w) == Total(s', w)
  {
    if s != [] {
      assert w(s[0]) == w(s'[0]);
      TotalSame(s[1..], s'[1..], w);
    }
  }

  /** What is done, then what is still on its way, when both move on by one step. */
  lemma Joined<T>(done: seq<T>, pending: seq<T>, now: seq<T>, pending': seq<T>, begun: seq<T>)
    requires now + pending' == pending + begun
    ensures (done + now) + pending' == (done + pending) + begun
  {
    assert (done + now) + pending' == done + (now + pending');
  }
}
