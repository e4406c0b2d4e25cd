/** Turn-taking with one mutex and one condition variable
    (Linuxlhq/004Concurrent/thread/posix/010printabcd_cond.c): every thread prints its letter m times,
    waiting for its number to come up and then passing the number on.  A condition wait is two steps,
    falling asleep and locking again once woken, and a sleeper may also wake up for no reason. */
module CondRing {
  import opened Basics
  import opened Tally
  import opened Cycle

  datatype Pc =
    | Top        // while (m--)
    | Lock       // lock the mutex
    | Test       // while (num != n)
    | Asleep     // in pthread_cond_wait
    | Relock     // woken, locking the mutex again
    | Write      // print the letter
    | Advance    // num = next(num)
    | Broadcast  // pthread_cond_broadcast
    | Unlock     // unlock
    | Exited

  /** `left` is each thread's m, `out` the letters printed. */
  datatype State = State(num: nat, held: bool, pcs: seq<Pc>, left: seq<nat>, out: seq<nat>)

  datatype Act = Move(t: nat) | Spurious(t: nat)

  function Init(threads: nat, m: nat): State {
    State(0, false, seq(threads, _ => Top), seq(threads, _ => m), [])
  }

  predicate CanMove(s: State, t: nat) {
    t < |s.pcs| && t < |s.left| &&
    match s.pcs[t]
    case Lock => !s.held
    case Asleep => false
    case Relock => !s.held
    case Exited => false
    case _ => true
  }

  function Wake(p: Pc): Pc { if p == Asleep then Relock else p }

  function WakeAll(pcs: seq<Pc>): (r: seq<Pc>)
    ensures |r| == |pcs|
  {
    seq(|pcs|, t requires 0 <= t < |pcs| => Wake(pcs[t]))
  }

  function MoveNext(s: State, t: nat): State
    requires t < |s.pcs| && t < |s.left|
  {
    match s.pcs[t]
    case Top =>
      if s.left[t] == 0 then s.(pcs := s.pcs[t := Exited])
      else s.(left := s.left[t := s.left[t] - 1], pcs := s.pcs[t := Lock])
    case Lock => s.(held := true, pcs := s.pcs[t := Test])
    case Test =>
      if s.num != t then s.(held := false, pcs := s.pcs[t := Asleep]) else s.(pcs := s.pcs[t := Write])
    case Relock => s.(held := true, pcs := s.pcs[t := Test])
    case Write => s.(out := s.out + [t], pcs := s.pcs[t := Advance])
    case Advance => s.(num := Next(s.num, |s.pcs|), pcs := s.pcs[t := Broadcast])
    case Broadcast => s.(pcs := WakeAll(s.pcs)[t := Unlock])
    case Unlock => s.(held := false, pcs := s.pcs[t := Top])
    case _ => s
  }

  function Step(s: State, a: Act): State {
    match a
    case Move(t) => if CanMove(s, t) then MoveNext(s, t) else s
    case Spurious(t) => if t < |s.pcs| && s.pcs[t] == Asleep then s.(pcs := s.pcs[t := Relock]) else s
  }

  function Run(s: State, acts: seq<Act>): State {
    if acts == [] then s else Step(Run(s, acts[..|acts| - 1]), acts[|acts| - 1])
  }

  /** The globals and the threads' locals, updated in place. */
  class Printer {
    var num: nat
    var held: bool
    var pcs: seq<Pc>
    var left: seq<nat>
    var out: seq<nat>

    ghost function View(): State reads this { State(num, held, pcs, left, out) }

    constructor (threads: nat, m: nat)
      ensures View() == Init(threads, m)
    {
      num, held, out := 0, false, [];
      pcs, left := seq(threads, _ => Top), seq(threads, _ => m);
    }

    method ThreadMoves(n: nat) returns (moved: bool)
      modifies this
      ensures View() == Step(old(View()), Move(n)) && moved == CanMove(old(View()), n)
    {
      if n >= |pcs| || n >= |left| { return false; }
      moved := true;
      match pcs[n]
      case Top =>
        if left[n] == 0 {
          pcs := pcs[n := Exited];
        } else {
          left, pcs := left[n := left[n] - 1], pcs[n := Lock];
        }
      case Lock =>
        if held { return false; }
        held, pcs := true, pcs[n := Test];
      case Test =>
        if num != n { held, pcs := false, pcs[n := Asleep]; } else { pcs := pcs[n := Write]; }
      case Asleep =>
        moved := false;
      case Relock =>
        if held { return false; }
        held, pcs := true, pcs[n := Test];
      case Write =>
        out, pcs := out + [n], pcs[n := Advance];
      case Advance =>
        num, pcs := Next(num, |pcs|), pcs[n := Broadcast];
      case Broadcast =>
        pcs := WakeAll(pcs)[n := Unlock];
      case Unlock =>
        held, pcs := false, pcs[n := Top];
      case Exited =>
        moved := false;
    }

    /** A whole run, by the choices of the scheduler. */
    method Schedule(acts: seq<Act>)
      modifies this
      ensures View() == Run(old(View()), acts)
    {
      ghost var s0 := View();
      assert acts[..0] == [];
      for i := 0 to |acts|
        invariant View() == Run(s0, acts[..i])
      {
        assert acts[..i + 1][..i] == acts[..i];
        match acts[i] {
          case Move(t) =>
            var _ := ThreadMoves(t);
          case Spurious(t) =>
            if t < |pcs| && pcs[t] == Asleep { pcs := pcs[t := Relock]; }
        }
      }
      assert acts[..|acts|] == acts;
    }
  }

  // ---------------------------------------------------------------- the invariant

  function Inside(p: Pc): nat { Bit(p.Test? || p.Write? || p.Advance? || p.Broadcast? || p.Unlock?) }

  function IsAdvance(p: Pc): nat { Bit(p.Advance?) }

  function IsBroadcast(p: Pc): nat { Bit(p.Broadcast?) }

  /** In a round whose letter is not printed yet. */
  predicate InRound(p: Pc) { p.Lock? || p.Test? || p.Asleep? || p.Relock? || p.Write? }

  /** How many of the first `printed` letters of the cycle are letter t. */
  function Share(printed: nat, t: nat, threads: nat): nat
    requires t < threads
  {
    if printed == 0 then 0 else Share(printed - 1, t, threads) + Bit((printed - 1) % threads == t)
  }

  /** A thread's rounds: those it has left, the current one, and one for every letter it has printed. */
  ghost predicate RoundsOk(s: State, t: nat, m: nat)
    requires t < |s.pcs| == |s.left|
  {
    && s.left[t] + Bit(InRound(s.pcs[t])) + Share(|s.out|, t, |s.pcs|) == m
    && (s.pcs[t].Exited? ==> s.left[t] == 0)
  }

  /** What a thread's place says about num. */
  ghost predicate PlaceOk(s: State, t: nat)
    requires t < |s.pcs|
  {
    && (s.pcs[t].Write? || s.pcs[t].Advance? ==> s.num == t)
    && (s.pcs[t].Asleep? && s.num == t ==> Total(s.pcs, IsBroadcast) > 0)
  }

  ghost predicate Inv(s: State, m: nat) {
    && |s.pcs| == |s.left| > 0 && s.num < |s.pcs|
    && Total(s.pcs, Inside) == Bit(s.held)
    && Total(s.pcs, IsAdvance) <= |s.out| && s.num == (|s.out| - Total(s.pcs, IsAdvance)) % |s.pcs|
    && (forall k :: 0 <= k < |s.out| ==> s.out[k] == k % |s.pcs|)
    && (forall t :: 0 <= t < |s.pcs| ==> PlaceOk(s, t))
    && (forall t :: 0 <= t < |s.pcs| ==> RoundsOk(s, t, m))
  }

  // ---------------------------------------------------------------- the mutex

  lemma Alone(s: State, t: nat)
    requires Total(s.pcs, Inside) == Bit(s.held) && t < |s.pcs| && Inside(s.pcs[t]) == 1
    ensures s.held && forall u :: 0 <= u < |s.pcs| && u != t ==> Inside(s.pcs[u]) == 0
  {
    TotalAtLeast(s.pcs, Inside, t);
    forall u | 0 <= u < |s.pcs| && u != t ensures Inside(s.pcs[u]) == 0 {
      TotalAtLeastTwo(s.pcs, Inside, if t < u then t else u, if t < u then u else t);
    }
  }

  lemma WakeAllTotals(pcs: seq<Pc>)
    ensures Total(WakeAll(pcs), Inside) == Total(pcs, Inside)
    ensures Total(WakeAll(pcs), IsAdvance) == Total(pcs, IsAdvance)
  {
    TotalSame(pcs, WakeAll(pcs), Inside);
    TotalSame(pcs, WakeAll(pcs), IsAdvance);
  }

  /** The other threads at the end of a step: as they were, or woken by a broadcast. */
  function Others(s: State, a: Act): seq<Pc> {
    if a.Move? && a.t < |s.pcs| && s.pcs[a.t].Broadcast? then WakeAll(s.pcs) else s.pcs
  }

  ghost predicate Enabled(s: State, a: Act) {
    a.t < |s.pcs| == |s.left| && (a.Move? ==> CanMove(s, a.t)) && (a.Spurious? ==> s.pcs[a.t] == Asleep)
  }

  lemma Moved(s: State, a: Act, w: Pc -> nat)
    requires Enabled(s, a)
    ensures Step(s, a).pcs == Others(s, a)[a.t := Step(s, a).pcs[a.t]]
    ensures Total(Step(s, a).pcs, w) + w(Others(s, a)[a.t]) == Total(Others(s, a), w) + w(Step(s, a).pcs[a.t])
  {
    TotalUpdate(Others(s, a), w, a.t, Step(s, a).pcs[a.t]);
  }

  lemma StepMutex(s: State, a: Act)
    requires Enabled(s, a) && Total(s.pcs, Inside) == Bit(s.held)
    ensures Total(Step(s, a).pcs, Inside) == Bit(Step(s, a).held)
  {
    WakeAllTotals(s.pcs);
    Moved(s, a, Inside);
    TotalAtLeast(s.pcs, Inside, a.t);
  }

  // ---------------------------------------------------------------- num and the letters

  /** num is the letter due, and the letters printed are the cycle. */
  ghost predicate LettersInv(s: State) {
    && |s.pcs| == |s.left| > 0 && s.num < |s.pcs|
    && Total(s.pcs, IsAdvance) <= |s.out| && s.num == (|s.out| - Total(s.pcs, IsAdvance)) % |s.pcs|
    && (forall k :: 0 <= k < |s.out| ==> s.out[k] == k % |s.pcs|)
  }

  /** The thread that has printed and not yet passed num on is the only one. */
  lemma AdvanceAlone(s: State, t: nat)
    requires Total(s.pcs, Inside) == Bit(s.held) && t < |s.pcs| && Inside(s.pcs[t]) == 1
    ensures Total(s.pcs, IsAdvance) == IsAdvance(s.pcs[t])
  {
    Alone(s, t);
    if Total(s.pcs, IsAdvance) > 0 {
      var u := TotalWitness(s.pcs, IsAdvance);
      assert s.pcs[t := Top][t := s.pcs[t]] == s.pcs;
      TotalUpdate(s.pcs, IsAdvance, t, Top);
      TotalZero(s.pcs[t := Top], IsAdvance);
    } else {
      TotalAtLeast(s.pcs, IsAdvance, t);
    }
  }

  /** The two steps of a turn: printing the letter, and passing num on. */
  lemma TurnLetters(s: State, t: nat)
    requires Enabled(s, Move(t)) && LettersInv(s) && PlaceOk(s, t) && Total(s.pcs, Inside) == Bit(s.held)
    requires s.pcs[t].Write? || s.pcs[t].Advance?
    ensures LettersInv(Step(s, Move(t)))
  {
    Moved(s, Move(t), IsAdvance);
    AdvanceAlone(s, t);
    if s.pcs[t].Advance? {
      NextIsDue(|s.out| - 1, |s.pcs|);
    }
  }

  /** Other steps leave num, the letters and the thread between the two alone. */
  lemma OtherLetters(s: State, a: Act)
    requires Enabled(s, a) && !(a.Move? && (s.pcs[a.t].Write? || s.pcs[a.t].Advance?))
    ensures var s' := Step(s, a);
      && Total(s'.pcs, IsAdvance) == Total(s.pcs, IsAdvance) && s'.num == s.num && s'.out == s.out
      && |s'.pcs| == |s.pcs| && |s'.left| == |s.left|
  {
    WakeAllTotals(s.pcs);
    Moved(s, a, IsAdvance);
  }

  lemma StepLetters(s: State, a: Act)
    requires Enabled(s, a) && LettersInv(s) && PlaceOk(s, a.t) && Total(s.pcs, Inside) == Bit(s.held)
    ensures LettersInv(Step(s, a))
  {
    if a.Move? && (s.pcs[a.t].Write? || s.pcs[a.t].Advance?) {
      TurnLetters(s, a.t);
    } else {
      OtherLetters(s, a);
    }
  }

  /** The thread that moves, and any other, keep their places in order. */
  lemma PlaceKept(s: State, a: Act, t: nat)
    requires Enabled(s, a) && Total(s.pcs, Inside) == Bit(s.held)
    requires t < |s.pcs| && PlaceOk(s, t) && PlaceOk(s, a.t)
    ensures PlaceOk(Step(s, a), t)
  {
    Moved(s, a, IsBroadcast);
    TotalAtLeast(Step(s, a).pcs, IsBroadcast, a.t);
    if Inside(s.pcs[a.t]) == 1 {
      Alone(s, a.t);
    }
  }

  /** A sleeper whose number is up will be woken: somebody is about to broadcast. */
  lemma StepPlaces(s: State, a: Act)
    requires Enabled(s, a) && Total(s.pcs, Inside) == Bit(s.held)
    requires forall t :: 0 <= t < |s.pcs| ==> PlaceOk(s, t)
    ensures forall t :: 0 <= t < |s.pcs| ==> PlaceOk(Step(s, a), t)
  {
    forall t | 0 <= t < |s.pcs| ensures PlaceOk(Step(s, a), t) {
      assert PlaceOk(s, t) && PlaceOk(s, a.t);
      PlaceKept(s, a, t);
    }
  }

  /** The thread that prints is the one whose letter is due. */
  lemma WriteIsDue(s: State, t: nat)
    requires LettersInv(s) && t < |s.pcs| && PlaceOk(s, t) && Total(s.pcs, Inside) == Bit(s.held)
    ensures s.pcs[t].Write? ==> |s.out| % |s.pcs| == t
  {
    if s.pcs[t].Write? {
      AdvanceAlone(s, t);
    }
  }

  /** A thread's rounds: one step takes from those left to the current one, or ends that one by printing. */
  lemma RoundMoves(s: State, a: Act, t: nat)
    requires Enabled(s, a) && t < |s.pcs|
    ensures var s' := Step(s, a);
      && |s'.pcs| == |s'.left| == |s.pcs|
      && s'.left[t] + Bit(InRound(s'.pcs[t])) + Bit(s.pcs[a.t].Write? && t == a.t) ==
         s.left[t] + Bit(InRound(s.pcs[t]))
      && (s'.pcs[t].Exited? ==> s'.left[t] == s.left[t] && (s.pcs[t].Exited? || s.left[t] == 0))
  {
  }

  /** Printing gives the printing thread one more letter of its own, and the others none. */
  lemma StepRounds(s: State, a: Act, t: nat, m: nat)
    requires Enabled(s, a) && t < |s.pcs| && RoundsOk(s, t, m)
    requires s.pcs[a.t].Write? ==> |s.out| % |s.pcs| == a.t
    ensures RoundsOk(Step(s, a), t, m)
  {
    RoundMoves(s, a, t);
  }

  lemma {:induction false} InitInv(threads: nat, m: nat)
    requires threads > 0
    ensures Inv(Init(threads, m), m)
  {
    TotalZero(Init(threads, m).pcs, Inside);
    TotalZero(Init(threads, m).pcs, IsAdvance);
  }

  lemma StepInv(s: State, a: Act, m: nat)
    requires Inv(s, m)
    ensures Inv(Step(s, a), m) && |Step(s, a).pcs| == |s.pcs|
  {
    if Enabled(s, a) {
      StepMutex(s, a);
      StepLetters(s, a);
      StepPlaces(s, a);
      WriteIsDue(s, a.t);
      forall t | 0 <= t < |s.pcs| ensures RoundsOk(Step(s, a), t, m) {
        StepRounds(s, a, t, m);
      }
    }
  }

  lemma {:induction false} RunInv(threads: nat, m: nat, acts: seq<Act>)
    requires threads > 0
    ensures Inv(Run(Init(threads, m), acts), m) && |Run(Init(threads, m), acts).pcs| == threads
  {
    if acts == [] {
      InitInv(threads, m);
    } else {
      RunInv(threads, m, acts[..|acts| - 1]);
      StepInv(Run(Init(threads, m), acts[..|acts| - 1]), acts[|acts| - 1], m);
    }
  }

  /** A free mutex stops nobody but the sleepers and those that have exited; and a sleeper may wake at any time for
      no reason, and will then lock the mutex and look again. */
  lemma FreeMutexStopsNobody(s: State, t: nat)
    requires t < |s.pcs| == |s.left|
    ensures !s.held && s.pcs[t] != Asleep && s.pcs[t] != Exited ==> CanMove(s, t)
    ensures s.pcs[t] == Asleep ==> Step(s, Spurious(t)) == s.(pcs := s.pcs[t := Relock])
  {
  }

  // ---------------------------------------------------------------- main results

  /** Under every schedule, with any spurious wakeups, the letters come out in cyclic order, each thread
      prints its own at most m times, and at most one thread is inside the mutex. */
  lemma LettersInTurn(threads: nat, m: nat, acts: seq<Act>)
    requires threads > 0
    ensures var s := Run(Init(threads, m), acts);
      && (forall k :: 0 <= k < |s.out| ==> s.out[k] == k % threads)
      && |s.out| <= m * threads
      && (forall t, u :: 0 <= t < u < |s.pcs| ==> Inside(s.pcs[t]) + Inside(s.pcs[u]) <= 1)
  {
    var s := Run(Init(threads, m), acts);
    RunInv(threads, m, acts);
    forall t, u | 0 <= t < u < |s.pcs| ensures Inside(s.pcs[t]) + Inside(s.pcs[u]) <= 1 {
      TotalAtLeastTwo(s.pcs, Inside, t, u);
    }
    NotTooMany(s, m);
  }

  /** In r full rounds every letter is printed r times. */
  lemma {:induction false} ShareOfRounds(r: nat, extra: nat, t: nat, threads: nat)
    requires t < threads && extra <= threads
    ensures Share(r * threads + extra, t, threads) == r + Bit(t < extra)
    decreases r, extra
  {
    if extra > 0 {
      ShareOfRounds(r, extra - 1, t, threads);
      QuotientIs(r * threads + extra - 1, threads, r, extra - 1);
    } else if r > 0 {
      ShareOfRounds(r - 1, threads, t, threads);
      assert (r - 1) * threads + threads == r * threads;
    }
  }

  /** No letter more than m times means no more than m rounds. */
  lemma RoundsBound(l: nat, n: nat, m: nat)
    requires n > 0 && Share(l, 0, n) <= m
    ensures l <= m * n
  {
    var q, r := l / n, l % n;
    assert l == q * n + r;
    ShareOfRounds(q, r, 0, n);
    if r == 0 {
      MulMono(q, m, n);
    } else {
      MulMono(q + 1, m, n);
      assert (q + 1) * n == q * n + n;
    }
  }

  lemma MulMono(x: nat, y: nat, n: nat)
    requires x <= y
    ensures x * n <= y * n
  {
  }

  /** If the letter due was printed m times and the first letter not more often, m rounds are complete. */
  lemma RoundsComplete(l: nat, n: nat, m: nat)
    requires n > 0 && Share(l, l % n, n) == m && Share(l, 0, n) <= m
    ensures l == m * n
  {
    var q, r := l / n, l % n;
    assert l == q * n + r;
    ShareOfRounds(q, r, r, n);
    ShareOfRounds(q, r, 0, n);
  }

  lemma NotTooMany(s: State, m: nat)
    requires Inv(s, m)
    ensures |s.out| <= m * |s.pcs|
  {
    assert RoundsOk(s, 0, m);
    RoundsBound(|s.out|, |s.pcs|, m);
  }

  /** No thread can move without a spurious wakeup. */
  ghost predicate Stuck(s: State) { forall t: nat :: !CanMove(s, t) }

  /** A stuck run is a finished run: every thread has exited and exactly m rounds are printed. */
  lemma StuckIsDone(s: State, m: nat)
    requires Inv(s, m) && Stuck(s)
    ensures |s.out| == m * |s.pcs| && forall t :: 0 <= t < |s.pcs| ==> s.pcs[t].Exited?
  {
    var n := |s.pcs|;
    NobodyInside(s);
    assert PlaceOk(s, s.num) && RoundsOk(s, s.num, m) && RoundsOk(s, 0, m);
    assert s.pcs[s.num].Exited? by { assert !CanMove(s, s.num); }
    RoundsComplete(|s.out|, n, m);
    forall t | 0 <= t < n ensures s.pcs[t].Exited? {
      assert RoundsOk(s, t, m) && !CanMove(s, t);
      ShareOfRounds(m, 0, t, n);
    }
  }

  lemma NobodyInside(s: State)
    requires Total(s.pcs, Inside) == Bit(s.held) && |s.pcs| == |s.left| && Stuck(s)
    ensures !s.held && Total(s.pcs, IsAdvance) == 0 && Total(s.pcs, IsBroadcast) == 0
  {
    if s.held {
      var t := TotalWitness(s.pcs, Inside);
      assert CanMove(s, t);
    }
    forall t | 0 <= t < |s.pcs| ensures Inside(s.pcs[t]) == 0 {
      TotalAtLeast(s.pcs, Inside, t);
    }
    TotalZero(s.pcs, IsAdvance);
    TotalZero(s.pcs, IsBroadcast);
  }

  /** What a thread still has to do before it prints or exits; `n` is the number of threads. */
  function Rank(n: nat): Pc -> nat {
    (p: Pc) =>
      match p
      case Advance => 3 * n + 8
      case Broadcast => 3 * n + 7
      case Unlock => 6
      case Top => 5
      case Lock => 4
      case Relock => 4
      case Test => 3
      case Write => 2
      case Asleep => 1
      case Exited => 0
  }

  function Measure(s: State, m: nat): int {
    (m * |s.pcs| - |s.out|) * (3 * |s.pcs| + 7) + Total(s.pcs, Rank(|s.pcs|))
  }

  lemma {:induction false} WakeAllRank(pcs: seq<Pc>, n: nat)
    ensures Total(WakeAll(pcs), Rank(n)) <= Total(pcs, Rank(n)) + 3 * |pcs|
  {
    if pcs != [] {
      WakeAllRank(pcs[1..], n);
      assert WakeAll(pcs)[1..] == WakeAll(pcs[1..]);
    }
  }

  lemma MoveRanks(s: State, t: nat)
    requires Enabled(s, Move(t))
    ensures Total(Step(s, Move(t)).pcs, Rank(|s.pcs|)) <
            Total(s.pcs, Rank(|s.pcs|)) + if s.pcs[t].Write? then 3 * |s.pcs| + 7 else 0
  {
    Moved(s, Move(t), Rank(|s.pcs|));
    if s.pcs[t].Broadcast? {
      WakeAllRank(s.pcs, |s.pcs|);
    }
  }

  lemma MoveLowers(s: State, t: nat, m: nat)
    requires Enabled(s, Move(t))
    ensures Measure(Step(s, Move(t)), m) < Measure(s, m)
  {
    MoveRanks(s, t);
    var d, c := m * |s.pcs| - |s.out|, 3 * |s.pcs| + 7;
    Distribute(d, 1, c);
    assert |Step(s, Move(t)).out| == |s.out| + if s.pcs[t].Write? then 1 else 0;
  }

  /** A schedule that only picks threads that can move. */
  ghost predicate Busy(s: State, ts: seq<nat>)
    decreases |ts|
  {
    ts == [] || (CanMove(s, ts[0]) && Busy(Step(s, Move(ts[0])), ts[1..]))
  }

  function RunOn(s: State, ts: seq<nat>): State
    decreases |ts|
  {
    if ts == [] then s else RunOn(Step(s, Move(ts[0])), ts[1..])
  }

  /** Exactly m full rounds are printed and every thread has exited. */
  ghost predicate Complete(s: State, m: nat) {
    |s.out| == m * |s.pcs| && forall t :: 0 <= t < |s.pcs| ==> s.pcs[t].Exited?
  }

  /** It never gets stuck early and always ends: from any reachable state, a schedule that keeps picking
      threads which can move has boundedly many steps, and when no thread can move any more exactly m full
      rounds are printed and every thread has exited. */
  lemma {:induction false} PrintsAllRounds(s: State, ts: seq<nat>, m: nat)
    requires Inv(s, m) && Busy(s, ts)
    ensures |ts| <= Measure(s, m)
    ensures |RunOn(s, ts).pcs| == |s.pcs|
    ensures Stuck(RunOn(s, ts)) ==> Complete(RunOn(s, ts), m)
    decreases |ts|
  {
    if ts == [] {
      NotTooMany(s, m);
      assert (m * |s.pcs| - |s.out|) * (3 * |s.pcs| + 7) >= 0;
      if Stuck(s) { StuckIsDone(s, m); }
    } else {
      StepInv(s, Move(ts[0]), m);
      MoveLowers(s, ts[0], m);
      PrintsAllRounds(Step(s, Move(ts[0])), ts[1..], m);
    }
  }
}
