/** Turn-taking with a ring of mutexes (Linuxlhq/004Concurrent/thread/posix/007printabcd.c).  Thread i
    locks mutex i, prints its letter and unlocks the mutex of the next thread; main prepares the mutexes,
    creates the threads while it goes, and unlocks mutex 0 at the end.  A mutex is a binary lock that any
    thread may release. */
module LockRing {
  import opened Tally
  import opened Cycle

  datatype Mutex = Raw | Free | Held   // Raw: not initialised yet

  datatype MainPc =
    | MInit(i: nat)     // pthread_mutex_init(mut + i)
    | MLock(i: nat)     // pthread_mutex_lock(mut + i)
    | MCreate(i: nat)   // pthread_create(tid + i)
    | MRelease          // pthread_mutex_unlock(mut + 0)
    | MWait             // joining

  datatype Pc = Absent | PLock | PWrite | PUnlock

  /** `out` holds the letters printed, letter i being the one of thread i. */
  datatype State = State(mut: seq<Mutex>, main: MainPc, pcs: seq<Pc>, out: seq<nat>)

  datatype Act = Main | Thread(t: nat)

  function Init(threads: nat): State {
    State(seq(threads, _ => Raw), MInit(0), seq(threads, _ => Absent), [])
  }

  predicate CanStep(s: State, a: Act) {
    match a
    case Main =>
      (match s.main
       case MLock(i) => i < |s.mut| && s.mut[i] == Free
       case MWait => false
       case _ => true)
    case Thread(t) =>
      t < |s.pcs| && t < |s.mut| && s.pcs[t] != Absent && (s.pcs[t] == PLock ==> s.mut[t] == Free)
  }

  function MainNext(s: State): State {
    match s.main
    case MInit(i) => if i < |s.mut| then s.(mut := s.mut[i := Free], main := MLock(i)) else s.(main := MRelease)
    case MLock(i) => if i < |s.mut| then s.(mut := s.mut[i := Held], main := MCreate(i)) else s
    case MCreate(i) => if i < |s.pcs| then s.(pcs := s.pcs[i := PLock], main := MInit(i + 1)) else s
    case MRelease => if 0 < |s.mut| then s.(mut := s.mut[0 := Free], main := MWait) else s
    case MWait => s
  }

  function ThreadNext(s: State, t: nat): State
    requires t < |s.pcs| && t < |s.mut|
  {
    match s.pcs[t]
    case Absent => s
    case PLock => s.(mut := s.mut[t := Held], pcs := s.pcs[t := PWrite])
    case PWrite => s.(out := s.out + [t], pcs := s.pcs[t := PUnlock])
    case PUnlock =>
      var n := Next(t, |s.pcs|);
      s.(mut := if n < |s.mut| then s.mut[n := Free] else s.mut, pcs := s.pcs[t := PLock])
  }

  function Step(s: State, a: Act): State {
    if !CanStep(s, a) then s else
    match a
    case Main => MainNext(s)
    case Thread(t) => ThreadNext(s, t)
  }

  function Run(s: State, acts: seq<Act>): State {
    if acts == [] then s else Step(Run(s, acts[..|acts| - 1]), acts[|acts| - 1])
  }

  /** The program, with its array of mutexes. */
  class Ring {
    const mut: array<Mutex>
    var main: MainPc
    var pcs: seq<Pc>
    var out: seq<nat>

    ghost function View(): State reads this, mut { State(mut[..], main, pcs, out) }

    constructor (threads: nat)
      ensures fresh(mut) && mut.Length == threads && View() == Init(threads)
    {
      mut := new Mutex[threads](_ => Raw);
      main, pcs, out := MInit(0), seq(threads, _ => Absent), [];
    }

    method MainMoves()
      requires |pcs| == mut.Length
      modifies this, mut
      ensures View() == Step(old(View()), Main)
    {
      match main
      case MInit(i) =>
        if i < mut.Length {
          mut[i], main := Free, MLock(i);
        } else {
          main := MRelease;
        }
      case MLock(i) =>
        if i < mut.Length && mut[i] == Free {
          mut[i], main := Held, MCreate(i);
        }
      case MCreate(i) =>
        if i < |pcs| {
          pcs, main := pcs[i := PLock], MInit(i + 1);
        }
      case MRelease =>
        if 0 < mut.Length {
          mut[0], main := Free, MWait;
        }
      case MWait =>
    }

    method ThreadMoves(n: nat)
      requires |pcs| == mut.Length
      modifies this, mut
      ensures View() == Step(old(View()), Thread(n))
    {
      if n >= |pcs| { return; }
      match pcs[n]
      case Absent =>
      case PLock =>
        if mut[n] == Free {
          mut[n], pcs := Held, pcs[n := PWrite];
        }
      case PWrite =>
        out, pcs := out + [n], pcs[n := PUnlock];
      case PUnlock =>
        mut[Next(n, mut.Length)], pcs := Free, pcs[n := PLock];
    }

    /** A whole run, by the choices of the scheduler. */
    method Schedule(acts: seq<Act>)
      requires |pcs| == mut.Length
      modifies this, mut
      ensures View() == Run(old(View()), acts)
    {
      ghost var s0 := View();
      assert acts[..0] == [];
      for i := 0 to |acts|
        invariant View() == Run(s0, acts[..i]) && |pcs| == mut.Length
      {
        assert acts[..i + 1][..i] == acts[..i];
        match acts[i] {
          case Main => MainMoves();
          case Thread(t) => ThreadMoves(t);
        }
      }
      assert acts[..|acts|] == acts;
    }
  }

  // ---------------------------------------------------------------- the invariant

  function IsFree(m: Mutex): nat { if m == Free then 1 else 0 }

  /** Between taking its turn and passing it on. */
  function HasTurn(p: Pc): nat { if p == PWrite || p == PUnlock then 1 else 0 }

  /** Thread or mutex `who` may carry the turn only if it is the letter due. */
  ghost predicate Due(s: State, who: nat) {
    |s.pcs| > 0 && |s.out| % |s.pcs| == who
  }

  ghost predicate Places(s: State) {
    && (forall i :: 0 <= i < |s.mut| && s.mut[i] == Free ==> Due(s, i))
    && (forall t :: 0 <= t < |s.pcs| && s.pcs[t] == PWrite ==> Due(s, t))
    && (forall t :: 0 <= t < |s.pcs| && s.pcs[t] == PUnlock ==> Due(s, Next(t, |s.pcs|)))
  }

  /** While main is preparing thread i: nothing is printed, the threads before i wait at mutexes that
      main holds, and the others do not exist yet. */
  ghost predicate Preparing(s: State, i: nat)
    requires i <= |s.pcs| == |s.mut|
  {
    && s.out == []
    && (forall t :: 0 <= t < i ==> s.mut[t] == Held && s.pcs[t] == PLock)
    && (forall t :: i <= t < |s.pcs| ==> s.pcs[t] == Absent)
  }

  ghost predicate Inv(s: State) {
    && |s.mut| == |s.pcs| > 0
    && (forall k :: 0 <= k < |s.out| ==> s.out[k] == k % |s.pcs|)
    && (match s.main
        case MInit(i) => i <= |s.pcs| && Preparing(s, i)
        case MLock(i) => i < |s.pcs| && Preparing(s, i) && s.mut[i] == Free
        case MCreate(i) => i < |s.pcs| && Preparing(s, i) && s.mut[i] == Held
        case MRelease => Preparing(s, |s.pcs|)
        case MWait =>
          && Total(s.mut, IsFree) + Total(s.pcs, HasTurn) == 1
          && Places(s)
          && (forall i :: 0 <= i < |s.pcs| ==> s.mut[i] != Raw && s.pcs[i] != Absent))
  }

  lemma MainInv(s: State)
    requires Inv(s) && CanStep(s, Main)
    ensures Inv(Step(s, Main))
  {
    var s' := Step(s, Main);
    if s.main.MRelease? {
      TotalZero(s.mut, IsFree);
      TotalUpdate(s.mut, IsFree, 0, Free);
      TotalZero(s.pcs, HasTurn);
    }
  }

  /** Only one thread has the turn, and then no mutex is free. */
  lemma TurnAlone(s: State, t: nat)
    requires Inv(s) && s.main.MWait? && t < |s.pcs| && HasTurn(s.pcs[t]) == 1
    ensures forall u :: 0 <= u < |s.pcs| && u != t ==> HasTurn(s.pcs[u]) == 0
    ensures forall u :: 0 <= u < |s.mut| ==> s.mut[u] == Held
  {
    TotalAtLeast(s.pcs, HasTurn, t);
    forall u | 0 <= u < |s.pcs| && u != t ensures HasTurn(s.pcs[u]) == 0 {
      TotalAtLeastTwo(s.pcs, HasTurn, if t < u then t else u, if t < u then u else t);
    }
    forall u | 0 <= u < |s.mut| ensures s.mut[u] == Held {
      TotalAtLeast(s.mut, IsFree, u);
    }
  }

  /** The turn is moved on, never doubled or lost. */
  lemma OneTurn(s: State, t: nat)
    requires Inv(s) && CanStep(s, Thread(t))
    ensures var s' := Step(s, Thread(t)); Total(s'.mut, IsFree) + Total(s'.pcs, HasTurn) == 1
  {
    var s' := Step(s, Thread(t));
    TotalUpdate(s.pcs, HasTurn, t, s'.pcs[t]);
    if s.pcs[t] == PLock {
      TotalUpdate(s.mut, IsFree, t, Held);
    } else if s.pcs[t] == PUnlock {
      TurnAlone(s, t);
      TotalUpdate(s.mut, IsFree, Next(t, |s.pcs|), Free);
    }
  }

  lemma ThreadPlaces(s: State, t: nat)
    requires Inv(s) && CanStep(s, Thread(t))
    ensures Places(Step(s, Thread(t)))
  {
    if HasTurn(s.pcs[t]) == 1 {
      TurnAlone(s, t);
      NextIsDue(|s.out|, |s.pcs|);
    }
  }

  lemma ThreadInv(s: State, t: nat)
    requires Inv(s) && CanStep(s, Thread(t))
    ensures Inv(Step(s, Thread(t)))
  {
    OneTurn(s, t);
    ThreadPlaces(s, t);
  }

  lemma {:induction false} RunInv(threads: nat, acts: seq<Act>)
    requires threads > 0
    ensures Inv(Run(Init(threads), acts)) && |Run(Init(threads), acts).pcs| == threads
  {
    if acts != [] {
      var s := Run(Init(threads), acts[..|acts| - 1]);
      var a := acts[|acts| - 1];
      RunInv(threads, acts[..|acts| - 1]);
      if CanStep(s, a) {
        if a.Main? { MainInv(s); } else { ThreadInv(s, a.t); }
      }
    }
  }

  // ---------------------------------------------------------------- main results

  /** Under every schedule, also one that runs threads while main is still preparing, the letters come out
      in cyclic order, at most one thread is between taking its turn and passing it on, and no thread
      ever touches a mutex that main has not initialised. */
  lemma LettersInTurn(threads: nat, acts: seq<Act>)
    requires threads > 0
    ensures var s := Run(Init(threads), acts);
      && (forall k :: 0 <= k < |s.out| ==> s.out[k] == k % threads)
      && (forall t, u :: 0 <= t < u < |s.pcs| ==> HasTurn(s.pcs[t]) + HasTurn(s.pcs[u]) <= 1)
      && (forall t :: 0 <= t < |s.pcs| && s.pcs[t] != Absent ==> t < |s.mut| && s.mut[t] != Raw)
      && (forall t :: 0 <= t < |s.pcs| && s.pcs[t] == PUnlock ==>
            Next(t, threads) < |s.mut| && s.mut[Next(t, threads)] == Held)
  {
    var s := Run(Init(threads), acts);
    RunInv(threads, acts);
    forall t, u | 0 <= t < u < |s.pcs| ensures HasTurn(s.pcs[t]) + HasTurn(s.pcs[u]) <= 1 {
      if s.main.MWait? { TotalAtLeastTwo(s.pcs, HasTurn, t, u); }
    }
    forall t | 0 <= t < |s.pcs| && s.pcs[t] == PUnlock ensures s.mut[Next(t, threads)] == Held {
      TotalAtLeast(s.pcs, HasTurn, t);
      TotalAtLeast(s.mut, IsFree, Next(t, threads));
    }
  }

  /** The ring never stops: in every reachable state main or some thread can take a step. */
  lemma NeverStuck(threads: nat, acts: seq<Act>) returns (a: Act)
    requires threads > 0
    ensures CanStep(Run(Init(threads), acts), a)
  {
    var s := Run(Init(threads), acts);
    RunInv(threads, acts);
    if !s.main.MWait? {
      a := Main;
    } else if Total(s.pcs, HasTurn) > 0 {
      var t := TotalWitness(s.pcs, HasTurn);
      a := Thread(t);
    } else {
      var t := TotalWitness(s.mut, IsFree);
      assert Due(s, t);
      TotalAtLeast(s.pcs, HasTurn, t);
      a := Thread(t);
    }
  }

  /** The thread steps of a schedule that were possible when they came. */
  function Steps(s: State, acts: seq<Act>): nat {
    if acts == [] then 0 else
    var before, a := Run(s, acts[..|acts| - 1]), acts[|acts| - 1];
    Steps(s, acts[..|acts| - 1]) + if a.Thread? && CanStep(before, a) then 1 else 0
  }

  /** Where the turn is: in a mutex, with a thread that is about to print, or with one that has printed. */
  ghost predicate TurnAt(s: State, steps: nat) {
    && (Total(s.mut, IsFree) > 0 || !s.main.MWait? ==> steps == 3 * |s.out|)
    && (forall t :: 0 <= t < |s.pcs| && s.pcs[t] == PWrite ==> steps == 3 * |s.out| + 1)
    && (forall t :: 0 <= t < |s.pcs| && s.pcs[t] == PUnlock ==> steps + 1 == 3 * |s.out|)
  }

  lemma ThreadTurn(s: State, t: nat, steps: nat)
    requires Inv(s) && CanStep(s, Thread(t)) && TurnAt(s, steps)
    ensures TurnAt(Step(s, Thread(t)), steps + 1)
  {
    if HasTurn(s.pcs[t]) == 1 {
      TurnAlone(s, t);
      TotalZero(s.mut, IsFree);
    } else {
      OneTurn(s, t);
      TotalAtLeast(s.mut, IsFree, t);
      ThreadInv(s, t);
      TurnAlone(Step(s, Thread(t)), t);
      TotalZero(Step(s, Thread(t)).mut, IsFree);
    }
  }

  lemma {:induction false} RunTurn(threads: nat, acts: seq<Act>)
    requires threads > 0
    ensures TurnAt(Run(Init(threads), acts), Steps(Init(threads), acts))
  {
    if acts != [] {
      var s, a := Run(Init(threads), acts[..|acts| - 1]), acts[|acts| - 1];
      RunTurn(threads, acts[..|acts| - 1]);
      RunInv(threads, acts[..|acts| - 1]);
      if CanStep(s, a) && a.Thread? {
        ThreadTurn(s, a.t, Steps(Init(threads), acts[..|acts| - 1]));
      } else if CanStep(s, a) {
        MainInv(s);
      }
    }
  }

  /** The ring leaves the scheduler no choice but when: after any schedule with k possible thread steps exactly
      (k + 1) / 3 letters are printed. */
  lemma PrintsOneInThree(threads: nat, acts: seq<Act>)
    requires threads > 0
    ensures |Run(Init(threads), acts).out| == (Steps(Init(threads), acts) + 1) / 3
  {
    var s := Run(Init(threads), acts);
    RunInv(threads, acts);
    RunTurn(threads, acts);
    if s.main.MWait? && Total(s.pcs, HasTurn) > 0 {
      var t := TotalWitness(s.pcs, HasTurn);
    }
  }
}
