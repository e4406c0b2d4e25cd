/** The readers-writer lock built from two plain mutexes (Other/ErrCode/errCode.cpp, snippet at 2507).

    Any number of threads run read_lock, read_unlock, write_lock and write_unlock; every statement of
    these four functions is one step, and steps of different threads interleave freely.  Both mutexes
    are binary locks which any thread may release: the last reader out need not be the first one in. */
module ReadersWriterLock {
  import opened Basics
  import opened Tally

  /** The statement a thread executes next. */
  datatype Pc =
    | Idle          // outside the lock
    | RLockCount    // read_lock: lock(count_mutex)
    | RIncrement    // read_lock: read_cout++
    | RTest         // read_lock: if (1 == read_cout)
    | RLockWrite    // read_lock: lock(write_mutex)
    | RUnlockCount  // read_lock: unlock(count_mutex)
    | Reading       // holds the read lock; next is read_unlock: lock(count_mutex)
    | UDecrement    // read_unlock: read_cout--
    | UTest         // read_unlock: if (0 == read_cout)
    | UUnlockWrite  // read_unlock: unlock(write_mutex)
    | UUnlockCount  // read_unlock: unlock(count_mutex)
    | WLockWrite    // write_lock: lock(write_mutex)
    | Writing       // holds the write lock; next is write_unlock: unlock(write_mutex)

  datatype State = State(readCount: int, countHeld: bool, writeHeld: bool, pcs: seq<Pc>)

  /** Which thread moves, and what an idle thread asks for. */
  datatype Act = Act(thread: nat, asWriter: bool)

  function Init(threads: nat): State {
    State(0, false, false, seq(threads, _ => Idle))
  }

  /** A thread is blocked only at a lock() on a mutex that is held. */
  predicate CanStep(s: State, t: nat) {
    t < |s.pcs| &&
    match s.pcs[t]
    case RLockCount => !s.countHeld
    case Reading => !s.countHeld
    case RLockWrite => !s.writeHeld
    case WLockWrite => !s.writeHeld
    case _ => true
  }

  /** One step of one thread; scheduling a blocked thread changes nothing. */
  function Step(s: State, a: Act): State {
    if !CanStep(s, a.thread) then s else
    var t := a.thread;
    match s.pcs[t]
    case Idle => s.(pcs := s.pcs[t := if a.asWriter then WLockWrite else RLockCount])
    case RLockCount => s.(countHeld := true, pcs := s.pcs[t := RIncrement])
    case RIncrement => s.(readCount := s.readCount + 1, pcs := s.pcs[t := RTest])
    case RTest => s.(pcs := s.pcs[t := if 1 == s.readCount then RLockWrite else RUnlockCount])
    case RLockWrite => s.(writeHeld := true, pcs := s.pcs[t := RUnlockCount])
    case RUnlockCount => s.(countHeld := false, pcs := s.pcs[t := Reading])
    case Reading => s.(countHeld := true, pcs := s.pcs[t := UDecrement])
    case UDecrement => s.(readCount := s.readCount - 1, pcs := s.pcs[t := UTest])
    case UTest => s.(pcs := s.pcs[t := if 0 == s.readCount then UUnlockWrite else UUnlockCount])
    case UUnlockWrite => s.(writeHeld := false, pcs := s.pcs[t := UUnlockCount])
    case UUnlockCount => s.(countHeld := false, pcs := s.pcs[t := Idle])
    case WLockWrite => s.(writeHeld := true, pcs := s.pcs[t := Writing])
    case Writing => s.(writeHeld := false, pcs := s.pcs[t := Idle])
  }

  /** The state after any schedule. */
  function Run(s: State, acts: seq<Act>): (r: State)
    ensures |r.pcs| == |s.pcs|
  {
    if acts == [] then s else Step(Run(s, acts[..|acts| - 1]), acts[|acts| - 1])
  }

  /** The lock's globals, updated in place statement by statement. */
  class LockWorld {
    var readCount: int
    var countMutex: bool
    var writeMutex: bool
    var pcs: seq<Pc>

    ghost function View(): State reads this {
      State(readCount, countMutex, writeMutex, pcs)
    }

    constructor (threads: nat)
      ensures View() == Init(threads)
    {
      readCount, countMutex, writeMutex := 0, false, false;
      pcs := seq(threads, _ => Idle);
    }

    method Advance(t: nat, asWriter: bool) returns (moved: bool)
      modifies this
      ensures View() == Step(old(View()), Act(t, asWriter))
      ensures moved == CanStep(old(View()), t)
    {
      if t >= |pcs| { return false; }
      moved := true;
      match pcs[t]
      case Idle =>
        pcs := pcs[t := if asWriter then WLockWrite else RLockCount];
      case RLockCount =>
        if countMutex { return false; }
        countMutex := true;
        pcs := pcs[t := RIncrement];
      case RIncrement =>
        readCount := readCount + 1;
        pcs := pcs[t := RTest];
      case RTest =>
        pcs := pcs[t := if 1 == readCount then RLockWrite else RUnlockCount];
      case RLockWrite =>
        if writeMutex { return false; }
        writeMutex := true;
        pcs := pcs[t := RUnlockCount];
      case RUnlockCount =>
        countMutex := false;
        pcs := pcs[t := Reading];
      case Reading =>
        if countMutex { return false; }
        countMutex := true;
        pcs := pcs[t := UDecrement];
      case UDecrement =>
        readCount := readCount - 1;
        pcs := pcs[t := UTest];
      case UTest =>
        pcs := pcs[t := if 0 == readCount then UUnlockWrite else UUnlockCount];
      case UUnlockWrite =>
        writeMutex := false;
        pcs := pcs[t := UUnlockCount];
      case UUnlockCount =>
        countMutex := false;
        pcs := pcs[t := Idle];
      case WLockWrite =>
        if writeMutex { return false; }
        writeMutex := true;
        pcs := pcs[t := Writing];
      case Writing =>
        writeMutex := false;
        pcs := pcs[t := Idle];
    }

    /** A whole run, by the choices of the scheduler. */
    method Schedule(acts: seq<Act>)
      modifies this
      ensures View() == Run(old(View()), acts)
    {
      ghost var s0 := View();
      assert acts[..0] == [];
      for i := 0 to |acts|
        invariant View() == Run(s0, acts[..i])
      {
        assert acts[..i + 1][..i] == acts[..i];
        var _ := Advance(acts[i].thread, acts[i].asWriter);
      }
      assert acts[..|acts|] == acts;
    }
  }

  // ---------------------------------------------------------------- what each place in the code means

  /** Between lock(count_mutex) and unlock(count_mutex). */
  function HoldsCount(p: Pc): nat {
    Bit(!p.Idle? && !p.RLockCount? && !p.Reading? && !p.WLockWrite? && !p.Writing?)
  }

  /** Between its own increment and its own decrement of read_cout. */
  function Counted(p: Pc): nat {
    Bit(p.RTest? || p.RLockWrite? || p.RUnlockCount? || p.Reading? || p.UDecrement?)
  }

  /** Counted, but not yet sure that write_mutex is held for the readers. */
  function Entering(p: Pc): nat { Bit(p == RTest || p == RLockWrite) }

  /** No longer counted, but write_mutex may still be held for the readers. */
  function Leaving(p: Pc): nat { Bit(p == UTest || p == UUnlockWrite) }

  /** Relies on write_mutex being held on the readers' behalf. */
  function Shares(p: Pc): nat {
    Bit(p.RUnlockCount? || p.Reading? || p.UDecrement? || p.UTest? || p.UUnlockWrite?)
  }

  function Writes(p: Pc): nat { Bit(p == Writing) }

  /** The invariant of the protocol.  write_mutex is held once for the thread that writes, and once for
      all the readers together exactly while some thread relies on it. */
  ghost predicate Inv(s: State) {
    Counts(s) && Singles(s)
  }

  ghost predicate Counts(s: State) {
    && Total(s.pcs, HoldsCount) == Bit(s.countHeld)
    && s.readCount == Total(s.pcs, Counted)
    && Total(s.pcs, Writes) + Bit(Total(s.pcs, Shares) > 0) == Bit(s.writeHeld)
  }

  ghost predicate Singles(s: State) {
    forall t :: 0 <= t < |s.pcs| ==> Single(s, s.pcs[t])
  }

  /** write_mutex is only taken for the first reader and only released for the last one. */
  ghost predicate Single(s: State, p: Pc) {
    (p == RLockWrite ==> s.readCount == 1) && (p == UUnlockWrite ==> s.readCount == 0)
  }

  /** read_cout, corrected by the threads in transit, is the number of threads relying on write_mutex. */
  lemma {:induction false} CountBalance(pcs: seq<Pc>)
    ensures Total(pcs, Counted) + Total(pcs, Leaving) == Total(pcs, Shares) + Total(pcs, Entering)
    ensures Total(pcs, Entering) + Total(pcs, Leaving) <= Total(pcs, HoldsCount)
  {
    if pcs != [] {
      CountBalance(pcs[1..]);
    }
  }

  lemma {:induction false} InitInv(threads: nat)
    ensures Inv(Init(threads))
  {
    var pcs := Init(threads).pcs;
    TotalZero(pcs, HoldsCount);
    TotalZero(pcs, Counted);
    TotalZero(pcs, Writes);
    TotalZero(pcs, Shares);
  }

  /** What one thread's move does to the counts. */
  lemma Moved(s: State, t: nat, p': Pc)
    requires t < |s.pcs|
    ensures var pcs' := s.pcs[t := p']; var p := s.pcs[t];
      && Total(pcs', HoldsCount) + HoldsCount(p) == Total(s.pcs, HoldsCount) + HoldsCount(p')
      && Total(pcs', Counted) + Counted(p) == Total(s.pcs, Counted) + Counted(p')
      && Total(pcs', Writes) + Writes(p) == Total(s.pcs, Writes) + Writes(p')
      && Total(pcs', Shares) + Shares(p) == Total(s.pcs, Shares) + Shares(p')
      && Shares(p) <= Total(s.pcs, Shares) && HoldsCount(p) <= Total(s.pcs, HoldsCount)
      && Entering(p) <= Total(s.pcs, Entering) && Leaving(p) <= Total(s.pcs, Leaving)
  {
    TotalUpdate(s.pcs, HoldsCount, t, p');
    TotalUpdate(s.pcs, Counted, t, p');
    TotalUpdate(s.pcs, Writes, t, p');
    TotalUpdate(s.pcs, Shares, t, p');
    TotalAtLeast(s.pcs, HoldsCount, t);
    TotalAtLeast(s.pcs, Shares, t);
    TotalAtLeast(s.pcs, Entering, t);
    TotalAtLeast(s.pcs, Leaving, t);
  }

  /** A step moves one thread, and changes count_mutex, read_cout and the writer's claim on write_mutex
      just as the meaning of that thread's place in the code changes. */
  lemma StepShape(s: State, a: Act)
    requires CanStep(s, a.thread) && HoldsCount(s.pcs[a.thread]) <= Bit(s.countHeld)
    ensures var s' := Step(s, a); var p := s.pcs[a.thread]; var p' := s'.pcs[a.thread];
      && s'.pcs == s.pcs[a.thread := p']
      && Bit(s'.countHeld) + HoldsCount(p) == Bit(s.countHeld) + HoldsCount(p')
      && s'.readCount + Counted(p) == s.readCount + Counted(p')
  {
  }

  lemma StepCounts(s: State, a: Act)
    requires Counts(s) && CanStep(s, a.thread) && Single(s, s.pcs[a.thread])
    ensures Counts(Step(s, a))
  {
    var t := a.thread;
    CountBalance(s.pcs);
    TotalAtLeast(s.pcs, HoldsCount, t);
    TotalAtLeast(s.pcs, Writes, t);
    StepShape(s, a);
    Moved(s, t, Step(s, a).pcs[t]);
  }

  lemma StepSingles(s: State, a: Act)
    requires Counts(s) && Singles(s) && CanStep(s, a.thread)
    ensures Singles(Step(s, a))
  {
    var t, s' := a.thread, Step(s, a);
    TotalAtLeast(s.pcs, Counted, t);
    forall u | 0 <= u < |s.pcs| ensures Single(s', s'.pcs[u]) {
      if u != t && s'.readCount != s.readCount {
        TotalAtLeastTwo(s.pcs, HoldsCount, if t < u then t else u, if t < u then u else t);
      }
    }
  }

  lemma StepInv(s: State, a: Act)
    requires Inv(s)
    ensures Inv(Step(s, a))
  {
    if CanStep(s, a.thread) {
      StepCounts(s, a);
      StepSingles(s, a);
    }
  }

  lemma {:induction false} RunInv(threads: nat, acts: seq<Act>)
    ensures Inv(Run(Init(threads), acts)) && |Run(Init(threads), acts).pcs| == threads
  {
    if acts == [] {
      InitInv(threads);
    } else {
      RunInv(threads, acts[..|acts| - 1]);
      StepInv(Run(Init(threads), acts[..|acts| - 1]), acts[|acts| - 1]);
    }
  }

  // ---------------------------------------------------------------- who asked for what

  datatype Call = NoCall | ReadLock | WriteLock

  /** The call with which a thread last left its idle state. */
  function LastCall(threads: nat, acts: seq<Act>, t: nat): Call {
    if acts == [] then NoCall else
    var n := |acts| - 1;
    var before := Run(Init(threads), acts[..n]);
    if acts[n].thread == t < |before.pcs| && before.pcs[t] == Idle
    then if acts[n].asWriter then WriteLock else ReadLock
    else LastCall(threads, acts[..n], t)
  }

  /** Where a thread can be that called read_lock, or write_lock, and has not yet come out of the unlock. */
  ghost predicate Serves(p: Pc, call: Call) {
    match call
    case NoCall => p == Idle
    case ReadLock => p != WLockWrite && p != Writing
    case WriteLock => p == Idle || p == WLockWrite || p == Writing
  }

  /** Every thread gets the kind of lock it asked for: a caller of write_lock only ever waits for write_mutex
      or writes, and a caller of read_lock never does. */
  lemma {:induction false} GetsWhatItAsked(threads: nat, acts: seq<Act>, t: nat)
    requires t < threads
    ensures Serves(Run(Init(threads), acts).pcs[t], LastCall(threads, acts, t))
  {
    if acts != [] {
      GetsWhatItAsked(threads, acts[..|acts| - 1], t);
    }
  }

  // ---------------------------------------------------------------- main results

  /** Inside the lock, as a reader or as a writer. */
  predicate Holds(p: Pc) { p == Reading || p == Writing }

  /** Under every schedule of any number of threads a writer overlaps neither a reader nor another writer; nobody
      at all is inside together with a caller of write_lock; and read_cout is the number of threads between
      their increment and their decrement. */
  lemma MutualExclusion(threads: nat, acts: seq<Act>)
    ensures var s := Run(Init(threads), acts);
      && s.readCount == Total(s.pcs, Counted)
      && (forall w, u :: 0 <= w < |s.pcs| && 0 <= u < |s.pcs| && w != u && s.pcs[w] == Writing ==>
           s.pcs[u] != Writing && s.pcs[u] != Reading)
      && (forall w, u :: 0 <= w < |s.pcs| && 0 <= u < |s.pcs| && w != u && Holds(s.pcs[w]) && Holds(s.pcs[u]) ==>
           LastCall(threads, acts, w) != WriteLock)
  {
    var s := Run(Init(threads), acts);
    RunInv(threads, acts);
    forall w, u | 0 <= w < |s.pcs| && 0 <= u < |s.pcs| && w != u && s.pcs[w] == Writing
      ensures !Holds(s.pcs[u])
    {
      TotalAtLeastTwo(s.pcs, Writes, if w < u then w else u, if w < u then u else w);
      TotalAtLeast(s.pcs, Shares, u);
      TotalAtLeast(s.pcs, Writes, w);
    }
    forall w | 0 <= w < |s.pcs| && LastCall(threads, acts, w) == WriteLock && Holds(s.pcs[w])
      ensures s.pcs[w] == Writing
    {
      GetsWhatItAsked(threads, acts, w);
    }
  }

  /** Whenever no thread is inside the count section, write_mutex is held exactly when somebody writes or
      read_cout is positive. */
  lemma WriteMutexMatchesCount(threads: nat, acts: seq<Act>)
    ensures var s := Run(Init(threads), acts);
      !s.countHeld ==> (s.writeHeld <==> (exists t :: 0 <= t < |s.pcs| && s.pcs[t] == Writing) || s.readCount > 0)
  {
    var s := Run(Init(threads), acts);
    RunInv(threads, acts);
    CountBalance(s.pcs);
    if Total(s.pcs, Writes) > 0 {
      var t := TotalWitness(s.pcs, Writes);
    }
    forall t | 0 <= t < |s.pcs| && s.pcs[t] == Writing ensures Total(s.pcs, Writes) > 0 {
      TotalAtLeast(s.pcs, Writes, t);
    }
  }

  /** A thread in the middle of a call or inside the lock that can take its next step. */
  ghost predicate CanProceed(s: State, t: nat) {
    t < |s.pcs| && s.pcs[t] != Idle && CanStep(s, t)
  }

  /** No deadlock: whenever some thread is not idle, some such thread can take its next step, also while
      a reader holds count_mutex and waits for write_mutex. */
  lemma NoDeadlock(threads: nat, acts: seq<Act>, t: nat) returns (u: nat)
    requires t < threads && Run(Init(threads), acts).pcs[t] != Idle
    ensures CanProceed(Run(Init(threads), acts), u)
  {
    var s := Run(Init(threads), acts);
    RunInv(threads, acts);
    u := SomeoneProceeds(s, t);
  }

  lemma SomeoneProceeds(s: State, t: nat) returns (u: nat)
    requires Inv(s) && t < |s.pcs| && s.pcs[t] != Idle
    ensures CanProceed(s, u) && (CanStep(s, t) ==> u == t)
  {
    CountBalance(s.pcs);
    if CanStep(s, t) {
      u := t;
    } else if s.countHeld {
      u := TotalWitness(s.pcs, HoldsCount);
      if !CanStep(s, u) {
        // u is the first reader; nobody shares write_mutex yet, so a writer holds it
        TotalAtLeast(s.pcs, Entering, u);
        u := TotalWitness(s.pcs, Writes);
      }
    } else if Total(s.pcs, Writes) > 0 {
      u := TotalWitness(s.pcs, Writes);
    } else {
      u := TotalWitness(s.pcs, Shares);
    }
  }

  /** Steps a thread still has to take before it is idle again. */
  function Remaining(p: Pc): nat {
    match p
    case Idle => 0
    case RLockCount => 10
    case RIncrement => 9
    case RTest => 8
    case RLockWrite => 7
    case RUnlockCount => 6
    case Reading => 5
    case UDecrement => 4
    case UTest => 3
    case UUnlockWrite => 2
    case UUnlockCount => 1
    case WLockWrite => 2
    case Writing => 1
  }

  /** A schedule that starts no new call and never picks a blocked thread. */
  ghost predicate Draining(s: State, acts: seq<Act>)
    decreases |acts|
  {
    acts == [] || (CanProceed(s, acts[0].thread) && Draining(Step(s, acts[0]), acts[1..]))
  }

  function RunOn(s: State, acts: seq<Act>): State
    decreases |acts|
  {
    if acts == [] then s else RunOn(Step(s, acts[0]), acts[1..])
  }

  ghost predicate AllIdle(s: State) {
    forall t :: 0 <= t < |s.pcs| ==> s.pcs[t] == Idle
  }

  lemma StepRemaining(s: State, a: Act)
    requires CanProceed(s, a.thread)
    ensures Total(Step(s, a).pcs, Remaining) < Total(s.pcs, Remaining)
  {
    var t, s' := a.thread, Step(s, a);
    assert s'.pcs == s.pcs[t := s'.pcs[t]];
    TotalUpdate(s.pcs, Remaining, t, s'.pcs[t]);
  }

  /** Once no new calls start, every schedule that keeps running threads which can run is over after
      boundedly many steps, and it can only be over with every thread idle. */
  lemma {:induction false} Drains(s: State, acts: seq<Act>)
    requires Inv(s) && Draining(s, acts)
    ensures |acts| <= Total(s.pcs, Remaining)
    ensures (exists u :: CanProceed(RunOn(s, acts), u)) || AllIdle(RunOn(s, acts))
    decreases |acts|
  {
    if acts == [] {
      if t :| 0 <= t < |s.pcs| && s.pcs[t] != Idle {
        var u := SomeoneProceeds(s, t);
      }
    } else {
      StepInv(s, acts[0]);
      StepRemaining(s, acts[0]);
      Drains(Step(s, acts[0]), acts[1..]);
    }
  }

  /** Where a thread is that still has to get in. */
  predicate GettingIn(p: Pc) {
    p.RLockCount? || p.RIncrement? || p.RTest? || p.RLockWrite? || p.RUnlockCount? || p.WLockWrite?
  }

  /** A schedule of the others and of the thread itself that lets it in. */
  lemma {:induction false} GetsIn(s: State, t: nat) returns (more: seq<Act>)
    requires Inv(s) && t < |s.pcs| && GettingIn(s.pcs[t])
    ensures |RunOn(s, more).pcs| == |s.pcs|
    ensures RunOn(s, more).pcs[t] == if s.pcs[t] == WLockWrite then Writing else Reading
    decreases Total(s.pcs, Remaining)
  {
    var u := SomeoneProceeds(s, t);
    var a := Act(u, false);
    var s' := Step(s, a);
    StepInv(s, a);
    StepRemaining(s, a);
    var rest := [];
    if GettingIn(s'.pcs[t]) {
      rest := GetsIn(s', t);
    }
    more := [a] + rest;
    assert more[1..] == rest;
  }

  lemma {:induction false} RunsOn(s: State, acts: seq<Act>, more: seq<Act>)
    ensures Run(s, acts + more) == RunOn(Run(s, acts), more)
    decreases |more|
  {
    if more == [] {
      assert acts + more == acts;
    } else {
      var next := acts + [more[0]];
      assert next[..|acts|] == acts && acts + more == next + more[1..];
      RunsOn(s, next, more[1..]);
    }
  }

  /** No call is shut out: in every reachable state, whatever the other threads are doing, a call of read_lock can
      still come to read, and one of write_lock to write. */
  lemma EveryCallGetsIn(threads: nat, acts: seq<Act>, t: nat, asWriter: bool) returns (more: seq<Act>)
    requires t < threads && Run(Init(threads), acts).pcs[t] == Idle
    ensures Run(Init(threads), acts + [Act(t, asWriter)] + more).pcs[t] == if asWriter then Writing else Reading
  {
    var called := acts + [Act(t, asWriter)];
    assert called[..|acts|] == acts;
    RunInv(threads, called);
    more := GetsIn(Run(Init(threads), called), t);
    RunsOn(Init(threads), called, more);
  }

  /** And at once when nobody holds write_mutex: write_lock is a single lock. */
  lemma WriterEntersFree(threads: nat, acts: seq<Act>, t: nat, any: bool)
    requires t < threads && Run(Init(threads), acts).pcs[t] == Idle && !Run(Init(threads), acts).writeHeld
    ensures Run(Init(threads), acts + [Act(t, true), Act(t, any)]).pcs[t] == Writing
  {
    var called := acts + [Act(t, true)];
    var locked := acts + [Act(t, true), Act(t, any)];
    assert called[..|acts|] == acts && locked[..|acts| + 1] == called;
  }

  /** k readers inside, the other threads outside. */
  function Sharing(threads: nat, k: nat): State {
    State(k, false, k > 0, seq(threads, t => if t < k then Reading else Idle))
  }

  lemma Extend(s: State, acts: seq<Act>, t: nat) returns (acts': seq<Act>)
    ensures Run(s, acts') == Step(Run(s, acts), Act(t, false))
  {
    acts' := acts + [Act(t, false)];
    assert acts'[..|acts|] == acts;
  }

  /** With the count section free and write_mutex either free or the readers', a reader gets in. */
  lemma ReaderEnters(s0: State, acts: seq<Act>, s: State, t: nat) returns (acts': seq<Act>)
    requires Run(s0, acts) == s && t < |s.pcs| && s.pcs[t] == Idle && !s.countHeld && s.readCount >= 0
    requires s.writeHeld == (s.readCount > 0)
    ensures Run(s0, acts') == s.(readCount := s.readCount + 1, writeHeld := true, pcs := s.pcs[t := Reading])
  {
    acts' := Extend(s0, acts, t);
    acts' := Extend(s0, acts', t);
    acts' := Extend(s0, acts', t);
    assert Run(s0, acts') == s.(countHeld := true, readCount := s.readCount + 1, pcs := s.pcs[t := RTest]);
    acts' := Extend(s0, acts', t);
    if s.readCount == 0 {
      acts' := Extend(s0, acts', t);
    }
    acts' := Extend(s0, acts', t);
  }

  /** The lock does share: any number of readers can be inside together. */
  lemma {:induction false} ReadersShare(threads: nat, k: nat) returns (acts: seq<Act>)
    requires k <= threads
    ensures Run(Init(threads), acts) == Sharing(threads, k)
  {
    if k == 0 {
      acts := [];
      assert Init(threads).pcs == Sharing(threads, 0).pcs;
    } else {
      acts := ReadersShare(threads, k - 1);
      acts := ReaderEnters(Init(threads), acts, Sharing(threads, k - 1), k - 1);
      assert Run(Init(threads), acts).pcs == Sharing(threads, k).pcs;
    }
  }
}
