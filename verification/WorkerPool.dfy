/** The one-slot worker pool (Linuxlhq/004Concurrent/thread/posix/009prime_cond.c): main posts the numbers
    left..right one at a time in the global `num`, the workers take them, and both sides sleep on one
    condition variable.  0 means the slot is empty and -1 tells the workers to exit.

    A condition wait is two steps: releasing the mutex while falling asleep, and locking it again once
    woken.  signal wakes one sleeper of the scheduler's choice if there is any, broadcast wakes all, and
    a sleeper may also wake up for no reason. */
module WorkerPool {
  import opened Basics
  import opened Tally

  /** What main does while its last number is still in the slot.  `Relock` is lines 61-65 as written:
      main locks the mutex it already holds.  `Yield` is the order shown in the comment at lines 44-48:
      unlock, let others run, lock again. */
  datatype FinalWait = Relock | Yield

  datatype Config = Config(left: int, right: int, wait: FinalWait)

  datatype MainPc =
    | PLock          // lock the mutex
    | PTest          // while (num != 0)
    | PAsleep        // in pthread_cond_wait
    | PRelock        // woken, locking the mutex again
    | PPost          // num = i
    | PSignal        // pthread_cond_signal
    | PUnlock        // unlock; ++i
    | FLock          // lock the mutex before the final wait
    | FTest          // while (num != 0)
    | FSelfLock      // locking a mutex it already holds
    | FRelease       // unlock and yield
    | FRelock        // lock again
    | FPost          // num = -1
    | FBroadcast     // pthread_cond_broadcast
    | FUnlock        // unlock
    | Join           // waiting for every worker to exit
    | Finished

  datatype WorkerPc =
    | WLock          // lock the mutex
    | WTest          // while (num == 0)
    | WAsleep        // in pthread_cond_wait
    | WRelock        // woken, locking the mutex again
    | WCheck         // if (num == -1)
    | WTake          // i = num
    | WClear(i: int)      // num = 0
    | WBroadcast(i: int)  // pthread_cond_broadcast
    | WUnlock(i: int)     // unlock
    | WWork(i: int)       // working on i outside the critical section
    | WLeave         // unlock before break
    | WExited

  datatype State = State(num: int, held: bool, next: int, main: MainPc, workers: seq<WorkerPc>, taken: seq<int>)

  /** `wake` is the sleeper that a signal wakes. */
  datatype Act = MainStep(wake: nat) | WorkerStep(t: nat) | MainSpurious | WorkerSpurious(t: nat)

  ghost predicate ValidConfig(c: Config) { 0 < c.left }

  function Init(c: Config, threads: nat): State {
    State(0, false, c.left, if c.left <= c.right then PLock else FLock, seq(threads, _ => WLock), [])
  }

  predicate AllExited(ws: seq<WorkerPc>) {
    forall t :: 0 <= t < |ws| ==> ws[t] == WExited
  }

  predicate SomeAsleep(ws: seq<WorkerPc>) {
    exists t :: 0 <= t < |ws| && ws[t] == WAsleep
  }

  predicate CanStep(s: State, a: Act) {
    match a
    case MainStep(wake) =>
      (match s.main
       case PLock => !s.held
       case PAsleep => false
       case PRelock => !s.held
       case PSignal => SomeAsleep(s.workers) ==> wake < |s.workers| && s.workers[wake] == WAsleep
       case FLock => !s.held
       case FSelfLock => false
       case FRelock => !s.held
       case Join => AllExited(s.workers)
       case Finished => false
       case _ => true)
    case WorkerStep(t) =>
      t < |s.workers| &&
      (match s.workers[t]
       case WLock => !s.held
       case WAsleep => false
       case WRelock => !s.held
       case WExited => false
       case _ => true)
    case MainSpurious => s.main == PAsleep
    case WorkerSpurious(t) => t < |s.workers| && s.workers[t] == WAsleep
  }

  function WakeMain(m: MainPc): MainPc { if m == PAsleep then PRelock else m }

  function WakeWorker(w: WorkerPc): WorkerPc { if w == WAsleep then WRelock else w }

  function WakeAll(ws: seq<WorkerPc>): (r: seq<WorkerPc>)
    ensures |r| == |ws|
  {
    seq(|ws|, t requires 0 <= t < |ws| => WakeWorker(ws[t]))
  }

  function MainNext(c: Config, s: State, wake: nat): State {
    match s.main
    case PLock => s.(held := true, main := PTest)
    case PTest => if s.num != 0 then s.(held := false, main := PAsleep) else s.(main := PPost)
    case PRelock => s.(held := true, main := PTest)
    case PPost => s.(num := s.next, main := PSignal)
    case PSignal =>
      if wake < |s.workers|
      then s.(workers := s.workers[wake := WakeWorker(s.workers[wake])], main := PUnlock)
      else s.(main := PUnlock)
    case PUnlock => s.(held := false, next := s.next + 1, main := if s.next + 1 <= c.right then PLock else FLock)
    case FLock => s.(held := true, main := FTest)
    case FTest =>
      if s.num == 0 then s.(main := FPost)
      else if c.wait == Relock then s.(main := FSelfLock)
      else s.(main := FRelease)
    case FRelease => s.(held := false, main := FRelock)
    case FRelock => s.(held := true, main := FTest)
    case FPost => s.(num := -1, main := FBroadcast)
    case FBroadcast => s.(workers := WakeAll(s.workers), main := FUnlock)
    case FUnlock => s.(held := false, main := Join)
    case Join => s.(main := Finished)
    case _ => s
  }

  function WorkerNext(s: State, t: nat): State
    requires t < |s.workers|
  {
    match s.workers[t]
    case WLock => s.(held := true, workers := s.workers[t := WTest])
    case WTest =>
      if s.num == 0 then s.(held := false, workers := s.workers[t := WAsleep])
      else s.(workers := s.workers[t := WCheck])
    case WRelock => s.(held := true, workers := s.workers[t := WTest])
    case WCheck => s.(workers := s.workers[t := if s.num == -1 then WLeave else WTake])
    case WTake => s.(workers := s.workers[t := WClear(s.num)], taken := s.taken + [s.num])
    case WClear(i) => s.(num := 0, workers := s.workers[t := WBroadcast(i)])
    case WBroadcast(i) => s.(workers := WakeAll(s.workers)[t := WUnlock(i)], main := WakeMain(s.main))
    case WUnlock(i) => s.(held := false, workers := s.workers[t := WWork(i)])
    case WWork(_) => s.(workers := s.workers[t := WLock])
    case WLeave => s.(held := false, workers := s.workers[t := WExited])
    case _ => s
  }

  /** One step of the scheduler's choice; a choice that is not possible changes nothing. */
  function Step(c: Config, s: State, a: Act): State {
    if !CanStep(s, a) then s else
    match a
    case MainStep(wake) => MainNext(c, s, wake)
    case WorkerStep(t) => WorkerNext(s, t)
    case MainSpurious => s.(main := PRelock)
    case WorkerSpurious(t) => s.(workers := s.workers[t := WRelock])
  }

  function Run(c: Config, s: State, acts: seq<Act>): (r: State)
    ensures |r.workers| == |s.workers|
  {
    if acts == [] then s else Step(c, Run(c, s, acts[..|acts| - 1]), acts[|acts| - 1])
  }

  /** The pool's globals and the threads' positions, updated in place. */
  class Pool {
    const c: Config
    var num: int
    var held: bool
    var next: int
    var main: MainPc
    var workers: seq<WorkerPc>
    var taken: seq<int>

    ghost function View(): State reads this {
      State(num, held, next, main, workers, taken)
    }

    constructor (c: Config, threads: nat)
      ensures this.c == c && View() == Init(c, threads)
    {
      this.c := c;
      num, held, next, taken := 0, false, c.left, [];
      main := if c.left <= c.right then PLock else FLock;
      workers := seq(threads, _ => WLock);
    }

    method MainMoves(wake: nat) returns (moved: bool)
      modifies this
      ensures View() == Step(c, old(View()), MainStep(wake))
      ensures moved == CanStep(old(View()), MainStep(wake))
    {
      moved := true;
      match main
      case PLock =>
        if held { return false; }
        held, main := true, PTest;
      case PTest =>
        if num != 0 { held, main := false, PAsleep; } else { main := PPost; }
      case PAsleep =>
        moved := false;
      case PRelock =>
        if held { return false; }
        held, main := true, PTest;
      case PPost =>
        num, main := next, PSignal;
      case PSignal =>
        if SomeAsleep(workers) && !(wake < |workers| && workers[wake] == WAsleep) { return false; }
        if wake < |workers| { workers := workers[wake := WakeWorker(workers[wake])]; }
        main := PUnlock;
      case PUnlock =>
        held, next := false, next + 1;
        main := if next <= c.right then PLock else FLock;
      case FLock =>
        if held { return false; }
        held, main := true, FTest;
      case FTest =>
        main := if num == 0 then FPost else if c.wait == Relock then FSelfLock else FRelease;
      case FSelfLock =>
        moved := false;
      case FRelease =>
        held, main := false, FRelock;
      case FRelock =>
        if held { return false; }
        held, main := true, FTest;
      case FPost =>
        num, main := -1, FBroadcast;
      case FBroadcast =>
        workers := WakeAll(workers);
        main := FUnlock;
      case FUnlock =>
        held, main := false, Join;
      case Join =>
        if !AllExited(workers) { return false; }
        main := Finished;
      case Finished =>
        moved := false;
    }

    method WorkerMoves(t: nat) returns (moved: bool)
      modifies this
      ensures View() == Step(c, old(View()), WorkerStep(t))
      ensures moved == CanStep(old(View()), WorkerStep(t))
    {
      if t >= |workers| { return false; }
      moved := true;
      match workers[t]
      case WLock =>
        if held { return false; }
        held, workers := true, workers[t := WTest];
      case WTest =>
        if num == 0 { held, workers := false, workers[t := WAsleep]; } else { workers := workers[t := WCheck]; }
      case WAsleep =>
        return false;
      case WRelock =>
        if held { return false; }
        held, workers := true, workers[t := WTest];
      case WCheck =>
        workers := workers[t := if num == -1 then WLeave else WTake];
      case WTake =>
        taken, workers := taken + [num], workers[t := WClear(num)];
      case WClear(i) =>
        num, workers := 0, workers[t := WBroadcast(i)];
      case WBroadcast(i) =>
        workers := WakeAll(workers)[t := WUnlock(i)];
        main := WakeMain(main);
      case WUnlock(i) =>
        held, workers := false, workers[t := WWork(i)];
      case WWork(_) =>
        workers := workers[t := WLock];
      case WLeave =>
        held, workers := false, workers[t := WExited];
      case WExited =>
        return false;
    }

    /** A whole run, by the choices of the scheduler. */
    method Schedule(acts: seq<Act>)
      modifies this
      ensures View() == Run(c, old(View()), acts)
    {
      ghost var s0 := View();
      assert acts[..0] == [];
      for i := 0 to |acts|
        invariant View() == Run(c, s0, acts[..i])
      {
        assert acts[..i + 1][..i] == acts[..i];
        match acts[i] {
          case MainStep(wake) =>
            var _ := MainMoves(wake);
          case WorkerStep(t) =>
            var _ := WorkerMoves(t);
          case MainSpurious =>
            if main == PAsleep { main := PRelock; }
          case WorkerSpurious(t) =>
            if t < |workers| && workers[t] == WAsleep { workers := workers[t := WRelock]; }
        }
      }
      assert acts[..|acts|] == acts;
    }
  }

  // ---------------------------------------------------------------- what each place in the code means

  /** Main holds the mutex here. */
  predicate MainInside(m: MainPc) {
    m.PTest? || m.PPost? || m.PSignal? || m.PUnlock? || m.FTest? || m.FSelfLock? || m.FRelease?
    || m.FPost? || m.FBroadcast? || m.FUnlock?
  }

  /** A worker holds the mutex here. */
  function Inside(w: WorkerPc): nat {
    Bit(!w.WLock? && !w.WAsleep? && !w.WRelock? && !w.WWork? && !w.WExited?)
  }

  function IsAsleep(w: WorkerPc): nat { Bit(w.WAsleep?) }

  function IsAwake(w: WorkerPc): nat { Bit(!w.WAsleep? && !w.WExited?) }

  function IsClear(w: WorkerPc): nat { Bit(w.WClear?) }

  function IsBroadcast(w: WorkerPc): nat { Bit(w.WBroadcast?) }

  /** Main has posted -1. */
  predicate Told(m: MainPc) {
    m.FBroadcast? || m.FUnlock? || m.Join? || m.Finished?
  }

  predicate MainPosting(m: MainPc) {
    m.PLock? || m.PTest? || m.PAsleep? || m.PRelock? || m.PPost? || m.PSignal? || m.PUnlock?
  }

  /** The numbers from..to-1. */
  function Range(from: int, to: int): (r: seq<int>)
    ensures |r| == if to > from then to - from else 0
  {
    if to <= from then [] else seq(to - from, k => from + k)
  }

  /** The first number that has not been posted yet. */
  function Posted(s: State): int {
    if s.main.PSignal? || s.main.PUnlock? then s.next + 1 else s.next
  }

  /** The occupied slot, unless a worker has just taken its number and is about to clear it. */
  function Slot(s: State): seq<int> {
    if s.num > 0 && Total(s.workers, IsClear) == 0 then [s.num] else []
  }

  /** Who holds the mutex. */
  ghost predicate MutexInv(s: State) {
    Bit(MainInside(s.main)) + Total(s.workers, Inside) == Bit(s.held)
  }

  /** How main's position, its counter and the slot belong together. */
  ghost predicate MainInv(c: Config, s: State) {
    && c.left <= s.next
    && (MainPosting(s.main) ==> s.next <= c.right)
    && (!MainPosting(s.main) ==> s.next == if c.left <= c.right then c.right + 1 else c.left)
    && (s.main.PPost? || s.main.FPost? ==> s.num == 0)
    && (s.main.PSignal? || s.main.PUnlock? ==> s.num == s.next)
    && (Told(s.main) ==> s.num == -1)
    && (!Told(s.main) ==> s.num >= 0)
    && (s.main.FSelfLock? ==> c.wait == Relock && s.num > 0)
    && (s.main.FRelease? || s.main.FRelock? ==> c.wait == Yield)
    && (s.main.Finished? ==> AllExited(s.workers))
  }

  /** What a worker's position says about the slot. */
  ghost predicate WorkerInv(s: State, w: WorkerPc) {
    match w
    case WCheck => s.num != 0
    case WTake => s.num > 0
    case WClear(i) => s.num == i && i > 0
    case WBroadcast(_) => s.num == 0
    case WLeave => s.num == -1
    case WExited => s.num == -1
    case _ => true
  }

  ghost predicate WorkersInv(s: State) {
    forall t :: 0 <= t < |s.workers| ==> WorkerInv(s, s.workers[t])
  }

  /** The hand-off: takes so far, then the slot, are the numbers posted so far. */
  ghost predicate HandOffInv(c: Config, s: State) {
    s.taken + Slot(s) == Range(c.left, Posted(s))
  }

  /** No lost wakeup. */
  ghost predicate WakeInv(s: State) {
    && (s.num > 0 && !s.main.PSignal? ==> Total(s.workers, IsAwake) > 0)
    && (s.num == 0 && s.main.PAsleep? ==> Total(s.workers, IsBroadcast) > 0)
    && (s.num == -1 && !s.main.FBroadcast? ==> Total(s.workers, IsAsleep) == 0)
  }

  ghost predicate Inv(c: Config, s: State) {
    MutexInv(s) && MainInv(c, s) && WorkersInv(s) && HandOffInv(c, s) && WakeInv(s)
  }

  // ---------------------------------------------------------------- the mutex

  /** While main is inside no worker is. */
  lemma MainAlone(s: State)
    requires MutexInv(s) && (MainInside(s.main) || !s.held)
    ensures forall u :: 0 <= u < |s.workers| ==> Inside(s.workers[u]) == 0
  {
    forall u | 0 <= u < |s.workers| ensures Inside(s.workers[u]) == 0 {
      TotalAtLeast(s.workers, Inside, u);
    }
  }

  /** While a worker is inside nobody else is. */
  lemma WorkerAlone(s: State, t: nat)
    requires MutexInv(s) && t < |s.workers| && Inside(s.workers[t]) == 1
    ensures s.held && !MainInside(s.main)
    ensures forall u :: 0 <= u < |s.workers| && u != t ==> Inside(s.workers[u]) == 0
  {
    TotalAtLeast(s.workers, Inside, t);
    forall u | 0 <= u < |s.workers| && u != t ensures Inside(s.workers[u]) == 0 {
      TotalAtLeastTwo(s.workers, Inside, if t < u then t else u, if t < u then u else t);
    }
  }

  /** Waking everybody up changes no count but those of the sleepers and of those awake. */
  lemma WakeAllTotals(ws: seq<WorkerPc>)
    ensures Total(WakeAll(ws), Inside) == Total(ws, Inside)
    ensures Total(WakeAll(ws), IsClear) == Total(ws, IsClear)
    ensures Total(WakeAll(ws), IsBroadcast) == Total(ws, IsBroadcast)
    ensures Total(WakeAll(ws), IsAsleep) == 0
  {
    TotalSame(ws, WakeAll(ws), Inside);
    TotalSame(ws, WakeAll(ws), IsClear);
    TotalSame(ws, WakeAll(ws), IsBroadcast);
    TotalZero(WakeAll(ws), IsAsleep);
  }

  /** The workers after a step: at most one changed place, after waking everybody on a broadcast. */
  function Woken(s: State, a: Act): seq<WorkerPc> {
    if (a.WorkerStep? && a.t < |s.workers| && s.workers[a.t].WBroadcast?) || (a.MainStep? && s.main.FBroadcast?)
    then WakeAll(s.workers) else s.workers
  }

  lemma WorkerMoved(c: Config, s: State, a: Act, t: nat, w: WorkerPc -> nat)
    requires CanStep(s, a) && t < |s.workers|
    requires (a.WorkerStep? || a.WorkerSpurious?) && a.t == t
    ensures Step(c, s, a).workers == Woken(s, a)[t := Step(c, s, a).workers[t]]
    ensures Total(Step(c, s, a).workers, w) + w(Woken(s, a)[t]) ==
            Total(Woken(s, a), w) + w(Step(c, s, a).workers[t])
  {
    TotalUpdate(Woken(s, a), w, t, Step(c, s, a).workers[t]);
  }

  lemma StepMutexMain(c: Config, s: State, wake: nat)
    requires MutexInv(s) && CanStep(s, MainStep(wake))
    ensures MutexInv(MainNext(c, s, wake))
  {
    WakeAllTotals(s.workers);
    if s.main.PSignal? && wake < |s.workers| {
      TotalUpdate(s.workers, Inside, wake, WakeWorker(s.workers[wake]));
    }
  }

  lemma StepMutexWorker(c: Config, s: State, a: Act)
    requires MutexInv(s) && CanStep(s, a) && (a.WorkerStep? || a.WorkerSpurious?)
    ensures MutexInv(Step(c, s, a))
  {
    if s.workers[a.t].WBroadcast? {
      WakeAllTotals(s.workers);
    }
    WorkerMoved(c, s, a, a.t, Inside);
    TotalAtLeast(s.workers, Inside, a.t);
  }

  lemma MainKeepsMain(c: Config, s: State, wake: nat)
    requires ValidConfig(c) && MainInv(c, s) && CanStep(s, MainStep(wake))
    ensures MainInv(c, MainNext(c, s, wake))
  {
  }

  lemma WorkerKeepsMain(c: Config, s: State, t: nat)
    requires ValidConfig(c) && MutexInv(s) && MainInv(c, s) && WorkersInv(s) && CanStep(s, WorkerStep(t))
    ensures MainInv(c, WorkerNext(s, t))
  {
    assert WorkerInv(s, s.workers[t]);
    if Inside(s.workers[t]) == 1 {
      WorkerAlone(s, t);
    }
  }

  lemma StepMain(c: Config, s: State, a: Act)
    requires ValidConfig(c) && MutexInv(s) && MainInv(c, s) && WorkersInv(s) && CanStep(s, a)
    ensures MainInv(c, Step(c, s, a))
  {
    match a
    case MainStep(wake) => MainKeepsMain(c, s, wake);
    case WorkerStep(t) => WorkerKeepsMain(c, s, t);
    case _ =>
  }

  lemma StepWorkers(c: Config, s: State, a: Act)
    requires ValidConfig(c) && MutexInv(s) && MainInv(c, s) && WorkersInv(s) && CanStep(s, a)
    ensures WorkersInv(Step(c, s, a))
  {
    var s' := Step(c, s, a);
    forall u | 0 <= u < |s'.workers| ensures WorkerInv(s', s'.workers[u]) {
      assert WorkerInv(s, s.workers[u]);
      if a.MainStep? && MainInside(s.main) {
        MainAlone(s);
      } else if a.WorkerStep? && Inside(s.workers[a.t]) == 1 {
        WorkerAlone(s, a.t);
      }
    }
  }

  lemma RangeGrows(from: int, to: int)
    requires from <= to
    ensures Range(from, to + 1) == Range(from, to) + [to]
  {
  }

  lemma MainKeepsSlot(c: Config, s: State, wake: nat)
    requires MutexInv(s) && MainInv(c, s) && CanStep(s, MainStep(wake)) && !s.main.PPost?
    ensures Slot(MainNext(c, s, wake)) == Slot(s)
  {
    WakeAllTotals(s.workers);
    if s.main.PSignal? && wake < |s.workers| {
      TotalUpdate(s.workers, IsClear, wake, WakeWorker(s.workers[wake]));
    }
  }

  lemma StepHandOffMain(c: Config, s: State, wake: nat)
    requires MutexInv(s) && MainInv(c, s) && HandOffInv(c, s) && CanStep(s, MainStep(wake)) && ValidConfig(c)
    ensures HandOffInv(c, MainNext(c, s, wake))
  {
    if s.main.PPost? {
      MainAlone(s);
      TotalZero(s.workers, IsClear);
      RangeGrows(c.left, s.next);
    } else {
      MainKeepsSlot(c, s, wake);
    }
  }

  /** Reading the slot moves its number to the takes. */
  lemma TakeKeepsNumbers(c: Config, s: State, t: nat)
    requires MutexInv(s) && t < |s.workers| && s.workers[t].WTake? && s.num > 0
    ensures WorkerNext(s, t).taken + Slot(WorkerNext(s, t)) == s.taken + Slot(s)
  {
    WorkerAlone(s, t);
    TotalZero(s.workers, IsClear);
    TotalAtLeast(WorkerNext(s, t).workers, IsClear, t);
  }

  /** A worker's step leaves takes-then-slot as it is: it moves the slot's number to the takes when it
      reads it, and clears a slot that no longer counts. */
  lemma WorkerKeepsNumbers(c: Config, s: State, a: Act)
    requires MutexInv(s) && WorkersInv(s) && CanStep(s, a) && (a.WorkerStep? || a.WorkerSpurious?)
    ensures Step(c, s, a).taken + Slot(Step(c, s, a)) == s.taken + Slot(s)
  {
    var t := a.t;
    assert WorkerInv(s, s.workers[t]);
    if s.workers[t].WTake? {
      TakeKeepsNumbers(c, s, t);
    } else {
      OtherKeepsNumbers(c, s, a);
    }
  }

  lemma OtherKeepsNumbers(c: Config, s: State, a: Act)
    requires CanStep(s, a) && (a.WorkerStep? || a.WorkerSpurious?)
    requires WorkerInv(s, s.workers[a.t]) && !s.workers[a.t].WTake?
    ensures Step(c, s, a).taken == s.taken && Slot(Step(c, s, a)) == Slot(s)
  {
    if s.workers[a.t].WBroadcast? {
      WakeAllTotals(s.workers);
    }
    WorkerMoved(c, s, a, a.t, IsClear);
    TotalAtLeast(s.workers, IsClear, a.t);
  }

  lemma StepHandOff(c: Config, s: State, a: Act)
    requires ValidConfig(c) && MutexInv(s) && MainInv(c, s) && WorkersInv(s) && HandOffInv(c, s) && CanStep(s, a)
    ensures HandOffInv(c, Step(c, s, a))
  {
    match a
    case MainStep(wake) => StepHandOffMain(c, s, wake);
    case MainSpurious =>
    case _ =>
      WorkerKeepsNumbers(c, s, a);
  }

  lemma StepWakeMain(c: Config, s: State, wake: nat)
    requires ValidConfig(c) && |s.workers| > 0 && CanStep(s, MainStep(wake))
    requires MutexInv(s) && MainInv(c, s) && WorkersInv(s) && WakeInv(s)
    ensures WakeInv(MainNext(c, s, wake))
  {
    WakeAllTotals(s.workers);
    if s.main.PSignal? {
      SignalWakes(s, wake);
    }
  }

  lemma StepWakeWorker(c: Config, s: State, a: Act)
    requires CanStep(s, a) && (a.WorkerStep? || a.WorkerSpurious?)
    requires MutexInv(s) && WorkersInv(s) && WakeInv(s)
    ensures WakeInv(Step(c, s, a))
  {
    var t := a.t;
    assert WorkerInv(s, s.workers[t]);
    WakeAllTotals(s.workers);
    WorkerMoved(c, s, a, t, IsAwake);
    WorkerMoved(c, s, a, t, IsAsleep);
    WorkerMoved(c, s, a, t, IsBroadcast);
    if Inside(s.workers[t]) == 1 {
      WorkerAlone(s, t);
      TotalAtLeast(Step(c, s, a).workers, IsAwake, t);
    }
  }

  /** After main's signal some worker is awake: the one it woke, or any if none was asleep. */
  lemma SignalWakes(s: State, wake: nat)
    requires |s.workers| > 0 && s.main.PSignal? && WorkersInv(s) && s.num > 0
    requires CanStep(s, MainStep(wake))
    ensures var ws := if wake < |s.workers| then s.workers[wake := WakeWorker(s.workers[wake])] else s.workers;
      Total(ws, IsAwake) > 0
  {
    var ws := if wake < |s.workers| then s.workers[wake := WakeWorker(s.workers[wake])] else s.workers;
    var t := if SomeAsleep(s.workers) then wake else 0;
    assert WorkerInv(s, s.workers[t]);
    TotalAtLeast(ws, IsAwake, t);
  }

  lemma InitInv(c: Config, threads: nat)
    requires ValidConfig(c)
    ensures Inv(c, Init(c, threads))
  {
    var ws := Init(c, threads).workers;
    TotalZero(ws, Inside);
    TotalZero(ws, IsClear);
  }

  lemma StepInv(c: Config, s: State, a: Act)
    requires ValidConfig(c) && |s.workers| > 0 && Inv(c, s)
    ensures Inv(c, Step(c, s, a))
  {
    if CanStep(s, a) {
      StepMain(c, s, a);
      StepWorkers(c, s, a);
      StepHandOff(c, s, a);
      match a
      case MainStep(wake) => StepMutexMain(c, s, wake); StepWakeMain(c, s, wake);
      case MainSpurious =>
      case _ => StepMutexWorker(c, s, a); StepWakeWorker(c, s, a);
    }
  }

  lemma {:induction false} RunInv(c: Config, threads: nat, acts: seq<Act>)
    requires ValidConfig(c) && threads > 0
    ensures Inv(c, Run(c, Init(c, threads), acts))
  {
    if acts == [] {
      InitInv(c, threads);
    } else {
      RunInv(c, threads, acts[..|acts| - 1]);
      StepInv(c, Run(c, Init(c, threads), acts[..|acts| - 1]), acts[|acts| - 1]);
    }
  }

  // ---------------------------------------------------------------- main results

  /** Exactly-once hand-off, under every schedule: the numbers taken so far, in order, followed by the
      occupied slot are the numbers posted so far; and once a worker has exited or main has finished
      every number has been taken. */
  lemma HandedOverExactlyOnce(c: Config, threads: nat, acts: seq<Act>)
    requires ValidConfig(c) && threads > 0
    ensures var s := Run(c, Init(c, threads), acts);
      && s.taken + Slot(s) == Range(c.left, Posted(s))
      && (s.main.Finished? || (exists t :: 0 <= t < threads && s.workers[t].WExited?) ==>
           s.taken == Range(c.left, c.right + 1))
  {
    var s := Run(c, Init(c, threads), acts);
    RunInv(c, threads, acts);
    if t :| 0 <= t < threads && s.workers[t].WExited? {
      assert WorkerInv(s, s.workers[t]);
    }
  }

  /** No lost wakeup, under every schedule: while a number is posted some worker is awake (or about to
      be woken by main's signal), while the slot is empty main is awake (or about to be woken by the
      broadcast of the worker that emptied it), and once main has broadcast -1 nobody sleeps. */
  lemma NoLostWakeup(c: Config, threads: nat, acts: seq<Act>)
    requires ValidConfig(c) && threads > 0
    ensures var s := Run(c, Init(c, threads), acts);
      && (s.num > 0 && !s.main.PSignal? ==> exists t :: 0 <= t < threads && IsAwake(s.workers[t]) == 1)
      && (s.num == 0 && s.main.PAsleep? ==> exists t :: 0 <= t < threads && s.workers[t].WBroadcast?)
      && (s.num == -1 && !s.main.FBroadcast? ==> !s.main.PAsleep? && !SomeAsleep(s.workers))
  {
    var s := Run(c, Init(c, threads), acts);
    RunInv(c, threads, acts);
    if s.num > 0 && !s.main.PSignal? {
      var t := TotalWitness(s.workers, IsAwake);
    }
    if s.num == 0 && s.main.PAsleep? {
      var t := TotalWitness(s.workers, IsBroadcast);
    }
    if s.num == -1 && !s.main.FBroadcast? && SomeAsleep(s.workers) {
      var t :| 0 <= t < |s.workers| && s.workers[t] == WAsleep;
      TotalAtLeast(s.workers, IsAsleep, t);
    }
  }

  /** Main has found its last number still in the slot and, as the final wait is written, is about to
      lock the mutex it holds. */
  predicate Doomed(c: Config, s: State) {
    s.main.FSelfLock? || (c.wait == Relock && s.main.FTest? && s.num != 0)
  }

  /** How much work a worker has before it can take a number; `n` is the number of workers. */
  function WorkerRank(n: nat): WorkerPc -> nat {
    (w: WorkerPc) =>
      match w
      case WClear(_) => 6 * n + 10
      case WBroadcast(_) => 6 * n + 9
      case WUnlock(_) => 8
      case WWork(_) => 7
      case WLock => 6
      case WRelock => 6
      case WTest => 5
      case WCheck => 4
      case WTake => 3
      case WLeave => 2
      case WAsleep => 0
      case WExited => 0
  }

  function MainRank(c: Config, s: State, n: nat): int {
    match s.main
    case Finished => 0
    case Join => 2
    case FUnlock => 3
    case FBroadcast => 6 * n + 8
    case FPost => 6 * n + 9
    case FTest => if s.num == 0 then 6 * n + 10 else 6 * n + 13
    case FRelock => 6 * n + 11
    case FRelease => 6 * n + 12
    case FLock => 6 * n + 20
    case FSelfLock => 0
    case _ =>
      6 * n + 20 + 20 * (c.right + 1 - s.next) +
      match s.main
      case PUnlock => 2
      case PSignal => 12
      case PPost => 13
      case PTest => if s.num == 0 then 14 else 17
      case PRelock => if s.num == 0 then 15 else 18
      case PAsleep => 16
      case _ => 18
  }

  /** Numbers not taken yet. */
  function Untaken(c: Config, s: State): int {
    |Range(c.left, c.right + 1)| - |s.taken|
  }

  function Measure(c: Config, s: State): int {
    var n := |s.workers|;
    Untaken(c, s) * (6 * n + 8) + Total(s.workers, WorkerRank(n)) + MainRank(c, s, n)
  }

  lemma {:induction false} WakeAllRank(ws: seq<WorkerPc>, n: nat)
    ensures Total(WakeAll(ws), WorkerRank(n)) <= Total(ws, WorkerRank(n)) + 6 * |ws|
  {
    if ws != [] {
      WakeAllRank(ws[1..], n);
      assert WakeAll(ws)[1..] == WakeAll(ws[1..]);
    }
  }

  /** Some number is untaken while the slot holds one that nobody has taken. */
  lemma UntakenBound(c: Config, s: State)
    requires ValidConfig(c) && Inv(c, s)
    ensures Untaken(c, s) >= |Slot(s)|
    ensures Measure(c, s) >= 0
  {
    assert MainRank(c, s, |s.workers|) >= 0;
    assert Untaken(c, s) * (6 * |s.workers| + 8) >= 0;
  }

  /** A worker's step lowers its rank enough to pay for the sleepers its broadcast wakes; taking a
      number raises it by less than one untaken number is worth. */
  lemma WorkerRanks(c: Config, s: State, t: nat)
    requires CanStep(s, WorkerStep(t))
    ensures var n := |s.workers|; var s' := Step(c, s, WorkerStep(t));
      Total(s'.workers, WorkerRank(n)) < Total(s.workers, WorkerRank(n)) + if s.workers[t].WTake? then 6 * n + 8 else 0
  {
    WorkerMoved(c, s, WorkerStep(t), t, WorkerRank(|s.workers|));
    WakeAllRank(s.workers, |s.workers|);
  }

  lemma WorkerKeepsMainRank(c: Config, s: State, t: nat, n: nat)
    requires MutexInv(s) && CanStep(s, WorkerStep(t)) && WorkerInv(s, s.workers[t])
    ensures MainRank(c, Step(c, s, WorkerStep(t)), n) <= MainRank(c, s, n)
  {
    if Inside(s.workers[t]) == 1 {
      WorkerAlone(s, t);
    }
  }

  /** A worker's step lowers the measure, whatever the slot holds. */
  lemma WorkerLowers(c: Config, s: State, t: nat)
    requires MutexInv(s) && WorkersInv(s) && CanStep(s, WorkerStep(t))
    ensures Measure(c, Step(c, s, WorkerStep(t))) < Measure(c, s)
  {
    assert WorkerInv(s, s.workers[t]);
    WorkerRanks(c, s, t);
    WorkerKeepsMainRank(c, s, t, |s.workers|);
    Distribute(Untaken(c, s), 1, 6 * |s.workers| + 8);
  }

  /** What main's signal and broadcast can add to the workers' rank. */
  function WakeCost(m: MainPc, n: nat): nat {
    match m
    case PSignal => 6
    case FBroadcast => 6 * n
    case _ => 0
  }

  lemma MainWakes(c: Config, s: State, wake: nat)
    requires CanStep(s, MainStep(wake))
    ensures var n := |s.workers|;
      Total(MainNext(c, s, wake).workers, WorkerRank(n)) <= Total(s.workers, WorkerRank(n)) + WakeCost(s.main, n)
  {
    var n := |s.workers|;
    if s.main.FBroadcast? {
      WakeAllRank(s.workers, n);
    } else if s.main.PSignal? && wake < n {
      TotalUpdate(s.workers, WorkerRank(n), wake, WakeWorker(s.workers[wake]));
    }
  }

  /** Main's step lowers the measure, except that the yield of the final wait may have to be repeated
      while the slot is occupied. */
  lemma MainStepMeasure(c: Config, s: State, wake: nat)
    requires MainInv(c, s) && CanStep(s, MainStep(wake))
    ensures s.main.FRelock? ==> Measure(c, Step(c, s, MainStep(wake))) <= Measure(c, s) + 2
    ensures !s.main.FRelock? || s.num == 0 ==> Measure(c, Step(c, s, MainStep(wake))) < Measure(c, s)
  {
    MainWakes(c, s, wake);
    MainRankStep(c, s, wake, |s.workers|);
    var s' := MainNext(c, s, wake);
    assert |s'.workers| == |s.workers| && s'.taken == s.taken;
  }

  lemma MainRankStep(c: Config, s: State, wake: nat, n: nat)
    requires MainInv(c, s) && CanStep(s, MainStep(wake))
    ensures s.main.FRelock? ==> MainRank(c, MainNext(c, s, wake), n) <= MainRank(c, s, n) + 2
    ensures !s.main.FRelock? || s.num == 0 ==>
      MainRank(c, MainNext(c, s, wake), n) + WakeCost(s.main, n) < MainRank(c, s, n)
  {
  }

  /** In every good state that is not final some thread can step without luck, and bring the end nearer:
      whoever is inside the mutex, else a worker while a number or -1 is posted, else main. */
  lemma Progress(c: Config, s: State) returns (a: Act)
    requires ValidConfig(c) && |s.workers| > 0 && Inv(c, s) && !Doomed(c, s) && !s.main.Finished?
    ensures CanStep(s, a) && (a.MainStep? || a.WorkerStep?)
    ensures Measure(c, Step(c, s, a)) < Measure(c, s) && !Doomed(c, Step(c, s, a))
  {
    if s.held && !MainInside(s.main) {
      var t := TotalWitness(s.workers, Inside);
      WorkerLowers(c, s, t);
      a := WorkerStep(t);
    } else if MainInside(s.main) || s.num == 0 || (s.main.Join? && AllExited(s.workers)) {
      var wake := MainReady(c, s);
      MainStepMeasure(c, s, wake);
      a := MainStep(wake);
    } else {
      var t := SomeWorkerReady(c, s);
      WorkerLowers(c, s, t);
      a := WorkerStep(t);
    }
    StillGood(c, s, a);
  }

  /** Only main itself, testing while its last number is in the slot, can spoil the run. */
  lemma StillGood(c: Config, s: State, a: Act)
    requires MutexInv(s) && MainInv(c, s) && !Doomed(c, s) && CanStep(s, a)
    requires a.WorkerStep? || (a.MainStep? && (MainInside(s.main) || s.num == 0 || s.main.Join?))
    ensures !Doomed(c, Step(c, s, a))
  {
    if a.WorkerStep? && Inside(s.workers[a.t]) == 1 {
      WorkerAlone(s, a.t);
    }
  }

  /** With no worker inside and the slot empty, or main inside, main can run. */
  lemma MainReady(c: Config, s: State) returns (wake: nat)
    requires ValidConfig(c) && Inv(c, s) && !Doomed(c, s) && !s.main.Finished?
    requires MainInside(s.main) || (!s.held && s.num == 0) || (s.main.Join? && AllExited(s.workers))
    ensures CanStep(s, MainStep(wake))
  {
    if s.num == 0 && s.main.PAsleep? {
      MainAlone(s);
      var t := TotalWitness(s.workers, IsBroadcast);
      assert false;
    }
    wake := 0;
    if SomeAsleep(s.workers) {
      wake :| 0 <= wake < |s.workers| && s.workers[wake] == WAsleep;
    }
  }

  /** With the mutex free and the slot not empty some worker can run. */
  lemma SomeWorkerReady(c: Config, s: State) returns (t: nat)
    requires Inv(c, s) && !s.held && !MainInside(s.main) && s.num != 0 && !s.main.Finished?
    requires s.main.Join? ==> !AllExited(s.workers)
    ensures CanStep(s, WorkerStep(t)) && Inside(s.workers[t]) == 0
  {
    if s.num > 0 {
      t := TotalWitness(s.workers, IsAwake);
    } else {
      t :| 0 <= t < |s.workers| && s.workers[t] != WExited;
      TotalAtLeast(s.workers, IsAsleep, t);
    }
    MainAlone(s);
  }

  /** The state after a schedule that starts in the middle of a run. */
  function RunOn(c: Config, s: State, acts: seq<Act>): State
    decreases |acts|
  {
    if acts == [] then s else RunOn(c, Step(c, s, acts[0]), acts[1..])
  }

  lemma {:induction false} DoomedForever(c: Config, s: State, acts: seq<Act>)
    requires MutexInv(s) && MainInv(c, s) && WorkersInv(s) && Doomed(c, s)
    requires ValidConfig(c)
    ensures Doomed(c, RunOn(c, s, acts)) && RunOn(c, s, acts).num == s.num
    decreases |acts|
  {
    if acts != [] {
      var a := acts[0];
      MainAlone(s);
      if CanStep(s, a) {
        StepMain(c, s, a);
        StepWorkers(c, s, a);
        match a
        case MainStep(wake) => StepMutexMain(c, s, wake);
        case MainSpurious =>
        case _ => StepMutexWorker(c, s, a);
      }
      DoomedForever(c, Step(c, s, a), acts[1..]);
    }
  }

  lemma GoOn(c: Config, s: State) returns (a: Act, s': State)
    requires ValidConfig(c) && |s.workers| > 0 && Inv(c, s) && !Doomed(c, s) && !s.main.Finished?
    ensures s' == Step(c, s, a) && (a.MainStep? || a.WorkerStep?)
    ensures |s'.workers| == |s.workers| && Inv(c, s') && !Doomed(c, s')
    ensures 0 <= Measure(c, s') < Measure(c, s)
  {
    a := Progress(c, s);
    s' := Step(c, s, a);
    StepInv(c, s, a);
    UntakenBound(c, s');
  }

  /** A schedule without spurious wakeups at whose end main has finished and every number was taken. */
  ghost predicate Completes(c: Config, s: State, acts: seq<Act>) {
    && (forall i :: 0 <= i < |acts| ==> acts[i].MainStep? || acts[i].WorkerStep?)
    && RunOn(c, s, acts).main.Finished?
    && RunOn(c, s, acts).taken == Range(c.left, c.right + 1)
  }

  lemma {:induction false} FinishFrom(c: Config, s: State, measure: int) returns (acts: seq<Act>)
    requires ValidConfig(c) && |s.workers| > 0 && Inv(c, s) && !Doomed(c, s)
    requires Measure(c, s) == measure >= 0
    ensures Completes(c, s, acts)
    decreases measure
  {
    if s.main.Finished? {
      acts := [];
    } else {
      var a, s' := GoOn(c, s);
      var rest := FinishFrom(c, s', Measure(c, s'));
      acts := [a] + rest;
      assert acts[1..] == rest;
    }
  }

  /** From a reachable state the program can still finish, without any spurious wakeup, exactly when main
      has not found its last number still in the slot with the final wait as written.  In particular the
      final wait in the order of lines 44-48 leaves no reachable state stuck. */
  lemma CanFinishIff(c: Config, threads: nat, acts: seq<Act>)
    requires ValidConfig(c) && threads > 0
    ensures var s := Run(c, Init(c, threads), acts);
      !Doomed(c, s) <==> exists more: seq<Act> :: Completes(c, s, more)
  {
    var s := Run(c, Init(c, threads), acts);
    RunInv(c, threads, acts);
    if Doomed(c, s) {
      forall more: seq<Act> ensures !Completes(c, s, more) {
        DoomedForever(c, s, more);
      }
    } else {
      UntakenBound(c, s);
      var more := FinishFrom(c, s, Measure(c, s));
    }
  }

  /** A state in which no thread can move without a spurious wakeup. */
  ghost predicate Stuck(s: State) {
    forall a: Act :: a.MainStep? || a.WorkerStep? ==> !CanStep(s, a)
  }

  /** The only reachable stuck states are the finished ones and main locking its own mutex. */
  lemma StuckOnlyWhen(c: Config, threads: nat, acts: seq<Act>)
    requires ValidConfig(c) && threads > 0 && Stuck(Run(c, Init(c, threads), acts))
    ensures var s := Run(c, Init(c, threads), acts); s.main.Finished? || (c.wait == Relock && s.main.FSelfLock?)
  {
    RunInv(c, threads, acts);
    StuckInv(c, Run(c, Init(c, threads), acts));
  }

  /** A free mutex stops nobody: then every thread can step that does not sleep, wait for others to exit, or lock
      the mutex it holds; and a sleeper may wake at any time for no reason, and will then lock it and look again. */
  lemma FreeMutexStopsNobody(c: Config, s: State)
    ensures !s.held ==> forall t: nat :: t < |s.workers| && s.workers[t] != WAsleep && s.workers[t] != WExited ==>
      CanStep(s, WorkerStep(t))
    ensures !s.held && !s.main.PAsleep? && !s.main.Join? && !s.main.Finished? && !s.main.FSelfLock? ==>
      exists wake: nat :: CanStep(s, MainStep(wake))
    ensures s.main == PAsleep ==> Step(c, s, MainSpurious) == s.(main := PRelock)
    ensures forall t: nat :: t < |s.workers| && s.workers[t] == WAsleep ==>
      Step(c, s, WorkerSpurious(t)) == s.(workers := s.workers[t := WRelock])
  {
    var wake := 0;
    if SomeAsleep(s.workers) {
      wake :| 0 <= wake < |s.workers| && s.workers[wake] == WAsleep;
    }
    if !s.held && !s.main.PAsleep? && !s.main.Join? && !s.main.Finished? && !s.main.FSelfLock? {
      assert CanStep(s, MainStep(wake));
    }
  }

  // ---------------------------------------------------------------- what the workers work on

  /** The number that a worker has taken and not yet worked on. */
  function Carried(w: WorkerPc): seq<int> {
    match w
    case WClear(i) => [i]
    case WBroadcast(i) => [i]
    case WUnlock(i) => [i]
    case WWork(i) => [i]
    case _ => []
  }

  /** In this step worker t reads the slot, or works on its number. */
  function TakesNow(s: State, a: Act, t: nat): seq<int> {
    if a == WorkerStep(t) && t < |s.workers| && s.workers[t].WTake? then [s.num] else []
  }

  function WorksNow(s: State, a: Act, t: nat): seq<int> {
    if a == WorkerStep(t) && t < |s.workers| && s.workers[t].WWork? then [s.workers[t].i] else []
  }

  /** The numbers worker t has found in the slot, and those it has worked on, in its own order. */
  function TakenBy(c: Config, threads: nat, acts: seq<Act>, t: nat): seq<int> {
    if acts == [] then [] else
    var n := |acts| - 1;
    TakenBy(c, threads, acts[..n], t) + TakesNow(Run(c, Init(c, threads), acts[..n]), acts[n], t)
  }

  function WorkedOnBy(c: Config, threads: nat, acts: seq<Act>, t: nat): seq<int> {
    if acts == [] then [] else
    var n := |acts| - 1;
    WorkedOnBy(c, threads, acts[..n], t) + WorksNow(Run(c, Init(c, threads), acts[..n]), acts[n], t)
  }

  /** The numbers that were worked on, in the order in which they were. */
  function WorkedOn(c: Config, threads: nat, acts: seq<Act>): seq<int> {
    if acts == [] then [] else
    var n := |acts| - 1;
    WorkedOn(c, threads, acts[..n]) +
    if acts[n].WorkerStep? then WorksNow(Run(c, Init(c, threads), acts[..n]), acts[n], acts[n].t) else []
  }

  lemma OwnCarried(s: State, t: nat)
    requires t < |s.workers|
    ensures var s' := WorkerNext(s, t); var a := WorkerStep(t);
      |s'.workers| == |s.workers| && WorksNow(s, a, t) + Carried(s'.workers[t]) ==
                                     Carried(s.workers[t]) + TakesNow(s, a, t)
  {
    match s.workers[t]
    case WTake =>
    case WWork(_) =>
    case _ =>
  }

  lemma StepCarried(c: Config, s: State, a: Act, t: nat)
    requires t < |s.workers|
    ensures |Step(c, s, a).workers| == |s.workers|
    ensures WorksNow(s, a, t) + Carried(Step(c, s, a).workers[t]) == Carried(s.workers[t]) + TakesNow(s, a, t)
  {
    if a == WorkerStep(t) {
      OwnCarried(s, t);
    } else {
      assert WorksNow(s, a, t) == TakesNow(s, a, t) == [];
      assert Carried(Step(c, s, a).workers[t]) == Carried(s.workers[t]);
    }
  }

  /** Every worker works on the numbers that it found in the slot, on each of them once and in that order; the
      last one may still be on its way. */
  lemma {:induction false} EachWorksOnItsOwn(c: Config, threads: nat, acts: seq<Act>, t: nat)
    requires t < threads
    ensures WorkedOnBy(c, threads, acts, t) + Carried(Run(c, Init(c, threads), acts).workers[t]) ==
            TakenBy(c, threads, acts, t)
  {
    if acts != [] {
      var n := |acts| - 1;
      var s, a := Run(c, Init(c, threads), acts[..n]), acts[n];
      EachWorksOnItsOwn(c, threads, acts[..n], t);
      StepCarried(c, s, a, t);
      Joined(WorkedOnBy(c, threads, acts[..n], t), Carried(s.workers[t]), WorksNow(s, a, t),
             Carried(Step(c, s, a).workers[t]), TakesNow(s, a, t));
    }
  }

  function Carries(x: int): WorkerPc -> nat { w => multiset(Carried(w))[x] }

  lemma TakenNext(c: Config, s: State, a: Act, t: nat)
    requires a.WorkerStep? ==> a.t == t
    ensures Step(c, s, a).taken == s.taken + if a.WorkerStep? then TakesNow(s, a, t) else []
  {
  }

  lemma CountJoined(now: seq<int>, carried': seq<int>, carried: seq<int>, takes: seq<int>, taken: seq<int>, x: int)
    requires now + carried' == carried + takes
    ensures multiset(now)[x] + multiset(carried')[x] + multiset(taken)[x] ==
            multiset(carried)[x] + multiset(taken + takes)[x]
  {
    assert multiset(now + carried')[x] == (multiset(now) + multiset(carried'))[x];
    assert multiset(carried + takes)[x] == (multiset(carried) + multiset(takes))[x];
    assert multiset(taken + takes)[x] == (multiset(taken) + multiset(takes))[x];
  }

  lemma CarriesMoved(c: Config, s: State, t: nat, x: int)
    requires CanStep(s, WorkerStep(t))
    ensures var ws' := Step(c, s, WorkerStep(t)).workers;
      && |ws'| == |s.workers|
      && Total(ws', Carries(x)) + multiset(Carried(s.workers[t]))[x] ==
         Total(s.workers, Carries(x)) + multiset(Carried(ws'[t]))[x]
  {
    WakeAllCarries(s.workers, x);
    WorkerMoved(c, s, WorkerStep(t), t, Carries(x));
  }

  lemma WorkerCarries(c: Config, s: State, t: nat, x: int)
    requires CanStep(s, WorkerStep(t))
    ensures var a := WorkerStep(t); var s' := Step(c, s, a);
      multiset(WorksNow(s, a, t))[x] + Total(s'.workers, Carries(x)) + multiset(s.taken)[x] ==
      Total(s.workers, Carries(x)) + multiset(s'.taken)[x]
  {
    var a := WorkerStep(t);
    CarriesMoved(c, s, t, x);
    StepCarried(c, s, a, t);
    TakenNext(c, s, a, t);
    CountJoined(WorksNow(s, a, t), Carried(Step(c, s, a).workers[t]), Carried(s.workers[t]), TakesNow(s, a, t),
                s.taken, x);
  }

  lemma WakeAllCarries(ws: seq<WorkerPc>, x: int)
    ensures Total(WakeAll(ws), Carries(x)) == Total(ws, Carries(x))
    ensures forall t :: 0 <= t < |ws| ==> Carried(WakeAll(ws)[t]) == Carried(ws[t])
  {
    TotalSame(ws, WakeAll(ws), Carries(x));
  }

  lemma OtherCarries(c: Config, s: State, a: Act, x: int)
    requires CanStep(s, a) && !a.WorkerStep?
    ensures Total(Step(c, s, a).workers, Carries(x)) == Total(s.workers, Carries(x))
  {
    var ws, ws' := s.workers, Step(c, s, a).workers;
    assert |ws| == |ws'| && forall t :: 0 <= t < |ws| ==> Carried(ws'[t]) == Carried(ws[t]);
    TotalSame(ws, ws', Carries(x));
  }

  /** In every run the numbers worked on, with those still carried by some worker, are the numbers taken. */
  lemma {:induction false} WorksOnWhatWasTaken(c: Config, threads: nat, acts: seq<Act>, x: int)
    ensures var s := Run(c, Init(c, threads), acts);
      multiset(WorkedOn(c, threads, acts))[x] + Total(s.workers, Carries(x)) == multiset(s.taken)[x]
  {
    if acts == [] {
      TotalZero(Init(c, threads).workers, Carries(x));
    } else {
      var n := |acts| - 1;
      WorksOnWhatWasTaken(c, threads, acts[..n], x);
      var s, a := Run(c, Init(c, threads), acts[..n]), acts[n];
      TakenNext(c, s, a, if a.WorkerStep? then a.t else 0);
      if CanStep(s, a) {
        if a.WorkerStep? { WorkerCarries(c, s, a.t, x); } else { OtherCarries(c, s, a, x); }
      }
    }
  }

  lemma {:induction false} RangeOnce(lo: int, hi: int, x: int)
    ensures multiset(Range(lo, hi))[x] == Bit(lo <= x < hi)
    decreases hi - lo
  {
    if lo < hi {
      RangeOnce(lo, hi - 1, x);
      RangeGrows(lo, hi - 1);
    }
  }

  lemma NoneCarried(ws: seq<WorkerPc>, x: int)
    requires AllExited(ws)
    ensures Total(ws, Carries(x)) == 0
  {
    TotalZero(ws, Carries(x));
  }

  /** When main has finished, each of the numbers left..right was worked on, once, and no other number. */
  lemma WorkedOnExactlyOnce(c: Config, threads: nat, acts: seq<Act>, x: int)
    requires ValidConfig(c) && threads > 0 && Run(c, Init(c, threads), acts).main.Finished?
    ensures multiset(WorkedOn(c, threads, acts))[x] == Bit(c.left <= x <= c.right)
  {
    HandedOverExactlyOnce(c, threads, acts);
    WorksOnWhatWasTaken(c, threads, acts, x);
    RunInv(c, threads, acts);
    NoneCarried(Run(c, Init(c, threads), acts).workers, x);
    RangeOnce(c.left, c.right + 1, x);
  }

  // ---------------------------------------------------------------- every schedule

  /** Main locks the mutex again after a yield. */
  function IsYield(s: State, a: Act): nat { Bit(a.MainStep? && s.main.FRelock?) }

  lemma StepMeasure(c: Config, s: State, a: Act)
    requires MutexInv(s) && MainInv(c, s) && WorkersInv(s) && CanStep(s, a) && (a.MainStep? || a.WorkerStep?)
    ensures Measure(c, Step(c, s, a)) + 1 <= Measure(c, s) + 3 * IsYield(s, a)
  {
    match a
    case MainStep(wake) => MainStepMeasure(c, s, wake);
    case WorkerStep(t) => WorkerLowers(c, s, t);
  }

  /** A schedule of steps that are possible when they come, without spurious wakeups. */
  ghost predicate Busy(c: Config, s: State, acts: seq<Act>)
    decreases |acts|
  {
    acts == [] || ((acts[0].MainStep? || acts[0].WorkerStep?) && CanStep(s, acts[0])
                   && Busy(c, Step(c, s, acts[0]), acts[1..]))
  }

  function Yields(c: Config, s: State, acts: seq<Act>): nat
    decreases |acts|
  {
    if acts == [] then 0 else Yields(c, Step(c, s, acts[0]), acts[1..]) + IsYield(s, acts[0])
  }

  /** Main has finished and every number was taken, or main is locking its own mutex. */
  ghost predicate Ended(c: Config, s: State) {
    (s.main.Finished? && s.taken == Range(c.left, c.right + 1)) || s.main.FSelfLock?
  }

  /** The program cannot run for ever but by yielding: a schedule without spurious wakeups has boundedly many
      steps besides three for every yield, and when nobody can move at its end it has ended. */
  lemma {:induction false} EverySchedule(c: Config, s: State, acts: seq<Act>)
    requires ValidConfig(c) && |s.workers| > 0 && Inv(c, s) && Busy(c, s, acts)
    ensures |acts| <= Measure(c, s) + 3 * Yields(c, s, acts)
    ensures Stuck(RunOn(c, s, acts)) ==> Ended(c, RunOn(c, s, acts))
    decreases |acts|
  {
    if acts == [] {
      UntakenBound(c, s);
      if Stuck(s) { StuckInv(c, s); }
    } else {
      StepInv(c, s, acts[0]);
      StepMeasure(c, s, acts[0]);
      EverySchedule(c, Step(c, s, acts[0]), acts[1..]);
    }
  }

  lemma StuckInv(c: Config, s: State)
    requires ValidConfig(c) && |s.workers| > 0 && Inv(c, s) && Stuck(s)
    ensures Ended(c, s)
  {
    if !s.main.Finished? && !s.main.FSelfLock? {
      if Doomed(c, s) {
        DoomedTests(c, s);
      } else {
        var a := Progress(c, s);
      }
    }
  }

  lemma DoomedTests(c: Config, s: State)
    requires Doomed(c, s) && !s.main.FSelfLock?
    ensures CanStep(s, MainStep(0))
  {
  }

  // ---------------------------------------------------------------- the final wait as written

  lemma Extend(c: Config, s: State, acts: seq<Act>, a: Act) returns (acts': seq<Act>)
    ensures Run(c, s, acts') == Step(c, Run(c, s, acts), a)
  {
    acts' := acts + [a];
    assert acts'[..|acts|] == acts;
  }

  lemma MainRunsOn(c: Config, s: State, acts: seq<Act>) returns (acts': seq<Act>)
    requires Run(c, s, acts).main.PLock? && !Run(c, s, acts).held && Run(c, s, acts).num == 0
    requires !SomeAsleep(Run(c, s, acts).workers)
    ensures Run(c, s, acts') == Run(c, s, acts).(num := Run(c, s, acts).next, held := true, main := PUnlock)
  {
    var big := |Run(c, s, acts).workers|;
    acts' := Extend(c, s, acts, MainStep(big));
    acts' := Extend(c, s, acts', MainStep(big));
    acts' := Extend(c, s, acts', MainStep(big));
    acts' := Extend(c, s, acts', MainStep(big));
  }

  /** A state between two numbers: k of them posted and taken, and no worker has begun to look again. */
  function Between(c: Config, threads: nat, k: nat): State {
    State(0, false, c.left + k, if c.left + k <= c.right then PLock else FLock, seq(threads, _ => WLock),
          Range(c.left, c.left + k))
  }

  /** Main posts the next number and leaves the critical section. */
  lemma MainPosts(c: Config, s: State, acts: seq<Act>) returns (acts': seq<Act>)
    requires Run(c, s, acts).main.PLock? && !Run(c, s, acts).held && Run(c, s, acts).num == 0
    requires !SomeAsleep(Run(c, s, acts).workers)
    ensures var b := Run(c, s, acts);
      Run(c, s, acts') ==
      b.(num := b.next, next := b.next + 1, main := if b.next + 1 <= c.right then PLock else FLock)
  {
    acts' := MainRunsOn(c, s, acts);
    acts' := Extend(c, s, acts', MainStep(0));
  }

  /** Every worker is about to lock the mutex, which is free, and the slot is occupied. */
  ghost predicate ReadyToTake(b: State) {
    && |b.workers| > 0 && b.num > 0 && !b.held && b.main != PAsleep
    && forall t :: 0 <= t < |b.workers| ==> b.workers[t] == WLock
  }

  lemma WorkerTakesFirst(c: Config, s: State, acts: seq<Act>) returns (acts': seq<Act>)
    requires ReadyToTake(Run(c, s, acts))
    ensures var b := Run(c, s, acts);
      Run(c, s, acts') == b.(held := true, taken := b.taken + [b.num], workers := b.workers[0 := WClear(b.num)])
  {
    acts' := Extend(c, s, acts, WorkerStep(0));
    acts' := Extend(c, s, acts', WorkerStep(0));
    acts' := Extend(c, s, acts', WorkerStep(0));
    acts' := Extend(c, s, acts', WorkerStep(0));
  }

  lemma WorkerClears(c: Config, s: State, acts: seq<Act>, b: State, i: int) returns (acts': seq<Act>)
    requires ReadyToTake(b) && Run(c, s, acts) == b.(held := true, workers := b.workers[0 := WClear(i)])
    ensures Run(c, s, acts') == b.(num := 0)
  {
    acts' := Extend(c, s, acts, WorkerStep(0));
    acts' := Extend(c, s, acts', WorkerStep(0));
    assert WakeAll(b.workers[0 := WBroadcast(i)])[0 := WUnlock(i)] == b.workers[0 := WUnlock(i)];
    acts' := Extend(c, s, acts', WorkerStep(0));
    acts' := Extend(c, s, acts', WorkerStep(0));
    assert b.workers[0 := WLock] == b.workers;
  }

  /** Worker 0 takes the number in the slot and works on it, undisturbed. */
  lemma WorkerTakesIt(c: Config, s: State, acts: seq<Act>) returns (acts': seq<Act>)
    requires ReadyToTake(Run(c, s, acts))
    ensures var b := Run(c, s, acts); Run(c, s, acts') == b.(num := 0, taken := b.taken + [b.num])
  {
    var b := Run(c, s, acts);
    acts' := WorkerTakesFirst(c, s, acts);
    acts' := WorkerClears(c, s, acts', b.(taken := b.taken + [b.num]), b.num);
  }

  /** Any number of numbers can be handed over one by one, by main and worker 0 alone. */
  lemma {:induction false} OneByOne(c: Config, threads: nat, k: nat) returns (acts: seq<Act>)
    requires ValidConfig(c) && threads > 0 && (k > 0 ==> c.left + k <= c.right + 1)
    ensures Run(c, Init(c, threads), acts) == Between(c, threads, k)
  {
    if k == 0 {
      acts := [];
    } else {
      acts := OneByOne(c, threads, k - 1);
      acts := MainPosts(c, Init(c, threads), acts);
      acts := WorkerTakesIt(c, Init(c, threads), acts);
      RangeGrows(c.left, c.left + k - 1);
    }
  }

  /** The final wait as written does go wrong, for any numbers and any workers: main posts its last number
      and runs on alone before a worker has locked the mutex; the number is never taken. */
  lemma RelockGoesWrong(c: Config, threads: nat) returns (acts: seq<Act>)
    requires ValidConfig(c) && threads > 0 && c.left <= c.right && c.wait == Relock
    ensures var s := Run(c, Init(c, threads), acts);
      s.main == FSelfLock && s.num == c.right && s.taken == Range(c.left, c.right)
  {
    acts := OneByOne(c, threads, c.right - c.left);
    acts := MainPosts(c, Init(c, threads), acts);
    acts := Extend(c, Init(c, threads), acts, MainStep(0));
    acts := Extend(c, Init(c, threads), acts, MainStep(0));
  }

  /** Which configurations are safe: main is never about to lock the mutex it holds, under any schedule, if
      and only if the final wait is the one of the comment, or there is nothing to post. */
  lemma SafeIff(c: Config, threads: nat)
    requires ValidConfig(c) && threads > 0
    ensures (forall acts: seq<Act> :: !Doomed(c, Run(c, Init(c, threads), acts))) <==>
            c.wait == Yield || c.right < c.left
  {
    if c.wait == Relock && c.left <= c.right {
      var acts := RelockGoesWrong(c, threads);
      assert Doomed(c, Run(c, Init(c, threads), acts));
    } else {
      forall acts: seq<Act> ensures !Doomed(c, Run(c, Init(c, threads), acts)) {
        RunInv(c, threads, acts);
        NothingPosted(c, Run(c, Init(c, threads), acts));
      }
    }
  }

  /** With nothing to post the slot is empty until main tells the workers to exit. */
  lemma NothingPosted(c: Config, s: State)
    requires ValidConfig(c) && Inv(c, s) && (c.wait == Yield || c.right < c.left)
    ensures !Doomed(c, s)
  {
    if c.right < c.left && MainInside(s.main) {
      MainAlone(s);
      TotalZero(s.workers, IsClear);
      assert |Slot(s)| <= |Range(c.left, Posted(s))|;
    }
  }
}
