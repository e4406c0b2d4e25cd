/** One token bucket shared by any number of threads
    (Linuxlhq/IPV4Muticast/src/server/mytbf.c:36-42, 131-174): fetches that wait on the bucket's condition
    variable, returns and the ticker that broadcast it, all under the bucket's mutex.

    Every statement is one step of a thread; a condition wait is two, falling asleep with the mutex released
    and locking it again once woken, and a sleeper may also wake for no reason.  The threads are proved to do
    what the operations of TokenBucket do one after the other. */
module BucketWait {
  import opened Basics
  import opened Tally
  import TB = TokenBucket

  /** The statement a thread executes next; `op` is the top-up it makes: a tick or a return. */
  datatype Pc =
    | Idle
    | FLock(size: int)     // mytbf_fetchtoken: lock the mutex
    | FTest(size: int)     // while (token <= 0)
    | FAsleep(size: int)   // in pthread_cond_wait
    | FRelock(size: int)   // woken, locking the mutex again
    | FTake(size: int)     // n = min(token, size); token -= n
    | FUnlock              // unlock
    | ULock(op: TB.Op)     // thr_alarm or mytbf_returntoken: lock the mutex
    | UAdd(op: TB.Op)      // token += cps or token += size
    | UClamp(op: TB.Op)    // if (token > burst) token = burst
    | UBroadcast           // pthread_cond_broadcast
    | UUnlock              // unlock

  datatype Config = Config(cps: int, burst: int)

  /** `log` are the operations that took effect, in that order, and `gave` what each of them answered. */
  datatype State = State(token: int, held: bool, pcs: seq<Pc>, log: seq<TB.Op>, gave: seq<int>)

  /** A thread's move, with the operation an idle thread begins; or a sleeper that wakes for no reason. */
  datatype Act = Move(t: nat, op: TB.Op) | Spurious(t: nat)

  function Init(threads: nat): State { State(0, false, seq(threads, _ => Idle), [], []) }

  predicate CanMove(s: State, t: nat) {
    t < |s.pcs| &&
    match s.pcs[t]
    case FLock(_) => !s.held
    case FAsleep(_) => false
    case FRelock(_) => !s.held
    case ULock(_) => !s.held
    case _ => true
  }

  function Wake(p: Pc): Pc { if p.FAsleep? then FRelock(p.size) else p }

  function WakeAll(pcs: seq<Pc>): (r: seq<Pc>)
    ensures |r| == |pcs|
  {
    seq(|pcs|, t requires 0 <= t < |pcs| => Wake(pcs[t]))
  }

  /** Calls with a size that is not positive return at once. */
  function Begin(op: TB.Op): Pc {
    match op
    case Tick => ULock(op)
    case Fetch(size) => if size <= 0 then Idle else FLock(size)
    case GiveBack(size) => if size <= 0 then Idle else ULock(op)
  }

  function Amount(c: Config, op: TB.Op): int {
    match op
    case Tick => c.cps
    case GiveBack(size) => size
    case Fetch(_) => 0
  }

  function MoveNext(c: Config, s: State, t: nat, op: TB.Op): State
    requires t < |s.pcs|
  {
    match s.pcs[t]
    case Idle => s.(pcs := s.pcs[t := Begin(op)])
    case FLock(size) => s.(held := true, pcs := s.pcs[t := FTest(size)])
    case FTest(size) =>
      if s.token <= 0 then s.(held := false, pcs := s.pcs[t := FAsleep(size)])
      else s.(pcs := s.pcs[t := FTake(size)])
    case FAsleep(_) => s
    case FRelock(size) => s.(held := true, pcs := s.pcs[t := FTest(size)])
    case FTake(size) =>
      var n := if s.token < size then s.token else size;
      s.(token := s.token - n, pcs := s.pcs[t := FUnlock], log := s.log + [TB.Fetch(size)], gave := s.gave + [n])
    case FUnlock => s.(held := false, pcs := s.pcs[t := Idle])
    case ULock(up) => s.(held := true, pcs := s.pcs[t := UAdd(up)])
    case UAdd(up) => s.(token := s.token + Amount(c, up), pcs := s.pcs[t := UClamp(up)])
    case UClamp(up) =>
      s.(token := TB.Clamp(s.token, c.burst), pcs := s.pcs[t := UBroadcast], log := s.log + [up],
         gave := s.gave + [if up.GiveBack? then up.size else 0])
    case UBroadcast => s.(pcs := WakeAll(s.pcs)[t := UUnlock])
    case UUnlock => s.(held := false, pcs := s.pcs[t := Idle])
  }

  function Step(c: Config, s: State, a: Act): State {
    match a
    case Move(t, op) => if CanMove(s, t) then MoveNext(c, s, t, op) else s
    case Spurious(t) => if t < |s.pcs| && s.pcs[t].FAsleep? then s.(pcs := s.pcs[t := Wake(s.pcs[t])]) else s
  }

  function Run(c: Config, s: State, acts: seq<Act>): State {
    if acts == [] then s else Step(c, Run(c, s, acts[..|acts| - 1]), acts[|acts| - 1])
  }

  /** The bucket and the positions of its threads, updated in place. */
  class SharedBucket {
    const c: Config
    var token: int
    var held: bool
    var pcs: seq<Pc>
    var log: seq<TB.Op>
    var gave: seq<int>

    ghost function View(): State reads this { State(token, held, pcs, log, gave) }

    constructor (c: Config, threads: nat)
      ensures this.c == c && View() == Init(threads)
    {
      this.c := c;
      token, held, log, gave := 0, false, [], [];
      pcs := seq(threads, _ => Idle);
    }

    method ThreadMoves(t: nat, op: TB.Op) returns (moved: bool)
      modifies this
      ensures View() == Step(c, old(View()), Move(t, op)) && moved == CanMove(old(View()), t)
    {
      if t >= |pcs| { return false; }
      moved := true;
      match pcs[t]
      case Idle =>
        pcs := pcs[t := Begin(op)];
      case FLock(size) =>
        if held { return false; }
        held, pcs := true, pcs[t := FTest(size)];
      case FTest(size) =>
        if token <= 0 { held, pcs := false, pcs[t := FAsleep(size)]; } else { pcs := pcs[t := FTake(size)]; }
      case FAsleep(_) =>
        moved := false;
      case FRelock(size) =>
        if held { return false; }
        held, pcs := true, pcs[t := FTest(size)];
      case FTake(size) =>
        var n := if token < size then token else size;
        token, pcs := token - n, pcs[t := FUnlock];
        log, gave := log + [TB.Fetch(size)], gave + [n];
      case FUnlock =>
        held, pcs := false, pcs[t := Idle];
      case ULock(up) =>
        if held { return false; }
        held, pcs := true, pcs[t := UAdd(up)];
      case UAdd(up) =>
        token, pcs := token + Amount(c, up), pcs[t := UClamp(up)];
      case UClamp(up) =>
        if token > c.burst { token := c.burst; }
        pcs := pcs[t := UBroadcast];
        log, gave := log + [up], gave + [if up.GiveBack? then up.size else 0];
      case UBroadcast =>
        pcs := WakeAll(pcs)[t := UUnlock];
      case UUnlock =>
        held, pcs := false, pcs[t := Idle];
    }

    /** A whole run, by the choices of the scheduler. */
    method Schedule(acts: seq<Act>)
      modifies this
      ensures View() == Run(c, old(View()), acts)
    {
      ghost var s0 := View();
      assert acts[..0] == [];
      for i := 0 to |acts|
        invariant View() == Run(c, s0, acts[..i])
      {
        assert acts[..i + 1][..i] == acts[..i];
        match acts[i] {
          case Move(t, op) =>
            var _ := ThreadMoves(t, op);
          case Spurious(t) =>
            if t < |pcs| && pcs[t].FAsleep? { pcs := pcs[t := Wake(pcs[t])]; }
        }
      }
      assert acts[..|acts|] == acts;
    }
  }

  // ---------------------------------------------------------------- the mutex

  function Inside(p: Pc): nat {
    Bit(p.FTest? || p.FTake? || p.FUnlock? || p.UAdd? || p.UClamp? || p.UBroadcast? || p.UUnlock?)
  }

  function IsClamp(p: Pc): nat { Bit(p.UClamp?) }

  function IsAsleep(p: Pc): nat { Bit(p.FAsleep?) }

  /** About to broadcast. */
  function IsWaking(p: Pc): nat { Bit(p.UClamp? || p.UBroadcast?) }

  ghost predicate MutexInv(s: State) { Total(s.pcs, Inside) == Bit(s.held) }

  lemma Alone(s: State, t: nat)
    requires MutexInv(s) && t < |s.pcs| && Inside(s.pcs[t]) == 1
    ensures s.held && forall u :: 0 <= u < |s.pcs| && u != t ==> Inside(s.pcs[u]) == 0
  {
    TotalAtLeast(s.pcs, Inside, t);
    forall u | 0 <= u < |s.pcs| && u != t ensures Inside(s.pcs[u]) == 0 {
      TotalAtLeastTwo(s.pcs, Inside, if t < u then t else u, if t < u then u else t);
    }
  }

  /** The other threads at the end of a step: as they were, or woken by a broadcast. */
  function Others(s: State, a: Act): seq<Pc> {
    if a.Move? && a.t < |s.pcs| && s.pcs[a.t].UBroadcast? then WakeAll(s.pcs) else s.pcs
  }

  ghost predicate Enabled(s: State, a: Act) {
    a.t < |s.pcs| && (a.Move? ==> CanMove(s, a.t)) && (a.Spurious? ==> s.pcs[a.t].FAsleep?)
  }

  lemma Moved(c: Config, s: State, a: Act, w: Pc -> nat)
    requires Enabled(s, a)
    ensures Step(c, s, a).pcs == Others(s, a)[a.t := Step(c, s, a).pcs[a.t]]
    ensures Total(Step(c, s, a).pcs, w) + w(Others(s, a)[a.t]) == Total(Others(s, a), w) + w(Step(c, s, a).pcs[a.t])
  {
    TotalUpdate(Others(s, a), w, a.t, Step(c, s, a).pcs[a.t]);
  }

  lemma StepMutex(c: Config, s: State, a: Act)
    requires Enabled(s, a) && MutexInv(s)
    ensures MutexInv(Step(c, s, a))
  {
    TotalSame(s.pcs, WakeAll(s.pcs), Inside);
    Moved(c, s, a, Inside);
    TotalAtLeast(s.pcs, Inside, a.t);
  }

  // ---------------------------------------------------------------- one operation after the other

  /** The bucket after the operations of the log, each made in one piece. */
  function After(c: Config, log: seq<TB.Op>): TB.Bucket {
    TB.Run(TB.Open(TB.Bucket(c.cps, c.burst, 0)), log).b
  }

  lemma AfterNext(c: Config, log: seq<TB.Op>, op: TB.Op)
    ensures After(c, log + [op]) == TB.Apply(After(c, log), op)
    ensures After(c, log).cps == c.cps && After(c, log).burst == c.burst
  {
    assert (log + [op])[..|log|] == log;
    TB.Conservation(TB.Bucket(c.cps, c.burst, 0), log);
  }

  ghost predicate IsTopUp(op: TB.Op) { op.Tick? || (op.GiveBack? && op.size > 0) }

  /** What a thread's place says about the bucket: while it is adding, what it has added is not clamped. */
  ghost predicate PlaceOk(c: Config, s: State, p: Pc) {
    match p
    case FLock(size) => size > 0
    case FTest(size) => size > 0
    case FAsleep(size) => size > 0
    case FRelock(size) => size > 0
    case FTake(size) => size > 0 && s.token > 0
    case ULock(op) => IsTopUp(op)
    case UAdd(op) => IsTopUp(op)
    case UClamp(op) => IsTopUp(op) && s.token == After(c, s.log).token + Amount(c, op)
    case _ => true
  }

  ghost predicate PlacesOk(c: Config, s: State) {
    forall t :: 0 <= t < |s.pcs| ==> PlaceOk(c, s, s.pcs[t])
  }

  /** The token is that of the log, unless some thread is between adding and clamping. */
  ghost predicate TokenInv(c: Config, s: State) {
    Total(s.pcs, IsClamp) == 0 ==> s.token == After(c, s.log).token
  }

  /** Every operation answered what it answers when made in one piece after those before it. */
  ghost predicate Answered(c: Config, log: seq<TB.Op>, gave: seq<int>) {
    |gave| == |log| &&
    forall k :: 0 <= k < |log| ==> TB.Reply(After(c, log[..k]), log[k]) == TB.Tokens(gave[k])
  }

  lemma AnsweredNext(c: Config, log: seq<TB.Op>, gave: seq<int>, op: TB.Op, n: int)
    requires Answered(c, log, gave) && TB.Reply(After(c, log), op) == TB.Tokens(n)
    ensures Answered(c, log + [op], gave + [n])
  {
    var log' := log + [op];
    forall k | 0 <= k < |log'| ensures TB.Reply(After(c, log'[..k]), log'[k]) == TB.Tokens((gave + [n])[k]) {
      assert log'[..k] == log[..k];
      assert log[..|log|] == log;
    }
  }

  /** A sleeper while there are tokens: somebody is about to broadcast. */
  ghost predicate WakeInv(s: State) {
    s.token > 0 && Total(s.pcs, IsAsleep) > 0 ==> Total(s.pcs, IsWaking) > 0
  }

  ghost predicate Inv(c: Config, s: State) {
    MutexInv(s) && PlacesOk(c, s) && TokenInv(c, s) && Answered(c, s.log, s.gave) && WakeInv(s)
  }

  /** Nobody is between adding and clamping while somebody else is inside. */
  lemma NoClamp(s: State, t: nat)
    requires MutexInv(s) && t < |s.pcs| && Inside(s.pcs[t]) == 1 && !s.pcs[t].UClamp?
    ensures Total(s.pcs, IsClamp) == 0
  {
    Alone(s, t);
    TotalZero(s.pcs, IsClamp);
  }

  /** The thread that moves, and any other, keep their places in order. */
  lemma PlaceKept(c: Config, s: State, a: Act, u: nat)
    requires Enabled(s, a) && MutexInv(s) && TokenInv(c, s)
    requires u < |s.pcs| && PlaceOk(c, s, s.pcs[u]) && PlaceOk(c, s, s.pcs[a.t])
    ensures PlaceOk(c, Step(c, s, a), Step(c, s, a).pcs[u])
  {
    if Inside(s.pcs[a.t]) == 1 {
      Alone(s, a.t);
      if !s.pcs[a.t].UClamp? { NoClamp(s, a.t); }
    }
  }

  lemma StepPlaces(c: Config, s: State, a: Act)
    requires Enabled(s, a) && MutexInv(s) && PlacesOk(c, s) && TokenInv(c, s)
    ensures PlacesOk(c, Step(c, s, a))
  {
    forall u | 0 <= u < |s.pcs| ensures PlaceOk(c, Step(c, s, a), Step(c, s, a).pcs[u]) {
      PlaceKept(c, s, a, u);
    }
  }

  /** A fetch takes effect when it takes its tokens. */
  lemma TakeToken(c: Config, s: State, t: nat, op: TB.Op)
    requires MutexInv(s) && t < |s.pcs| && s.pcs[t].FTake? && PlaceOk(c, s, s.pcs[t])
    requires TokenInv(c, s) && Answered(c, s.log, s.gave)
    ensures var s' := MoveNext(c, s, t, op);
      s'.token == After(c, s'.log).token && Answered(c, s'.log, s'.gave)
  {
    var size := s.pcs[t].size;
    NoClamp(s, t);
    AfterNext(c, s.log, TB.Fetch(size));
    AnsweredNext(c, s.log, s.gave, TB.Fetch(size), if s.token < size then s.token else size);
  }

  /** A top-up takes effect when it clamps. */
  lemma ClampToken(c: Config, s: State, t: nat, op: TB.Op)
    requires t < |s.pcs| && s.pcs[t].UClamp? && PlaceOk(c, s, s.pcs[t]) && Answered(c, s.log, s.gave)
    ensures var s' := MoveNext(c, s, t, op);
      s'.token == After(c, s'.log).token && Answered(c, s'.log, s'.gave)
  {
    var up := s.pcs[t].op;
    AfterNext(c, s.log, up);
    AnsweredNext(c, s.log, s.gave, up, if up.GiveBack? then up.size else 0);
  }

  lemma StepToken(c: Config, s: State, a: Act)
    requires Enabled(s, a) && MutexInv(s) && PlacesOk(c, s) && TokenInv(c, s) && Answered(c, s.log, s.gave)
    ensures TokenInv(c, Step(c, s, a)) && Answered(c, Step(c, s, a).log, Step(c, s, a).gave)
  {
    var p := s.pcs[a.t];
    assert PlaceOk(c, s, p);
    if p.UClamp? {
      ClampToken(c, s, a.t, a.op);
    } else if p.FTake? {
      TakeToken(c, s, a.t, a.op);
    } else {
      TotalSame(s.pcs, WakeAll(s.pcs), IsClamp);
      Moved(c, s, a, IsClamp);
    }
  }

  lemma StepWake(c: Config, s: State, a: Act)
    requires Enabled(s, a) && MutexInv(s) && PlacesOk(c, s) && WakeInv(s)
    ensures WakeInv(Step(c, s, a))
  {
    var p := s.pcs[a.t];
    assert PlaceOk(c, s, p);
    Moved(c, s, a, IsAsleep);
    Moved(c, s, a, IsWaking);
    if p.UBroadcast? {
      TotalZero(WakeAll(s.pcs), IsAsleep);
    } else if Inside(p) == 1 {
      Alone(s, a.t);
      TotalAtLeast(Step(c, s, a).pcs, IsWaking, a.t);
      if IsWaking(p) == 0 { TotalZero(s.pcs, IsWaking); }
    }
  }

  lemma InitInv(c: Config, threads: nat)
    ensures Inv(c, Init(threads))
  {
    var pcs := Init(threads).pcs;
    TotalZero(pcs, Inside);
    TotalZero(pcs, IsAsleep);
  }

  lemma StepInv(c: Config, s: State, a: Act)
    requires Inv(c, s)
    ensures Inv(c, Step(c, s, a))
  {
    if Enabled(s, a) {
      StepMutex(c, s, a);
      StepPlaces(c, s, a);
      StepToken(c, s, a);
      StepWake(c, s, a);
    }
  }

  lemma {:induction false} RunInv(c: Config, threads: nat, acts: seq<Act>)
    ensures Inv(c, Run(c, Init(threads), acts))
  {
    if acts == [] {
      InitInv(c, threads);
    } else {
      RunInv(c, threads, acts[..|acts| - 1]);
      StepInv(c, Run(c, Init(threads), acts[..|acts| - 1]), acts[|acts| - 1]);
    }
  }

  // ---------------------------------------------------------------- main results

  /** Every interleaving is some order of whole operations: whenever the mutex is free, the bucket is what the
      operations of the log make of a new one, and each call got the answer it gets in that order. */
  lemma OneAfterTheOther(c: Config, threads: nat, acts: seq<Act>)
    ensures var s := Run(c, Init(threads), acts);
      Answered(c, s.log, s.gave) && (!s.held ==> s.token == After(c, s.log).token)
  {
    var s := Run(c, Init(threads), acts);
    RunInv(c, threads, acts);
    if !s.held {
      forall t | 0 <= t < |s.pcs| ensures IsClamp(s.pcs[t]) == 0 {
        TotalAtLeast(s.pcs, Inside, t);
      }
      TotalZero(s.pcs, IsClamp);
    }
  }

  /** A free mutex stops nobody but the sleepers; and a sleeper may wake at any time for no reason, and will then
      lock the mutex and look again. */
  lemma FreeMutexStopsNobody(c: Config, s: State, t: nat)
    requires t < |s.pcs|
    ensures !s.held && !s.pcs[t].FAsleep? ==> CanMove(s, t)
    ensures s.pcs[t].FAsleep? ==> Step(c, s, Spurious(t)) == s.(pcs := s.pcs[t := FRelock(s.pcs[t].size)])
  {
  }

  // ---------------------------------------------------------------- calls and operations

  /** In this step thread t begins an operation; a call with a size that is not positive is refused. */
  function BeginsNow(s: State, a: Act, t: nat): seq<TB.Op> {
    if a.Move? && a.t == t < |s.pcs| && s.pcs[t] == Idle && (a.op.Tick? || a.op.size > 0) then [a.op] else []
  }

  /** In this step an operation of thread t takes effect. */
  function LogsNow(c: Config, s: State, a: Act, t: nat): seq<TB.Op> {
    var log := Step(c, s, a).log;
    if a.Move? && a.t == t && |log| > |s.log| then log[|s.log|..] else []
  }

  function CalledBy(c: Config, threads: nat, acts: seq<Act>, t: nat): seq<TB.Op> {
    if acts == [] then [] else
    var n := |acts| - 1;
    CalledBy(c, threads, acts[..n], t) + BeginsNow(Run(c, Init(threads), acts[..n]), acts[n], t)
  }

  function LoggedBy(c: Config, threads: nat, acts: seq<Act>, t: nat): seq<TB.Op> {
    if acts == [] then [] else
    var n := |acts| - 1;
    LoggedBy(c, threads, acts[..n], t) + LogsNow(c, Run(c, Init(threads), acts[..n]), acts[n], t)
  }

  /** The operation that a thread has begun and that has not taken effect. */
  function Pending(p: Pc): seq<TB.Op> {
    match p
    case FLock(size) => [TB.Fetch(size)]
    case FTest(size) => [TB.Fetch(size)]
    case FAsleep(size) => [TB.Fetch(size)]
    case FRelock(size) => [TB.Fetch(size)]
    case FTake(size) => [TB.Fetch(size)]
    case ULock(op) => [op]
    case UAdd(op) => [op]
    case UClamp(op) => [op]
    case _ => []
  }

  lemma OwnPending(c: Config, s: State, a: Act, t: nat)
    requires a.Move? && a.t == t && CanMove(s, t)
    ensures var s' := MoveNext(c, s, t, a.op);
      |s'.pcs| == |s.pcs| && LogsNow(c, s, a, t) + Pending(s'.pcs[t]) == Pending(s.pcs[t]) + BeginsNow(s, a, t)
  {
    if s.pcs[t].FTake? || s.pcs[t].UClamp? {
      assert LogsNow(c, s, a, t) == Pending(s.pcs[t]);
    }
  }

  lemma StepPending(c: Config, s: State, a: Act, t: nat)
    requires t < |s.pcs|
    ensures |Step(c, s, a).pcs| == |s.pcs|
    ensures LogsNow(c, s, a, t) + Pending(Step(c, s, a).pcs[t]) == Pending(s.pcs[t]) + BeginsNow(s, a, t)
  {
    if a.Move? && a.t == t && CanMove(s, t) {
      OwnPending(c, s, a, t);
    } else {
      assert LogsNow(c, s, a, t) == BeginsNow(s, a, t) == [];
      assert Pending(Step(c, s, a).pcs[t]) == Pending(s.pcs[t]);
    }
  }

  /** Every thread does what it was called for: the operations of it that took effect, then the one it is at, are
      its calls with a positive size and its ticks, in the order in which it made them. */
  lemma {:induction false} DoesWhatIsCalled(c: Config, threads: nat, acts: seq<Act>, t: nat)
    requires t < threads
    ensures |Run(c, Init(threads), acts).pcs| == threads
    ensures LoggedBy(c, threads, acts, t) + Pending(Run(c, Init(threads), acts).pcs[t]) ==
            CalledBy(c, threads, acts, t)
  {
    if acts != [] {
      var n := |acts| - 1;
      var s, a := Run(c, Init(threads), acts[..n]), acts[n];
      DoesWhatIsCalled(c, threads, acts[..n], t);
      StepPending(c, s, a, t);
      Joined(LoggedBy(c, threads, acts[..n], t), Pending(s.pcs[t]), LogsNow(c, s, a, t),
             Pending(Step(c, s, a).pcs[t]), BeginsNow(s, a, t));
    }
  }

  lemma {:induction false} LogGrows(c: Config, s: State, before: seq<Act>, more: seq<Act>)
    ensures Run(c, s, before).log <= Run(c, s, before + more).log
  {
    if more == [] {
      assert before + more == before;
    } else {
      var n := |more| - 1;
      assert (before + more)[..|before + more| - 1] == before + more[..n];
      LogGrows(c, s, before, more[..n]);
    }
  }

  /** The rate limit for threads: in every stretch of every interleaving the tokens handed out, less those
      returned, are at most the burst plus cps for every tick in it, and the books of the stretch balance. */
  lemma RateLimit(c: Config, threads: nat, before: seq<Act>, more: seq<Act>)
    requires c.cps >= 0 && c.burst >= 0
    ensures var s, s' := Run(c, Init(threads), before), Run(c, Init(threads), before + more);
      && s.log <= s'.log
      && var l := TB.Run(TB.Open(After(c, s.log)), s'.log[|s.log|..]);
        && l.fetched - l.returned <= c.burst + l.ticks * c.cps
        && l.fetched - l.returned + l.b.token + l.lost == After(c, s.log).token + l.ticks * c.cps
        && l.b == After(c, s'.log)
  {
    var s, s' := Run(c, Init(threads), before), Run(c, Init(threads), before + more);
    LogGrows(c, Init(threads), before, more);
    var b := TB.Bucket(c.cps, c.burst, 0);
    var window := s'.log[|s.log|..];
    assert s'.log == s.log + window;
    TB.Conservation(b, s.log);
    TB.RateLimit(b, s.log, window);
    TB.Conservation(After(c, s.log), window);
    TB.RunGoesOn(b, s.log, window);
  }

  /** No lost wakeup: whenever the mutex is free and there are tokens, no fetch is asleep. */
  lemma NoLostWakeup(c: Config, threads: nat, acts: seq<Act>)
    ensures var s := Run(c, Init(threads), acts);
      !s.held && s.token > 0 ==> forall t :: 0 <= t < |s.pcs| ==> !s.pcs[t].FAsleep?
  {
    var s := Run(c, Init(threads), acts);
    RunInv(c, threads, acts);
    if !s.held && s.token > 0 {
      forall t | 0 <= t < |s.pcs| ensures !s.pcs[t].FAsleep? {
        TotalAtLeast(s.pcs, IsAsleep, t);
        if Total(s.pcs, IsWaking) > 0 {
          var u := TotalWitness(s.pcs, IsWaking);
          TotalAtLeast(s.pcs, Inside, u);
        }
      }
    }
  }

  /** A thread in the middle of a call that can go on. */
  ghost predicate CanProceed(s: State, t: nat) { CanMove(s, t) && s.pcs[t] != Idle }

  /** Nothing but an empty bucket stops a call: when no call can go on, every thread is idle or a fetch asleep
      on a bucket without tokens, and the mutex is free for the ticker. */
  lemma OnlyEmptyStops(c: Config, threads: nat, acts: seq<Act>)
    requires forall t: nat :: !CanProceed(Run(c, Init(threads), acts), t)
    ensures var s := Run(c, Init(threads), acts);
      !s.held && forall t :: 0 <= t < |s.pcs| ==> s.pcs[t] == Idle || (s.pcs[t].FAsleep? && s.token <= 0)
  {
    var s := Run(c, Init(threads), acts);
    RunInv(c, threads, acts);
    if s.held {
      var t := TotalWitness(s.pcs, Inside);
      assert CanProceed(s, t);
    }
    NoLostWakeup(c, threads, acts);
    forall t | 0 <= t < |s.pcs| ensures s.pcs[t] == Idle || s.pcs[t].FAsleep? {
      assert !CanProceed(s, t);
    }
  }
}
