/** Many relays in one table (Linuxlhq/005AdvanceIO/nonblock/relayer/relayer.c): one thread pushes every
    running job of the table, two machines each, and jobs are added in the first free slot.  Pushing and
    adding exclude each other by a mutex, so that a run is a sequence of whole turns and additions. */
module Relayer {
  import opened Basics
  import opened Bytes
  import opened RelayMachine
  import opened RelayLoops
  import opened RelayRefinement
  import opened RelayLosses

  /** A job of the table: whether it is still running, and its two machines. */
  datatype JobView = JobView(running: bool, m12: Machine, m21: Machine)

  type Slots = seq<Option<JobView>>

  /** The table; aborted when fsm_driver has ended the process. */
  datatype State = State(slots: Slots, aborted: bool)

  /** One turn of the relaying thread, with what the kernel answers to the jobs slot by slot, or a new job
      whose buffers hold what the memory held. */
  datatype Event = Turn(replies: seq<(Reply, Reply)>) | Add(buf12: seq<byte>, buf21: seq<byte>)

  function AsRelay(j: JobView): Relay { Relay(j.m12, j.m21, Running) }

  ghost predicate GoodJob(j: JobView) { InBuffer(j.m12) && InBuffer(j.m21) }

  ghost predicate GoodSlots(slots: Slots) {
    forall i :: 0 <= i < |slots| && slots[i].Some? ==> GoodJob(slots[i].value)
  }

  function NewJob(buf12: seq<byte>, buf21: seq<byte>): (j: JobView)
    ensures j.running && Fresh(j.m12) && Fresh(j.m21) && GoodJob(j) && j.m12.buf == buf12 && j.m21.buf == buf21
  {
    JobView(true, Machine(R, 0, 0, NoCall, buf12, [], []), Machine(R, 0, 0, NoCall, buf21, [], []))
  }

  /** The answers to slot i; a turn whose answers end earlier is answered EAGAIN from there on. */
  function At(replies: seq<(Reply, Reply)>, i: nat): (r: (Reply, Reply))
    ensures i < |replies| ==> r == replies[i]
    ensures i >= |replies| ==> r.0 == r.1 == Failed(true)
  {
    if i < |replies| then replies[i] else (Failed(true), Failed(true))
  }

  /** The process aborts when it pushes this job. */
  predicate Fatal(j: JobView) {
    j.running && (j.m12.state == T || j.m21.state == T)
  }

  /** What pushing a job makes of it: the machine of the first direction, then that of the second. */
  function PushJob(j: JobView, replies: (Reply, Reply)): (n: JobView)
    requires GoodJob(j)
    ensures GoodJob(n)
  {
    if !j.running || j.m12.state == T then j else
    var m12 := Drive(j.m12, replies.0);
    if j.m21.state == T then j.(m12 := m12) else
    var m21 := Drive(j.m21, replies.1);
    JobView(!(m12.state == T && m21.state == T), m12, m21)
  }

  /** The rest of a turn, from slot i on. */
  function TurnFrom(slots: Slots, replies: seq<(Reply, Reply)>, i: nat): (t: State)
    requires GoodSlots(slots) && i <= |slots|
    ensures |t.slots| == |slots| && GoodSlots(t.slots)
    decreases |slots| - i
  {
    if i == |slots| then State(slots, false)
    else if slots[i] == None then TurnFrom(slots, replies, i + 1)
    else
      var pushed := slots[i := Some(PushJob(slots[i].value, At(replies, i)))];
      if Fatal(slots[i].value) then State(pushed, true) else TurnFrom(pushed, replies, i + 1)
  }

  function Step(t: State, ev: Event): (n: State)
    requires GoodSlots(t.slots)
    ensures |n.slots| == |t.slots| && GoodSlots(n.slots)
  {
    if t.aborted then t else
    match ev
    case Turn(replies) => TurnFrom(t.slots, replies, 0)
    case Add(buf12, buf21) =>
      if FreePos(t.slots) < 0 then t else t.(slots := t.slots[FreePos(t.slots) := Some(NewJob(buf12, buf21))])
  }

  function Empty(jobMax: nat): State { State(seq(jobMax, _ => None), false) }

  function Run(jobMax: nat, script: seq<Event>): (t: State)
    ensures |t.slots| == jobMax && GoodSlots(t.slots)
  {
    if script == [] then Empty(jobMax) else Step(Run(jobMax, script[..|script| - 1]), script[|script| - 1])
  }

  // ---------------------------------------------------------------- the table in memory

  /** struct rel_job_st, which holds its two machines by value. */
  class RelJob {
    var running: bool
    var fsm12: Machine
    var fsm21: Machine

    ghost function View(): JobView reads this { JobView(running, fsm12, fsm21) }

    constructor (buf12: seq<byte>, buf21: seq<byte>)
      ensures View() == NewJob(buf12, buf21)
    {
      running := true;
      fsm12 := Machine(R, 0, 0, NoCall, buf12, [], []);
      fsm21 := Machine(R, 0, 0, NoCall, buf21, [], []);
    }

    /** The body of the loop in thr_relayer for one slot. */
    method Push(replies: (Reply, Reply)) returns (aborted: bool)
      requires GoodJob(View())
      modifies this
      ensures aborted == Fatal(old(View()))
      ensures View() == PushJob(old(View()), replies)
    {
      if running {
        if fsm12.state == T { return true; }
        fsm12 := Drive(fsm12, replies.0);
        if fsm21.state == T { return true; }
        fsm21 := Drive(fsm21, replies.1);
        if fsm12.state == T && fsm21.state == T {
          running := false;
        }
      }
      return false;
    }
  }

  class Table {
    const job: array<RelJob?>

    /** The jobs of the table. */
    ghost function Jobs(): set<RelJob> reads this, job {
      set i | 0 <= i < job.Length && job[i] != null :: job[i] as RelJob
    }

    /** The job in a slot. */
    ghost function Slot(i: nat): Option<JobView>
      requires i < job.Length
      reads this, job, job[i]
    {
      if job[i] == null then None else Some(job[i].View())
    }

    ghost function View(): (s: Slots)
      reads this, job, Jobs()
      ensures |s| == job.Length && forall i :: 0 <= i < job.Length ==> s[i] == Slot(i)
    {
      seq(job.Length, i requires 0 <= i < job.Length reads this, job, Jobs() => Slot(i))
    }

    /** Different slots hold different jobs. */
    ghost predicate Valid() reads this, job, Jobs() {
      && (forall i, j :: 0 <= i < j < job.Length && job[i] != null ==> job[i] != job[j])
      && GoodSlots(View())
    }

    constructor (jobMax: nat)
      ensures fresh(job) && job.Length == jobMax && Valid() && Jobs() == {} && View() == Empty(jobMax).slots
    {
      job := new RelJob?[jobMax](_ => null);
    }

    method GetFreePos() returns (pos: int)
      ensures pos == FreePos(View())
    {
      for i := 0 to job.Length
        invariant forall k :: 0 <= k < i ==> job[k] != null
      {
        if job[i] == null {
          assert View()[i] == Slot(i) == None;
          assert forall k :: 0 <= k < i ==> View()[k] == Slot(k);
          return i;
        }
      }
      assert forall k :: 0 <= k < job.Length ==> View()[k] == Slot(k);
      return -1;
    }

    /** A new job takes the first free slot and starts reading in both directions; with no slot free
        nothing changes.  Other jobs are left alone. */
    method AddJob(buf12: seq<byte>, buf21: seq<byte>) returns (pos: int)
      requires Valid()
      modifies job
      ensures Valid() && fresh(Jobs() - old(Jobs()))
      ensures pos == FreePos(old(View()))
      ensures View() == Step(State(old(View()), false), Add(buf12, buf21)).slots
    {
      var me := new RelJob(buf12, buf21);
      pos := GetFreePos();
      if pos >= 0 {
        job[pos] := me;
      }
      assert View() == if pos < 0 then old(View()) else old(View())[pos := Some(NewJob(buf12, buf21))];
    }

    /** One turn of thr_relayer's loop. */
    method Pass(replies: seq<(Reply, Reply)>) returns (aborted: bool)
      requires Valid()
      modifies Jobs()
      ensures Valid() && Jobs() == old(Jobs())
      ensures State(View(), aborted) == Step(State(old(View()), false), Turn(replies))
    {
      ghost var goal := TurnFrom(View(), replies, 0);
      var i := 0;
      while i < job.Length
        invariant i <= job.Length && Valid()
        invariant TurnFrom(View(), replies, i) == goal
      {
        var me := job[i];
        if me != null {
          ghost var slots := View();
          assert slots[i] == Some(me.View());
          aborted := me.Push(if i < |replies| then replies[i] else (Failed(true), Failed(true)));
          assert View() == slots[i := Some(PushJob(slots[i].value, At(replies, i)))] by {
            assert forall k :: 0 <= k < job.Length && k != i ==> Slot(k) == slots[k];
          }
          if aborted { return; }
        }
        i := i + 1;
      }
      aborted := false;
    }

    /** A whole run: turns of the relaying thread, and additions in between, until the process aborts. */
    method Serve(script: seq<Event>) returns (aborted: bool)
      requires Valid() && Jobs() == {} && View() == Empty(job.Length).slots
      modifies job
      ensures State(View(), aborted) == Run(job.Length, script)
    {
      aborted := false;
      var k := 0;
      assert script[..0] == [];
      while k < |script| && !aborted
        invariant k <= |script| && Valid() && fresh(Jobs())
        invariant State(View(), aborted) == Run(job.Length, script[..k])
      {
        assert script[..k + 1][..k] == script[..k];
        match script[k] {
          case Turn(replies) => aborted := Pass(replies);
          case Add(buf12, buf21) => var _ := AddJob(buf12, buf21);
        }
        k := k + 1;
      }
      AbortedStays(job.Length, script, k);
    }
  }

  /** Nothing happens once the process has aborted. */
  lemma {:induction false} AbortedStays(jobMax: nat, script: seq<Event>, k: nat)
    requires k <= |script|
    ensures k == |script| || Run(jobMax, script[..k]).aborted ==> Run(jobMax, script) == Run(jobMax, script[..k])
    decreases |script|
  {
    if k == |script| {
      assert script[..k] == script;
    } else if Run(jobMax, script[..k]).aborted {
      assert script[..|script| - 1][..k] == script[..k];
      AbortedStays(jobMax, script[..|script| - 1], k);
    }
  }

  // ---------------------------------------------------------------- one job without the others

  function Adds(script: seq<Event>): nat {
    if script == [] then 0 else Adds(script[..|script| - 1]) + Bit(script[|script| - 1].Add?)
  }

  /** The life of the i-th job added, counting from 0, in a process that has no other job: it begins when it
      is added, and is pushed at every turn with its own answers. */
  function Alone(script: seq<Event>, i: nat): (j: Option<JobView>)
    ensures j.Some? ==> GoodJob(j.value)
  {
    if script == [] then None else
    var before := Alone(script[..|script| - 1], i);
    match script[|script| - 1]
    case Add(buf12, buf21) => if Adds(script[..|script| - 1]) == i then Some(NewJob(buf12, buf21)) else before
    case Turn(replies) => PushSlot(before, At(replies, i))
  }

  function PushSlot(slot: Option<JobView>, replies: (Reply, Reply)): Option<JobView>
    requires slot.Some? ==> GoodJob(slot.value)
  {
    if slot == None then None else Some(PushJob(slot.value, replies))
  }

  predicate FatalSlot(slot: Option<JobView>) { slot.Some? && Fatal(slot.value) }

  /** Turn k finds job i, alone, at the point where pushing it aborts. */
  ghost predicate FatalAt(script: seq<Event>, k: nat, i: nat) {
    k < |script| && script[k].Turn? && FatalSlot(Alone(script[..k], i))
  }

  ghost predicate FatalFrom(slots: Slots, i: nat) {
    exists k :: i <= k < |slots| && FatalSlot(slots[k])
  }

  /** A job that aborts the process is pushed before slot k. */
  ghost predicate FatalBefore(slots: Slots, i: nat, k: nat) {
    exists j :: i <= j < k && j < |slots| && FatalSlot(slots[j])
  }

  /** A turn aborts exactly if it finds such a job; it pushes every job once, up to the one that aborts. */
  lemma {:induction false} TurnPushes(slots: Slots, replies: seq<(Reply, Reply)>, i: nat)
    requires GoodSlots(slots) && i <= |slots|
    ensures var t := TurnFrom(slots, replies, i);
      && (t.aborted <==> FatalFrom(slots, i))
      && (forall k :: 0 <= k < |slots| ==>
           t.slots[k] == if k < i || FatalBefore(slots, i, k) then slots[k] else PushSlot(slots[k], At(replies, k)))
    decreases |slots| - i
  {
    if i < |slots| {
      if slots[i] == None {
        TurnPushes(slots, replies, i + 1);
      } else if !Fatal(slots[i].value) {
        var pushed := slots[i := Some(PushJob(slots[i].value, At(replies, i)))];
        TurnPushes(pushed, replies, i + 1);
        assert forall k :: i < k < |slots| ==> pushed[k] == slots[k];
      } else {
        assert FatalSlot(slots[i]);
      }
    }
  }

  lemma {:induction false} AloneSome(script: seq<Event>, i: nat)
    ensures Alone(script, i).Some? <==> i < Adds(script)
  {
    if script != [] {
      AloneSome(script[..|script| - 1], i);
    }
  }

  /** Every slot holds the life its job would have alone. */
  ghost predicate AllAlone(slots: Slots, script: seq<Event>) {
    forall i :: 0 <= i < |slots| ==> slots[i] == Alone(script, i)
  }

  lemma TurnAlone(slots: Slots, script: seq<Event>, replies: seq<(Reply, Reply)>)
    requires GoodSlots(slots) && AllAlone(slots, script)
    ensures var t := Step(State(slots, false), Turn(replies));
      && (t.aborted <==> FatalFrom(slots, 0))
      && (!t.aborted ==> AllAlone(t.slots, script + [Turn(replies)]))
  {
    assert (script + [Turn(replies)])[..|script|] == script;
    TurnPushes(slots, replies, 0);
  }

  lemma AddAlone(slots: Slots, script: seq<Event>, buf12: seq<byte>, buf21: seq<byte>)
    requires GoodSlots(slots) && AllAlone(slots, script)
    ensures var t := Step(State(slots, false), Add(buf12, buf21));
      !t.aborted && AllAlone(t.slots, script + [Add(buf12, buf21)])
  {
    assert (script + [Add(buf12, buf21)])[..|script|] == script;
    forall i | 0 <= i < |slots| ensures slots[i].Some? <==> i < Adds(script) {
      AloneSome(script, i);
    }
    FreePosIs(slots, Adds(script));
  }

  /** Slots are filled from the front, so the first free one is that of the next job. */
  lemma FreePosIs(slots: Slots, n: nat)
    requires forall i :: 0 <= i < |slots| ==> (slots[i].Some? <==> i < n)
    ensures FreePos(slots) == if n < |slots| then n else -1
  {
    var pos := FreePos(slots);
    if pos > 0 {
      assert slots[pos - 1].Some?;
    }
    if n < |slots| {
      assert slots[n] == None;
    }
  }

  /** Job i, alone, has come to the point of abort at some turn of the run. */
  ghost predicate EverFatal(script: seq<Event>, i: nat) {
    exists k: nat :: FatalAt(script, k, i)
  }

  lemma EverFatalNext(script: seq<Event>, i: nat)
    requires script != []
    ensures var n := |script| - 1;
      EverFatal(script, i) <==> EverFatal(script[..n], i) || FatalAt(script, n, i)
  {
    var n := |script| - 1;
    forall k: nat | k < n ensures FatalAt(script[..n], k, i) == FatalAt(script, k, i) {
      assert script[..n][..k] == script[..k];
    }
  }

  /** Turn n finds some job of the table, alone, at the point of abort. */
  ghost predicate TurnFatal(jobMax: nat, script: seq<Event>, n: nat) {
    exists i: nat :: i < jobMax && FatalAt(script, n, i)
  }

  /** With every slot as its job would be alone, a turn aborts because some job alone has come to that point. */
  lemma FatalNow(slots: Slots, script: seq<Event>, n: nat)
    requires n < |script| && script[n].Turn? && AllAlone(slots, script[..n])
    ensures FatalFrom(slots, 0) <==> TurnFatal(|slots|, script, n)
  {
    forall i | 0 <= i < |slots| ensures FatalSlot(slots[i]) <==> FatalAt(script, n, i) {
      assert slots[i] == Alone(script[..n], i);
    }
  }

  /** Some job of the table, alone, would have aborted the process. */
  ghost predicate SomeFatal(jobMax: nat, script: seq<Event>) {
    exists i: nat :: i < jobMax && EverFatal(script, i)
  }

  lemma SomeFatalNext(jobMax: nat, script: seq<Event>)
    requires script != []
    ensures var n := |script| - 1;
      SomeFatal(jobMax, script) <==> SomeFatal(jobMax, script[..n]) || TurnFatal(jobMax, script, n)
  {
    var n := |script| - 1;
    if i: nat :| i < jobMax && EverFatal(script, i) { EverFatalNext(script, i); }
    if i: nat :| i < jobMax && EverFatal(script[..n], i) { EverFatalNext(script, i); }
    if i: nat :| i < jobMax && FatalAt(script, n, i) { EverFatalNext(script, i); }
  }

  /** The jobs of the table do not touch each other: in every run, of any turns and additions, the process has
      aborted if and only if some job of the table, alone, would have aborted it, and until then every slot
      holds the life of its job alone. */
  lemma {:induction false} EachAlone(jobMax: nat, script: seq<Event>)
    ensures var t := Run(jobMax, script);
      (t.aborted <==> SomeFatal(jobMax, script)) && (!t.aborted ==> AllAlone(t.slots, script))
  {
    if script != [] {
      var n := |script| - 1;
      EachAlone(jobMax, script[..n]);
      SomeFatalNext(jobMax, script);
      var t := Run(jobMax, script[..n]);
      assert script == script[..n] + [script[n]];
      if !t.aborted {
        match script[n]
        case Turn(replies) =>
          TurnAlone(t.slots, script[..n], replies);
          FatalNow(t.slots, script, n);
        case Add(buf12, buf21) =>
          AddAlone(t.slots, script[..n], buf12, buf21);
      }
    }
  }

  // ---------------------------------------------------------------- every job a busy relay

  /** The i-th job as it was added, and the answers it got in the turns since. */
  function Born(script: seq<Event>, i: nat): (j: Option<JobView>)
    ensures j.Some? <==> i < Adds(script)
    ensures j.Some? ==> j.value.running && Fresh(j.value.m12) && Fresh(j.value.m21) && GoodJob(j.value)
  {
    if script == [] then None else
    var n := |script| - 1;
    if script[n].Add? && Adds(script[..n]) == i then Some(NewJob(script[n].buf12, script[n].buf21))
    else Born(script[..n], i)
  }

  function Column(script: seq<Event>, i: nat): seq<(Reply, Reply)> {
    if script == [] then [] else
    var n := |script| - 1;
    if script[n].Turn? && i < Adds(script[..n]) then Column(script[..n], i) + [At(script[n].replies, i)]
    else Column(script[..n], i)
  }

  /** The busy relay of the i-th job, at the end of the run. */
  function RelayOf(script: seq<Event>, i: nat): Relay
    requires i < Adds(script)
  {
    BusyRun(AsRelay(Born(script, i).value), Column(script, i))
  }

  /** A job that runs is a relay that is not over. */
  ghost predicate RunsAsRelay(j: JobView, r: Relay) {
    r == AsRelay(j) && (j.running <==> !(j.m12.state == T && j.m21.state == T))
  }

  /** The i-th job is a busy relay of its own: it comes to the point of abort exactly when that relay aborts,
      and until then has the machines of that relay. */
  lemma {:induction false} AloneIsBusyRelay(script: seq<Event>, i: nat)
    requires i < Adds(script)
    ensures Alone(script, i).Some?
    ensures var r := RelayOf(script, i);
      && (EverFatal(script, i) <==> r.status == Aborted)
      && (!EverFatal(script, i) ==> RunsAsRelay(Alone(script, i).value, r))
  {
    var n := |script| - 1;
    EverFatalNext(script, i);
    AloneSome(script[..n], i);
    if i < Adds(script[..n]) {
      AloneIsBusyRelay(script[..n], i);
      if script[n].Turn? {
        AppendPass(AsRelay(Born(script, i).value), Column(script[..n], i), At(script[n].replies, i));
        if !EverFatal(script[..n], i) {
        }
      }
    } else {
      NotBornYet(script[..n], i);
    }
  }

  lemma {:induction false} NotBornYet(script: seq<Event>, i: nat)
    requires i >= Adds(script)
    ensures Column(script, i) == [] && !EverFatal(script, i)
  {
    if script != [] {
      NotBornYet(script[..|script| - 1], i);
      EverFatalNext(script, i);
      AloneSome(script[..|script| - 1], i);
    }
  }

  /** The table is so many busy relays side by side: until the process aborts, slot i holds the machines of a
      busy relay that starts when the i-th job is added and gets the answers of its own column; and it aborts
      exactly when one of them does. */
  lemma TableOfRelays(jobMax: nat, script: seq<Event>)
    ensures var t := Run(jobMax, script);
      t.aborted <==> exists i: nat :: i < jobMax && i < Adds(script) && RelayOf(script, i).status == Aborted
    ensures var t := Run(jobMax, script);
      !t.aborted ==> forall i: nat :: i < jobMax ==>
        if i < Adds(script) then t.slots[i].Some? && RunsAsRelay(t.slots[i].value, RelayOf(script, i))
        else t.slots[i] == None
  {
    EachAlone(jobMax, script);
    forall i: nat | i < jobMax
      ensures EverFatal(script, i) <==> i < Adds(script) && RelayOf(script, i).status == Aborted
      ensures !EverFatal(script, i) && i < Adds(script) ==>
        Alone(script, i).Some? && RunsAsRelay(Alone(script, i).value, RelayOf(script, i))
      ensures i >= Adds(script) ==> Alone(script, i) == None
    {
      AloneSome(script, i);
      if i < Adds(script) {
        AloneIsBusyRelay(script, i);
      } else {
        NotBornYet(script, i);
      }
    }
  }

  // ---------------------------------------------------------------- conservation in the table

  /** Every byte of both directions is delivered, or in the buffer of a machine that writes or gave up on a
      write; a job that is over has ended in both directions. */
  ghost predicate Kept(j: JobView) {
    && Conserves(j.m12) && Conserves(j.m21)
    && (Undelivered(j.m12) <==> Writing(j.m12)) && (Undelivered(j.m21) <==> Writing(j.m21))
    && (!j.running ==> j.m12.state == T && j.m21.state == T)
  }

  ghost predicate AllKept(slots: Slots) {
    forall i :: 0 <= i < |slots| && slots[i].Some? ==> Kept(slots[i].value)
  }

  lemma PushKeeps(j: JobView, replies: (Reply, Reply))
    requires GoodJob(j) && Kept(j)
    ensures Kept(PushJob(j, replies))
  {
    if j.running && j.m12.state != T {
      DriveConserves(j.m12, replies.0);
      UndeliveredIff(Drive(j.m12, replies.0));
      if j.m21.state != T {
        DriveConserves(j.m21, replies.1);
        UndeliveredIff(Drive(j.m21, replies.1));
      }
    }
  }

  lemma {:induction false} TurnKeeps(slots: Slots, replies: seq<(Reply, Reply)>, i: nat)
    requires GoodSlots(slots) && i <= |slots| && AllKept(slots)
    ensures AllKept(TurnFrom(slots, replies, i).slots)
    decreases |slots| - i
  {
    if i < |slots| {
      if slots[i] == None {
        TurnKeeps(slots, replies, i + 1);
      } else {
        PushKeeps(slots[i].value, At(replies, i));
        if !Fatal(slots[i].value) {
          TurnKeeps(slots[i := Some(PushJob(slots[i].value, At(replies, i)))], replies, i + 1);
        }
      }
    }
  }

  /** In every run of the table, of any turns and additions, also one that a neighbour's abort has ended, every
      job in every slot has kept every byte. */
  lemma {:induction false} TableKeeps(jobMax: nat, script: seq<Event>)
    ensures AllKept(Run(jobMax, script).slots)
  {
    if script != [] {
      TableKeeps(jobMax, script[..|script| - 1]);
      var t := Run(jobMax, script[..|script| - 1]);
      match script[|script| - 1]
      case Turn(replies) =>
        TurnKeeps(t.slots, replies, 0);
      case Add(buf12, buf21) =>
        var j := NewJob(buf12, buf21);
        UndeliveredIff(j.m12);
        UndeliveredIff(j.m21);
    }
  }

  // ---------------------------------------------------------------- the bytes of every job

  /** Slot i is pushed in a turn on these slots. */
  ghost predicate PushedIn(slots: Slots, i: nat)
  {
    i < |slots| && slots[i].Some? && slots[i].value.running && !FatalBefore(slots, 0, i)
  }

  /** The replies that the two machines of the job in slot i got, in all the turns of a run, up to the one that
      aborted. */
  ghost function SlotGiven(jobMax: nat, script: seq<Event>, i: nat): Given {
    if script == [] then ([], []) else
    var n := |script| - 1;
    var t, given := Run(jobMax, script[..n]), SlotGiven(jobMax, script[..n], i);
    if !t.aborted && script[n].Turn? && PushedIn(t.slots, i)
    then Give(AsRelay(t.slots[i].value), given, true, true, At(script[n].replies, i).0, At(script[n].replies, i).1)
    else given
  }

  ghost predicate JobFollows(slot: Option<JobView>, given: Given) {
    if slot == None then given == ([], []) else BothFollow(AsRelay(slot.value), given)
  }

  lemma PushFollows(j: JobView, given: Given, replies: (Reply, Reply))
    requires GoodJob(j) && j.running && BothFollow(AsRelay(j), given)
    ensures BothFollow(AsRelay(PushJob(j, replies)), Give(AsRelay(j), given, true, true, replies.0, replies.1))
  {
    if j.m12.state != T {
      FollowsNext(j.m12, given.0, replies.0);
      if j.m21.state != T {
        FollowsNext(j.m21, given.1, replies.1);
      }
    }
  }

  lemma {:induction false} TableFollows(jobMax: nat, script: seq<Event>, i: nat)
    requires i < jobMax
    ensures JobFollows(Run(jobMax, script).slots[i], SlotGiven(jobMax, script, i))
  {
    if script != [] {
      var n := |script| - 1;
      TableFollows(jobMax, script[..n], i);
      var t := Run(jobMax, script[..n]);
      if !t.aborted && script[n].Turn? {
        TurnPushes(t.slots, script[n].replies, 0);
        if PushedIn(t.slots, i) {
          PushFollows(t.slots[i].value, SlotGiven(jobMax, script[..n], i), At(script[n].replies, i));
        }
      }
    }
  }

  /** In every run of the table, aborted or not, and for every job in it: each direction has read just what the
      replies to its own reads carried, in order, and has delivered all of it but the shortfall. */
  lemma TableStreams(jobMax: nat, script: seq<Event>, i: nat)
    requires i < jobMax
    ensures var slot := Run(jobMax, script).slots[i];
      slot.Some? ==> BothStream(AsRelay(slot.value), SlotGiven(jobMax, script, i))
  {
    TableFollows(jobMax, script, i);
    var slot := Run(jobMax, script).slots[i];
    if slot.Some? {
      BothStreamFrom(AsRelay(slot.value), SlotGiven(jobMax, script, i));
    }
  }
}
