/** Software timers over one clock (Linuxlhq/006IPC/socket/STREAM/06anytimer/anytime.c): a table of
    countdowns that the alarm handler decrements once a second.

    The table is checked against absolute deadlines: a job started at second t0 with period sec is due at
    t0 + sec, and a repeating one at every later multiple.  Jobs are numbered in the order in which they
    were added, so that a slot used again is a new job. */
module SoftwareTimers {
  import opened Basics
  import opened Cycle

  datatype JobState = Running | Cancelled | Finished

  /** struct at_job_st; `id` stands for the callback and its argument. */
  datatype Job = Job(state: JobState, sec: int, remain: int, repeat: bool, id: nat)

  /** The handler interrupts the program, so that an alarm can come in the middle of a call.  `alarms` is how
      many come between the tests of at_cacnceljob and its assignment, or between the free() of at_waitjob
      and the clearing of the slot; elsewhere in a call an alarm is no different from one before it. */
  datatype Op = Alarm | Add(sec: int, repeat: bool) | Cancel(slot: int, alarms: nat) | Wait(slot: int, alarms: nat)

  /** PastTable: an id equal to the size of the table passes the range test, and the code reads behind the
      table.  What it finds there is not known; the model makes it an answer of its own. */
  datatype Answer = Done(n: nat) | EINVAL | ENOSPC | ECANCELED | EBUSY | StillRunning | PastTable

  // ---------------------------------------------------------------- the table

  /** What one alarm does to a slot. */
  function TickJob(slot: Option<Job>): Option<Job> {
    if slot.None? || slot.value.state != Running then slot else
    var j := slot.value.(remain := slot.value.remain - 1);
    if j.remain != 0 then Some(j)
    else if j.repeat then Some(j.(remain := j.sec))
    else Some(j.(state := Finished))
  }

  predicate Due(slot: Option<Job>) {
    slot.Some? && slot.value.state == Running && slot.value.remain == 1
  }

  function TickTable(table: seq<Option<Job>>): (r: seq<Option<Job>>)
    ensures |r| == |table| && forall i :: 0 <= i < |r| ==> r[i] == TickJob(table[i])
  {
    seq(|table|, i requires 0 <= i < |table| => TickJob(table[i]))
  }

  /** The table after a number of alarms: every job stays in its slot. */
  function TickTimes(table: seq<Option<Job>>, alarms: nat): (r: seq<Option<Job>>)
    ensures |r| == |table|
    ensures forall i :: 0 <= i < |r| ==> (r[i].Some? <==> table[i].Some?)
    ensures forall i :: 0 <= i < |r| && r[i].Some? ==>
      r[i].value.id == table[i].value.id && r[i].value.repeat == table[i].value.repeat
  {
    if alarms == 0 then table else TickTable(TickTimes(table, alarms - 1))
  }

  /** The jobs whose callbacks one alarm calls, in order. */
  function Fires(table: seq<Option<Job>>): seq<nat> {
    if table == [] then [] else
    Fires(table[..|table| - 1]) + if Due(table[|table| - 1]) then [table[|table| - 1].value.id] else []
  }

  function TableReply(table: seq<Option<Job>>, op: Op): Answer {
    match op
    case Alarm => Done(0)
    case Add(sec, _) =>
      if sec < 0 then EINVAL else if FreePos(table) < 0 then ENOSPC else Done(FreePos(table))
    case Cancel(slot, _) =>
      if slot == |table| then PastTable
      else if slot < 0 || slot > |table| || table[slot] == None then EINVAL
      else (match table[slot].value.state
            case Cancelled => ECANCELED
            case Finished => EBUSY
            case Running => Done(0))
    case Wait(slot, _) =>
      if slot == |table| then PastTable
      else if slot < 0 || slot > |table| || table[slot] == None then EINVAL
      else if table[slot].value.repeat then EBUSY
      else if table[slot].value.state == Running then StillRunning
      else Done(0)
  }

  /** The jobs that a number of alarms call, one alarm after the other. */
  function FiresTimes(table: seq<Option<Job>>, alarms: nat): seq<nat> {
    if alarms == 0 then [] else FiresTimes(table, alarms - 1) + Fires(TickTimes(table, alarms - 1))
  }

  function SetCancelled(table: seq<Option<Job>>, slot: int): seq<Option<Job>>
    requires 0 <= slot < |table| && table[slot].Some?
  {
    table[slot := Some(table[slot].value.(state := Cancelled))]
  }

  /** The table after an operation; `id` numbers the job that an Add creates.  After a wait that an alarm
      interrupts while the job is freed the table is not known. */
  function TableNext(table: seq<Option<Job>>, op: Op, id: nat): seq<Option<Job>> {
    if op.Alarm? then TickTable(table) else
    if !TableReply(table, op).Done? then table else
    match op
    case Add(sec, repeat) => table[FreePos(table) := Some(Job(Running, sec, sec, repeat, id))]
    case Cancel(slot, alarms) => SetCancelled(TickTimes(table, alarms), slot)
    case Wait(slot, _) => table[slot := None]
  }

  /** The library; no pointer to a job leaves it, so the jobs are kept in the table itself. */
  class AnyTimer {
    const job: array<Option<Job>>
    var added: nat

    constructor (jobMax: nat)
      ensures fresh(job) && job.Length == jobMax && added == 0
      ensures forall i :: 0 <= i < jobMax ==> job[i] == None
    {
      job := new Option<Job>[jobMax](_ => None);
      added := 0;
    }

    /** alrm_action; returns the jobs called back. */
    method AlarmAction() returns (called: seq<nat>)
      modifies job
      ensures job[..] == TableNext(old(job[..]), Alarm, added)
      ensures called == Fires(old(job[..]))
    {
      called := [];
      ghost var table := job[..];
      for i := 0 to job.Length
        invariant forall k :: 0 <= k < i ==> job[k] == TickJob(table[k])
        invariant forall k :: i <= k < job.Length ==> job[k] == table[k]
        invariant called == Fires(table[..i])
      {
        assert table[..i + 1][..i] == table[..i];
        if job[i].Some? && job[i].value.state == Running {
          var j := job[i].value;
          j := j.(remain := j.remain - 1);
          if j.remain == 0 {
            called := called + [j.id];
            if j.repeat {
              j := j.(remain := j.sec);
            } else {
              j := j.(state := Finished);
            }
          }
          job[i] := Some(j);
        }
      }
      assert table[..job.Length] == table;
    }

    method GetFreePos() returns (pos: int)
      ensures pos == FreePos(job[..])
    {
      for i := 0 to job.Length
        invariant forall k :: 0 <= k < i ==> job[k] != None
      {
        if job[i] == None { return i; }
      }
      return -1;
    }

    /** at_addjob and at_addjob_repeat, which differ only in the repeat flag. */
    method AddJob(sec: int, repeat: bool) returns (answer: Answer)
      modifies this, job
      ensures answer == TableReply(old(job[..]), Add(sec, repeat))
      ensures job[..] == TableNext(old(job[..]), Add(sec, repeat), old(added))
      ensures added == old(added) + if answer.Done? then 1 else 0
    {
      if sec < 0 { return EINVAL; }
      var pos := GetFreePos();
      if pos < 0 { return ENOSPC; }
      job[pos] := Some(Job(Running, sec, sec, repeat, added));
      added := added + 1;
      return Done(pos);
    }

    /** Alarms that come in the middle of a call. */
    method Interrupt(alarms: nat) returns (called: seq<nat>)
      modifies job
      ensures job[..] == TickTimes(old(job[..]), alarms) && called == FiresTimes(old(job[..]), alarms)
    {
      called := [];
      for i := 0 to alarms
        invariant job[..] == TickTimes(old(job[..]), i) && called == FiresTimes(old(job[..]), i)
      {
        var now := AlarmAction();
        called := called + now;
      }
    }

    /** at_cacnceljob, with alarms between its tests and its assignment. */
    method CancelJob(slot: int, alarms: nat) returns (answer: Answer, called: seq<nat>)
      modifies job
      ensures answer == TableReply(old(job[..]), Cancel(slot, alarms))
      ensures job[..] == TableNext(old(job[..]), Cancel(slot, alarms), added)
      ensures called == if answer.Done? then FiresTimes(old(job[..]), alarms) else []
    {
      if slot < 0 || slot > job.Length { return EINVAL, []; }
      if slot == job.Length { return PastTable, []; }
      if job[slot] == None { return EINVAL, []; }
      if job[slot].value.state == Cancelled { return ECANCELED, []; }
      if job[slot].value.state == Finished { return EBUSY, []; }
      called := Interrupt(alarms);
      assert job[..][slot].Some?;
      job[slot] := Some(job[slot].value.(state := Cancelled));
      return Done(0), called;
    }

    /** One look of at_waitjob at the job; while it is running the caller pauses and looks again.  An alarm
        between freeing the job and clearing its slot makes the handler read freed memory: `wild`. */
    method WaitJob(slot: int, alarms: nat) returns (answer: Answer, wild: bool)
      modifies job
      ensures answer == TableReply(old(job[..]), Wait(slot, alarms))
      ensures wild <==> answer.Done? && alarms > 0
      ensures !wild ==> job[..] == TableNext(old(job[..]), Wait(slot, alarms), added)
    {
      wild := false;
      if slot < 0 || slot > job.Length { return EINVAL, wild; }
      if slot == job.Length { return PastTable, wild; }
      if job[slot] == None { return EINVAL, wild; }
      if job[slot].value.repeat { return EBUSY, wild; }
      if job[slot].value.state == Running { return StillRunning, wild; }
      wild := alarms > 0;
      job[slot] := None;
      return Done(0), wild;
    }
  }

  // ---------------------------------------------------------------- the clock and the calendar

  /** What a caller remembers of a job: when it was added, its parameters, and when it was cancelled. */
  datatype Record = Record(start: nat, sec: int, repeat: bool, cancelled: Option<nat>)

  /** The library with the clock, the record of every job ever added and the seconds at which each of
      them was called back.  Once the handler has read freed memory nothing more is known, and the run ends. */
  datatype World = World(table: seq<Option<Job>>, now: nat, records: seq<Record>, calls: seq<seq<nat>>, wild: bool)

  function Init(jobMax: nat): World {
    World(seq(jobMax, _ => None), 0, [], [], false)
  }

  /** The calls after an alarm: one more for every time a job is among those called. */
  function NewCalls(w: World): seq<seq<nat>> {
    seq(|w.calls|, id requires 0 <= id < |w.calls| =>
      w.calls[id] + seq(multiset(Fires(w.table))[id], _ => w.now + 1))
  }

  function AfterAlarm(w: World): World {
    w.(table := TickTable(w.table), now := w.now + 1, calls := NewCalls(w))
  }

  function Alarms(w: World, alarms: nat): (r: World)
    ensures r.table == TickTimes(w.table, alarms) && r.records == w.records && r.now == w.now + alarms
    ensures r.wild == w.wild
  {
    if alarms == 0 then w else AfterAlarm(Alarms(w, alarms - 1))
  }

  /** The assignment of at_cacnceljob, and the note its caller makes of it. */
  function Cancelling(w: World, slot: int): World
    requires 0 <= slot < |w.table| && w.table[slot].Some?
  {
    var id := w.table[slot].value.id;
    if id < |w.records|
    then w.(table := SetCancelled(w.table, slot), records := w.records[id := w.records[id].(cancelled := Some(w.now))])
    else w
  }

  function Step(w: World, op: Op): World {
    if w.wild then w else
    match op
    case Alarm => AfterAlarm(w)
    case Add(sec, repeat) =>
      if TableReply(w.table, op).Done?
      then w.(table := TableNext(w.table, op, |w.records|),
              records := w.records + [Record(w.now, sec, repeat, None)], calls := w.calls + [[]])
      else w
    case Cancel(slot, alarms) =>
      if TableReply(w.table, op).Done? then Cancelling(Alarms(w, alarms), slot) else w
    case Wait(slot, alarms) =>
      if TableReply(w.table, op).Done? && alarms > 0 then w.(wild := true)
      else w.(table := TableNext(w.table, op, |w.records|))
  }

  function Run(w: World, ops: seq<Op>): World {
    if ops == [] then w else Step(Run(w, ops[..|ops| - 1]), ops[|ops| - 1])
  }

  /** The last second that counts for a job. */
  function Horizon(r: Record, now: nat): nat {
    if r.cancelled.Some? then r.cancelled.value else now
  }

  /** The absolute deadlines of a job up to a second. */
  function Deadlines(r: Record, upTo: nat): seq<nat> {
    if r.sec < 1 || upTo < r.start + r.sec then []
    else if r.repeat then seq((upTo - r.start) / r.sec, i requires 0 <= i => r.start + (i + 1) * r.sec)
    else [r.start + r.sec]
  }

  // ---------------------------------------------------------------- refinement

  /** The countdown of a running job, from its record. */
  ghost predicate Counts(j: Job, r: Record, now: nat) {
    && r.start <= now && r.cancelled == None
    && j.sec == r.sec >= 0 && j.repeat == r.repeat
    && (if r.sec == 0 then j.remain == r.start - now
        else if r.repeat then j.remain == r.sec - (now - r.start) % r.sec
        else j.remain == r.sec - (now - r.start) > 0)
  }

  /** A job that will not be called again. */
  ghost predicate Settled(r: Record, now: nat) {
    r.cancelled.Some? || (!r.repeat && r.sec >= 1 && r.start + r.sec <= now)
  }

  ghost predicate RunsIn(table: seq<Option<Job>>, slot: nat, id: nat) {
    slot < |table| && table[slot].Some? && table[slot].value.state == Running && table[slot].value.id == id
  }

  /** Every slot holds a job of its own that is on record, with the right countdown while it runs. */
  ghost predicate SlotsInv(w: World) {
    && |w.calls| == |w.records|
    && DistinctIds(w.table)
    && (forall s :: 0 <= s < |w.table| && w.table[s].Some? ==> w.table[s].value.id < |w.records|)
    && (forall s :: 0 <= s < |w.table| ==> SlotCounts(w, w.table[s]))
  }

  /** A one-shot job whose deadline has come, not cancelled. */
  predicate Expired(r: Record, now: nat) {
    r.cancelled == None && !r.repeat && r.sec >= 1 && r.start + r.sec <= now
  }

  /** The countdown of a running job, and what the state of any job says of its history. */
  ghost predicate SlotCounts(w: World, slot: Option<Job>) {
    slot.Some? && slot.value.id < |w.records| ==>
      var j, r := slot.value, w.records[slot.value.id];
      && (j.state == Running ==> Counts(j, r, w.now))
      && j.repeat == r.repeat
      && (j.state == Cancelled <==> r.cancelled.Some?)
      && (j.state == Finished <==> Expired(r, w.now))
  }

  /** A job on record was called at its deadlines, and is settled or still running in some slot. */
  ghost predicate Tracked(w: World, id: nat)
    requires id < |w.records| == |w.calls|
  {
    && (Settled(w.records[id], w.now) || exists s: nat :: RunsIn(w.table, s, id))
    && w.calls[id] == Deadlines(w.records[id], Horizon(w.records[id], w.now))
  }

  ghost predicate Inv(w: World) {
    SlotsInv(w) && forall id :: 0 <= id < |w.records| ==> Tracked(w, id)
  }

  ghost predicate DistinctIds(table: seq<Option<Job>>) {
    forall s, u :: 0 <= s < u < |table| && table[s].Some? && table[u].Some? ==> table[s].value.id != table[u].value.id
  }

  /** One second of a running job: its deadlines grow exactly when its countdown reaches zero, and its
      countdown goes on agreeing with its record, or it is settled. */
  lemma JobTicks(j: Job, r: Record, now: nat)
    requires Counts(j, r, now) && j.state == Running
    ensures Deadlines(r, now + 1) == Deadlines(r, now) + if j.remain == 1 then [now + 1] else []
    ensures var j' := TickJob(Some(j)).value;
      && j'.id == j.id
      && (j'.state == Running ==> Counts(j', r, now + 1))
      && (j'.state != Running ==> Settled(r, now + 1))
  {
    if r.sec >= 1 && r.repeat {
      var e := now - r.start;
      NextQuotient(e, r.sec);
      if e + 1 < r.sec { QuotientIs(e, r.sec, 0, e); }
      assert Deadlines(r, now) == seq(e / r.sec, i requires 0 <= i => r.start + (i + 1) * r.sec) by {
        if e < r.sec { QuotientIs(e, r.sec, 0, e); }
      }
      assert Deadlines(r, now + 1) == seq((e + 1) / r.sec, i requires 0 <= i => r.start + (i + 1) * r.sec) by {
        if e + 1 < r.sec { QuotientIs(e + 1, r.sec, 0, e + 1); }
      }
    }
  }

  /** A job that is due in no slot is not called. */
  lemma {:induction false} NotCalled(table: seq<Option<Job>>, id: nat)
    requires forall s :: 0 <= s < |table| && Due(table[s]) ==> table[s].value.id != id
    ensures multiset(Fires(table))[id] == 0
  {
    if table != [] {
      NotCalled(table[..|table| - 1], id);
    }
  }

  /** A job that is due is called exactly once. */
  lemma {:induction false} CalledOnce(table: seq<Option<Job>>, slot: nat)
    requires DistinctIds(table) && slot < |table| && Due(table[slot])
    ensures multiset(Fires(table))[table[slot].value.id] == 1
  {
    var n := |table| - 1;
    if slot == n {
      NotCalled(table[..n], table[slot].value.id);
    } else {
      CalledOnce(table[..n], slot);
    }
  }

  /** The callbacks of one alarm come in the order of the slots. */
  lemma {:induction false} FiresInOrder(front: seq<Option<Job>>, back: seq<Option<Job>>)
    ensures Fires(front + back) == Fires(front) + Fires(back)
  {
    if back == [] {
      assert front + back == front;
    } else {
      var n := |back| - 1;
      FiresInOrder(front, back[..n]);
      assert (front + back)[..|front + back| - 1] == front + back[..n];
    }
  }

  /** A running job is called when its countdown says so. */
  lemma RunningCalled(w: World, s: nat, id: nat)
    requires DistinctIds(w.table) && RunsIn(w.table, s, id) && id < |w.calls|
    ensures AfterAlarm(w).calls[id] == w.calls[id] + if w.table[s].value.remain == 1 then [w.now + 1] else []
  {
    if w.table[s].value.remain == 1 {
      CalledOnce(w.table, s);
    } else {
      NotCalled(w.table, id);
    }
  }

  /** The deadlines of a running job one second on. */
  lemma RunningDue(w: World, id: nat, s: nat)
    requires RunsIn(w.table, s, id) && SlotCounts(w, w.table[s]) && id < |w.records|
    ensures Deadlines(w.records[id], w.now + 1) ==
            Deadlines(w.records[id], w.now) + if w.table[s].value.remain == 1 then [w.now + 1] else []
  {
    JobTicks(w.table[s].value, w.records[id], w.now);
  }

  /** An alarm calls a running job as its deadlines say. */
  lemma AlarmCallsRunning(w: World, id: nat, s: nat)
    requires DistinctIds(w.table) && RunsIn(w.table, s, id) && SlotCounts(w, w.table[s])
    requires id < |w.records| == |w.calls| && w.calls[id] == Deadlines(w.records[id], w.now)
    ensures AfterAlarm(w).calls[id] == Deadlines(w.records[id], w.now + 1)
  {
    RunningDue(w, id, s);
    RunningCalled(w, s, id);
  }

  /** After an alarm a job that was running is settled or still running where it was. */
  lemma AlarmKeepsRunning(w: World, id: nat, s: nat)
    requires RunsIn(w.table, s, id) && id < |w.records| && SlotCounts(w, w.table[s])
    ensures Settled(w.records[id], w.now + 1) || RunsIn(AfterAlarm(w).table, s, id)
    ensures w.records[id].cancelled == None
  {
    JobTicks(w.table[s].value, w.records[id], w.now);
  }

  /** And it does not call one that is not running. */
  lemma AlarmCallsOther(w: World, id: nat)
    requires SlotsInv(w) && id < |w.records| && Tracked(w, id) && !exists s: nat :: RunsIn(w.table, s, id)
    ensures Tracked(AfterAlarm(w), id)
  {
    forall s | 0 <= s < |w.table| && Due(w.table[s]) ensures w.table[s].value.id != id {
      assert !RunsIn(w.table, s, id);
    }
    NotCalled(w.table, id);
    assert AfterAlarm(w).calls[id] == w.calls[id];
  }

  lemma AlarmSlot(w: World, s: nat)
    requires s < |w.table| && SlotCounts(w, w.table[s])
    requires w.table[s].Some? ==> w.table[s].value.id < |w.records|
    ensures SlotCounts(AfterAlarm(w), AfterAlarm(w).table[s])
  {
    if w.table[s].Some? && w.table[s].value.state == Running {
      JobTicks(w.table[s].value, w.records[w.table[s].value.id], w.now);
    }
  }

  lemma StepAlarmSlots(w: World)
    requires SlotsInv(w)
    ensures SlotsInv(AfterAlarm(w))
  {
    forall s | 0 <= s < |w.table| ensures SlotCounts(AfterAlarm(w), AfterAlarm(w).table[s]) {
      assert SlotCounts(w, w.table[s]);
      AlarmSlot(w, s);
    }
  }

  lemma AlarmTracksRunning(w: World, id: nat, s: nat)
    requires DistinctIds(w.table) && RunsIn(w.table, s, id) && SlotCounts(w, w.table[s])
    requires id < |w.records| == |w.calls| && w.calls[id] == Deadlines(w.records[id], w.now)
    ensures Tracked(AfterAlarm(w), id)
  {
    AlarmKeepsRunning(w, id, s);
    AlarmCallsRunning(w, id, s);
  }

  lemma AlarmTracked(w: World, id: nat)
    requires SlotsInv(w) && id < |w.records| && Tracked(w, id)
    ensures Tracked(AfterAlarm(w), id)
  {
    if s: nat :| RunsIn(w.table, s, id) {
      assert SlotCounts(w, w.table[s]);
      AlarmTracksRunning(w, id, s);
    } else {
      AlarmCallsOther(w, id);
    }
  }

  lemma StepAlarm(w: World)
    requires Inv(w)
    ensures Inv(AfterAlarm(w))
  {
    StepAlarmSlots(w);
    forall id | 0 <= id < |w.records| ensures Tracked(AfterAlarm(w), id) {
      AlarmTracked(w, id);
    }
  }

  lemma StepAdd(w: World, op: Op)
    requires Inv(w) && !w.wild && op.Add? && TableReply(w.table, op).Done?
    ensures Inv(Step(w, op))
  {
    var w' := Step(w, op);
    var pos, n := FreePos(w.table), |w.records|;
    forall s | 0 <= s < |w'.table| ensures SlotCounts(w', w'.table[s]) {
      assert SlotCounts(w, w.table[s]);
      if op.sec >= 1 { QuotientIs(0, op.sec, 0, 0); }
    }
    forall id | 0 <= id < |w'.records| ensures Tracked(w', id) {
      if id == n {
        assert RunsIn(w'.table, pos, id);
      } else {
        assert Tracked(w, id);
        if s: nat :| RunsIn(w.table, s, id) {
          assert RunsIn(w'.table, s, id);
        }
      }
    }
  }

  lemma {:induction false} AlarmsInv(w: World, alarms: nat)
    requires Inv(w)
    ensures Inv(Alarms(w, alarms))
  {
    if alarms > 0 {
      AlarmsInv(w, alarms - 1);
      StepAlarm(Alarms(w, alarms - 1));
    }
  }

  /** The assignment settles the job, also when it has finished since the tests, and leaves the others alone. */
  lemma CancellingInv(w: World, slot: int)
    requires Inv(w) && 0 <= slot < |w.table| && w.table[slot].Some?
    requires w.records[w.table[slot].value.id].cancelled == None
    ensures Inv(Cancelling(w, slot))
  {
    var w' := Cancelling(w, slot);
    forall s | 0 <= s < |w'.table| ensures SlotCounts(w', w'.table[s]) {
      assert SlotCounts(w, w.table[s]);
    }
    forall id | 0 <= id < |w'.records| ensures Tracked(w', id) {
      assert Tracked(w, id);
      if s: nat :| RunsIn(w.table, s, id) {
        assert s != slot ==> RunsIn(w'.table, s, id);
      }
    }
  }

  lemma StepCancel(w: World, op: Op)
    requires Inv(w) && op.Cancel? && TableReply(w.table, op).Done?
    ensures Inv(Cancelling(Alarms(w, op.alarms), op.slot))
  {
    assert SlotCounts(w, w.table[op.slot]);
    AlarmsInv(w, op.alarms);
    CancellingInv(Alarms(w, op.alarms), op.slot);
  }

  lemma StepWait(w: World, op: Op)
    requires Inv(w) && op.Wait? && TableReply(w.table, op).Done?
    ensures Inv(Step(w, op))
  {
    var w' := Step(w, op);
    forall s | 0 <= s < |w'.table| ensures SlotCounts(w', w'.table[s]) {
      assert SlotCounts(w, w.table[s]);
    }
    forall id | 0 <= id < |w'.records| ensures Tracked(w', id) {
      assert Tracked(w, id);
      if s: nat :| RunsIn(w.table, s, id) {
        assert RunsIn(w'.table, s, id);
      }
    }
  }

  lemma StepInv(w: World, op: Op)
    requires Inv(w)
    ensures Inv(Step(w, op))
  {
    if op.Alarm? {
      StepAlarm(w);
    } else if TableReply(w.table, op).Done? {
      match op
      case Add(_, _) => if !w.wild { StepAdd(w, op); }
      case Cancel(_, _) => StepCancel(w, op);
      case Wait(_, _) => StepWait(w, op);
    }
  }

  lemma {:induction false} RunInv(jobMax: nat, ops: seq<Op>)
    ensures Inv(Run(Init(jobMax), ops)) && |Run(Init(jobMax), ops).table| == jobMax
  {
    if ops != [] {
      RunInv(jobMax, ops[..|ops| - 1]);
      StepInv(Run(Init(jobMax), ops[..|ops| - 1]), ops[|ops| - 1]);
    }
  }

  // ---------------------------------------------------------------- main results

  /** The countdowns refine the deadlines.  In every run, with any adds, cancels, waits and slots used
      again, and alarms in the middle of calls, each job was called at its deadlines and at no other time: a
      one-shot job once, at start + sec, a repeating one at every multiple, and none from its cancellation
      on. */
  lemma CalledAtDeadlines(jobMax: nat, ops: seq<Op>, id: nat)
    requires id < |Run(Init(jobMax), ops).records|
    ensures var w := Run(Init(jobMax), ops);
      id < |w.calls| && w.calls[id] == Deadlines(w.records[id], Horizon(w.records[id], w.now))
  {
    RunInv(jobMax, ops);
    assert Tracked(Run(Init(jobMax), ops), id);
  }

  /** In figures, for a job that was never cancelled: a repeating one has been called floor(k / sec) times
      in the k seconds since it was added, a one-shot job once if k >= sec, and a job with sec = 0, which
      at_addjob accepts, never. */
  lemma CallCount(jobMax: nat, ops: seq<Op>, id: nat, w: World, r: Record)
    requires w == Run(Init(jobMax), ops) && id < |w.records| && r == w.records[id] && r.cancelled == None
    ensures id < |w.calls| && r.start <= w.now
    ensures |w.calls[id]| ==
            if r.sec < 1 then 0 else if r.repeat then (w.now - r.start) / r.sec
            else if w.now - r.start >= r.sec then 1 else 0
  {
    CalledAtDeadlines(jobMax, ops, id);
    StartedEarlier(jobMax, ops, id);
    DeadlineCount(r, w.now);
  }

  lemma DeadlineCount(r: Record, upTo: nat)
    requires r.start <= upTo
    ensures |Deadlines(r, upTo)| ==
            if r.sec < 1 then 0 else if r.repeat then (upTo - r.start) / r.sec
            else if upTo - r.start >= r.sec then 1 else 0
  {
    if r.sec >= 1 && upTo - r.start < r.sec {
      QuotientIs(upTo - r.start, r.sec, 0, upTo - r.start);
    }
  }

  lemma StepStarts(w: World, op: Op, id: nat)
    requires id < |Step(w, op).records|
    ensures Step(w, op).now >= w.now
    ensures Step(w, op).records[id].start == if id < |w.records| then w.records[id].start else w.now
  {
  }

  lemma {:induction false} StartedEarlier(jobMax: nat, ops: seq<Op>, id: nat)
    requires id < |Run(Init(jobMax), ops).records|
    ensures Run(Init(jobMax), ops).records[id].start <= Run(Init(jobMax), ops).now
  {
    if ops != [] {
      var before := Run(Init(jobMax), ops[..|ops| - 1]);
      StepStarts(before, ops[|ops| - 1], id);
      if id < |before.records| {
        StartedEarlier(jobMax, ops[..|ops| - 1], id);
      }
    }
  }

  ghost predicate HoldsRepeating(table: seq<Option<Job>>, slot: nat, id: nat) {
    slot < |table| && table[slot].Some? && table[slot].value.repeat && table[slot].value.id == id
  }

  /** at_waitjob refuses repeating jobs, cancelled or not, so the slot of a repeating job is never free
      again, whatever is done later. */
  lemma {:induction false} RepeatKeepsSlot(w: World, ops: seq<Op>, slot: nat, id: nat)
    requires HoldsRepeating(w.table, slot, id)
    ensures HoldsRepeating(Run(w, ops).table, slot, id)
  {
    if ops != [] {
      RepeatKeepsSlot(w, ops[..|ops| - 1], slot, id);
    }
  }

  /** Which slots can be used again: in every reachable state, the slot of a job can still be freed if and only
      if the job is not a repeating one. */
  lemma SlotFreedIff(jobMax: nat, before: seq<Op>, slot: nat)
    requires slot < |Run(Init(jobMax), before).table| && Run(Init(jobMax), before).table[slot].Some?
    requires !Run(Init(jobMax), before).wild
    ensures var w := Run(Init(jobMax), before);
      !w.table[slot].value.repeat <==> exists ops :: Frees(w, ops, slot)
  {
    var w := Run(Init(jobMax), before);
    if w.table[slot].value.repeat {
      forall ops ensures !Frees(w, ops, slot) {
        RepeatKeepsSlot(w, ops, slot, w.table[slot].value.id);
      }
    } else {
      RunInv(jobMax, before);
      CancelAndWait(w, slot);
    }
  }

  /** After these operations the slot is free. */
  ghost predicate Frees(w: World, ops: seq<Op>, slot: nat) {
    slot < |Run(w, ops).table| && Run(w, ops).table[slot] == None
  }

  lemma CancelAndWait(w: World, slot: nat)
    requires Inv(w) && !w.wild && slot < |w.table| && w.table[slot].Some? && !w.table[slot].value.repeat
    ensures exists ops :: Frees(w, ops, slot)
  {
    var cancel, wait := [Cancel(slot, 0)], [Wait(slot, 0)];
    assert cancel[..0] == [] && wait[..0] == [];
    if w.table[slot].value.state == Running {
      assert (cancel + wait)[..1] == cancel;
      assert Run(w, cancel) == Step(w, Cancel(slot, 0));
      assert Frees(w, cancel + wait, slot);
    } else {
      assert Frees(w, wait, slot);
    }
  }

  // ---------------------------------------------------------------- what the answers mean

  /** Slot n holds this job, and the other slots what they held. */
  ghost predicate OnlySlot(table: seq<Option<Job>>, table': seq<Option<Job>>, n: int, slot: Option<Job>) {
    && |table'| == |table| && 0 <= n < |table| && table'[n] == slot
    && forall i :: 0 <= i < |table| && i != n ==> table'[i] == table[i]
  }

  ghost predicate Valid(table: seq<Option<Job>>, slot: int) { 0 <= slot < |table| && table[slot].Some? }

  /** What the answer of an addition says: the number of a slot that was free and now holds the new job, which runs
      for its whole period; or that the period is negative, or that no slot is free. */
  lemma AddAnswers(w: World, sec: int, repeat: bool)
    requires !w.wild
    ensures var answer, w' := TableReply(w.table, Add(sec, repeat)), Step(w, Add(sec, repeat));
      match answer
      case Done(n) =>
        && 0 <= sec && n < |w.table| && w.table[n] == None
        && OnlySlot(w.table, w'.table, n, Some(Job(Running, sec, sec, repeat, |w.records|)))
        && w'.records == w.records + [Record(w.now, sec, repeat, None)]
        && w'.calls == w.calls + [[]] && w'.now == w.now
      case EINVAL => sec < 0 && w' == w
      case ENOSPC => 0 <= sec && w' == w && forall i :: 0 <= i < |w.table| ==> w.table[i].Some?
      case _ => false
  {
  }

  /** Every job in the table is on record. */
  ghost predicate OnRecord(w: World) {
    forall s :: 0 <= s < |w.table| && w.table[s].Some? ==> w.table[s].value.id < |w.records|
  }

  lemma RunOnRecord(jobMax: nat, ops: seq<Op>)
    ensures OnRecord(Run(Init(jobMax), ops))
  {
    RunInv(jobMax, ops);
  }

  /** The running job in the slot, and no other, goes on record as cancelled, after these alarms. */
  ghost predicate CancelsJob(w: World, w': World, slot: int, alarms: nat) {
    && Valid(w.table, slot) && w.table[slot].value.state == Running && w.table[slot].value.id < |w.records|
    && w'.now == w.now + alarms
    && w'.records == w.records[w.table[slot].value.id := w.records[w.table[slot].value.id].(cancelled := Some(w'.now))]
    && Valid(TickTimes(w.table, alarms), slot)
    && OnlySlot(TickTimes(w.table, alarms), w'.table, slot,
                Some(TickTimes(w.table, alarms)[slot].value.(state := Cancelled)))
  }

  lemma CancelDone(w: World, slot: int, alarms: nat)
    requires !w.wild && Valid(w.table, slot) && w.table[slot].value.state == Running
    requires w.table[slot].value.id < |w.records|
    ensures CancelsJob(w, Step(w, Cancel(slot, alarms)), slot, alarms)
  {
    var later := Alarms(w, alarms);
    assert later.table[slot].value.id == w.table[slot].value.id;
    assert Step(w, Cancel(slot, alarms)) == Cancelling(later, slot);
  }

  /** What the answer of a cancellation says of the job in the slot, and that no other job is touched. */
  lemma CancelAnswers(w: World, slot: int, alarms: nat)
    requires OnRecord(w) && !w.wild
    ensures var answer, w' := TableReply(w.table, Cancel(slot, alarms)), Step(w, Cancel(slot, alarms));
      && (answer != Done(0) ==> w' == w)
      && match answer
         case Done(n) => n == 0 && CancelsJob(w, w', slot, alarms)
         case ECANCELED => Valid(w.table, slot) && w.table[slot].value.state == Cancelled
         case EBUSY => Valid(w.table, slot) && w.table[slot].value.state == Finished
         case EINVAL => !Valid(w.table, slot) && slot != |w.table|
         case PastTable => slot == |w.table|
         case _ => false
  {
    if Valid(w.table, slot) && w.table[slot].value.state == Running {
      CancelDone(w, slot, alarms);
    }
  }

  /** What the answer of a wait says of the job in the slot, and that no other slot is touched. */
  lemma WaitAnswers(w: World, slot: int, alarms: nat)
    requires !w.wild
    ensures var answer, w' := TableReply(w.table, Wait(slot, alarms)), Step(w, Wait(slot, alarms));
      && (answer != Done(0) ==> w' == w)
      && match answer
         case Done(n) =>
           && n == 0 && Valid(w.table, slot) && !w.table[slot].value.repeat && w.table[slot].value.state != Running
           && (alarms > 0 <==> w'.wild)
           && (alarms == 0 ==> w' == w.(table := w'.table) && OnlySlot(w.table, w'.table, slot, None))
         case StillRunning =>
           Valid(w.table, slot) && !w.table[slot].value.repeat && w.table[slot].value.state == Running
         case EBUSY => Valid(w.table, slot) && w.table[slot].value.repeat
         case EINVAL => !Valid(w.table, slot) && slot != |w.table|
         case PastTable => slot == |w.table|
         case _ => false
  {
  }

  /** The number that an addition answers is good for the job it added: cancelling it right away succeeds, and
      cancels that job and no other, in every reachable state. */
  lemma AddThenCancel(jobMax: nat, before: seq<Op>, sec: int, repeat: bool, n: nat, alarms: nat)
    requires var w := Run(Init(jobMax), before); !w.wild && TableReply(w.table, Add(sec, repeat)) == Done(n)
    ensures var w := Run(Init(jobMax), before);
      NumberIsGood(w, Step(w, Add(sec, repeat)), Record(w.now, sec, repeat, None), n, alarms)
  {
    RunOnRecord(jobMax, before);
    AddedIsCancelled(Run(Init(jobMax), before), sec, repeat, n, alarms);
  }

  /** A cancellation of slot n succeeds, and cancels the job that has gone on record last, and no other. */
  ghost predicate NumberIsGood(w: World, added: World, r: Record, n: nat, alarms: nat) {
    && added.records == w.records + [r] && added.now == w.now
    && TableReply(added.table, Cancel(n, alarms)) == Done(0)
    && Step(added, Cancel(n, alarms)).records == w.records + [r.(cancelled := Some(added.now + alarms))]
  }

  lemma AddedIsCancelled(w: World, sec: int, repeat: bool, n: nat, alarms: nat)
    requires OnRecord(w) && !w.wild && TableReply(w.table, Add(sec, repeat)) == Done(n)
    ensures NumberIsGood(w, Step(w, Add(sec, repeat)), Record(w.now, sec, repeat, None), n, alarms)
  {
    AddAnswers(w, sec, repeat);
    CancelAdded(w, Step(w, Add(sec, repeat)), n, alarms, Record(w.now, sec, repeat, None));
  }

  lemma CancelAdded(w: World, added: World, n: nat, alarms: nat, r: Record)
    requires OnRecord(w) && !added.wild && added.records == w.records + [r] && added.now == w.now
    requires Valid(added.table, n)
    requires added.table[n].value.state == Running && added.table[n].value.id == |w.records|
    requires OnlySlot(w.table, added.table, n, added.table[n])
    ensures NumberIsGood(w, added, r, n, alarms)
  {
    CancelAnswers(added, n, alarms);
    assert (w.records + [r])[|w.records| := r.(cancelled := Some(added.now + alarms))] ==
           w.records + [r.(cancelled := Some(added.now + alarms))];
  }

  /** What cancelling and waiting answer, from the history alone: in every reachable state, for the job in a slot, a
      cancellation answers ECANCELED exactly if the job was cancelled before, EBUSY exactly if it was a one-shot job
      whose deadline has come, and 0 otherwise; a wait answers EBUSY exactly for a repeating job, and otherwise 0 as
      soon as the job was cancelled or its deadline has come. */
  lemma AnswersFromRecord(jobMax: nat, before: seq<Op>, slot: nat, alarms: nat, r: Record)
    requires Valid(Run(Init(jobMax), before).table, slot)
    requires var w := Run(Init(jobMax), before);
      w.table[slot].value.id < |w.records| && r == w.records[w.table[slot].value.id]
    ensures var w := Run(Init(jobMax), before);
      && TableReply(w.table, Cancel(slot, alarms)) ==
           (if r.cancelled.Some? then ECANCELED else if Expired(r, w.now) then EBUSY else Done(0))
      && TableReply(w.table, Wait(slot, alarms)) ==
           (if r.repeat then EBUSY else if r.cancelled.Some? || Expired(r, w.now) then Done(0) else StillRunning)
  {
    var w := Run(Init(jobMax), before);
    RunInv(jobMax, before);
    assert SlotCounts(w, w.table[slot]);
  }

  // ---------------------------------------------------------------- calls interrupted by alarms

  lemma StepKeepsCancelled(w: World, op: Op, id: nat)
    requires Inv(w) && id < |w.records| && w.records[id].cancelled.Some?
    ensures var w' := Step(w, op); id < |w'.records| && w'.records[id] == w.records[id]
  {
    if op.Cancel? && TableReply(w.table, op).Done? {
      assert SlotCounts(w, w.table[op.slot]);
    }
  }

  /** A job that is cancelled is never called again, whatever is done later. */
  lemma {:induction false} NeverAgain(w: World, more: seq<Op>, id: nat)
    requires Inv(w) && id < |w.records| && w.records[id].cancelled.Some?
    ensures var w' := Run(w, more);
      Inv(w') && id < |w'.records| && w'.records[id] == w.records[id] && w'.calls[id] == w.calls[id]
  {
    if more != [] {
      var n := |more| - 1;
      NeverAgain(w, more[..n], id);
      StepInv(Run(w, more[..n]), more[n]);
      StepKeepsCancelled(Run(w, more[..n]), more[n], id);
    }
    assert Tracked(w, id) && Tracked(Run(w, more), id);
  }

  /** What an answer of 0 from at_cacnceljob promises: the job is never called from the return on.  It may
      have been called during the call, and it was exactly if a deadline fell between the tests and the
      assignment; without an alarm there it was not. */
  lemma CancelPromises(jobMax: nat, before: seq<Op>, slot: int, alarms: nat, more: seq<Op>)
    requires var w := Run(Init(jobMax), before); !w.wild && TableReply(w.table, Cancel(slot, alarms)) == Done(0)
    ensures var w := Run(Init(jobMax), before);
      var w', id := Step(w, Cancel(slot, alarms)), w.table[slot].value.id;
      && id < |w.calls| && id < |w'.calls| && id < |w.records| && w'.now == w.now + alarms
      && w'.calls[id] == Deadlines(w.records[id], w'.now)
      && w.calls[id] == Deadlines(w.records[id], w.now)
      && id < |Run(w', more).calls| && Run(w', more).calls[id] == w'.calls[id]
  {
    var w := Run(Init(jobMax), before);
    var w', id := Step(w, Cancel(slot, alarms)), w.table[slot].value.id;
    RunInv(jobMax, before);
    assert SlotCounts(w, w.table[slot]) && Tracked(w, id);
    StepInv(w, Cancel(slot, alarms));
    assert Tracked(w', id);
    SameDeadlines(w.records[id], w'.records[id], w'.now);
    NeverAgain(w', more, id);
  }

  /** The jobs called in the records are those among `called`. */
  ghost predicate CallsAre(calls: seq<seq<nat>>, calls': seq<seq<nat>>, called: seq<nat>) {
    |calls'| == |calls| && forall id :: 0 <= id < |calls| ==> |calls'[id]| == |calls[id]| + multiset(called)[id]
  }

  lemma AlarmCallsNext(calls: seq<seq<nat>>, w: World, called: seq<nat>)
    requires CallsAre(calls, w.calls, called)
    ensures CallsAre(calls, AfterAlarm(w).calls, called + Fires(w.table))
  {
    forall id ensures multiset(called + Fires(w.table))[id] == (multiset(called) + multiset(Fires(w.table)))[id] {
    }
  }

  /** What a cancellation reports as called is what goes on record: every job once for every time it is called. */
  lemma {:induction false} AlarmsCall(w: World, alarms: nat)
    ensures CallsAre(w.calls, Alarms(w, alarms).calls, FiresTimes(w.table, alarms))
  {
    if alarms > 0 {
      AlarmsCall(w, alarms - 1);
      AlarmCallsNext(w.calls, Alarms(w, alarms - 1), FiresTimes(w.table, alarms - 1));
    }
  }

  /** Deadlines do not depend on the cancellation. */
  lemma SameDeadlines(r: Record, r': Record, upTo: nat)
    requires r' == r.(cancelled := r'.cancelled)
    ensures Deadlines(r', upTo) == Deadlines(r, upTo)
  {
  }

  /** Operation k frees a job and is interrupted by an alarm before it clears the slot. */
  ghost predicate FreesUnderAlarm(jobMax: nat, ops: seq<Op>, k: nat) {
    && k < |ops| && ops[k].Wait? && ops[k].alarms > 0
    && !Run(Init(jobMax), ops[..k]).wild && TableReply(Run(Init(jobMax), ops[..k]).table, ops[k]).Done?
  }

  lemma WildNext(jobMax: nat, ops: seq<Op>)
    requires ops != []
    ensures var n := |ops| - 1;
      Run(Init(jobMax), ops).wild <==> Run(Init(jobMax), ops[..n]).wild || FreesUnderAlarm(jobMax, ops, n)
  {
  }

  /** The handler reads freed memory in exactly the runs in which an alarm interrupts an at_waitjob that
      succeeds, between freeing the job and clearing its slot. */
  lemma {:induction false} WildIff(jobMax: nat, ops: seq<Op>)
    ensures Run(Init(jobMax), ops).wild <==> exists k: nat :: FreesUnderAlarm(jobMax, ops, k)
  {
    if ops != [] {
      var n := |ops| - 1;
      WildIff(jobMax, ops[..n]);
      WildNext(jobMax, ops);
      if k: nat :| FreesUnderAlarm(jobMax, ops[..n], k) {
        assert ops[..n][..k] == ops[..k] && FreesUnderAlarm(jobMax, ops, k);
      }
      if k: nat :| FreesUnderAlarm(jobMax, ops, k) {
        assert k < n ==> ops[..n][..k] == ops[..k] && FreesUnderAlarm(jobMax, ops[..n], k);
      }
    }
  }
}
