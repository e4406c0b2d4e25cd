/** The token-bucket library (Linuxlhq/IPV4Muticast/src/server/mytbf.c, and the same code in
    Linuxlhq/004Concurrent/thread/posix/mytbf_mutcond/mytbf.c): a table of buckets that one thread tops up
    once a second, from which callers fetch tokens and to which they return what they did not use.

    Every operation on a bucket runs under the bucket's mutex and is one step here.  A fetch from an
    empty bucket waits; it is then a step that changes nothing. */
module TokenBucket {
  import opened Basics

  datatype Bucket = Bucket(cps: int, burst: int, token: int)

  datatype Op = Tick | Fetch(size: int) | GiveBack(size: int)

  datatype Answer = Invalid | Waits | Tokens(n: int)

  function Clamp(token: int, burst: int): int { if token > burst then burst else token }

  /** What the caller of an operation gets.  A fetch that succeeds gets at least one token, and either all it
      asked for or all there are; it waits exactly while there are none.  A return answers how many it returned.
      A size that is not positive is refused. */
  function Reply(b: Bucket, op: Op): (r: Answer)
    ensures op.Fetch? && op.size > 0 && b.token > 0 ==>
      r.Tokens? && 1 <= r.n <= op.size && r.n <= b.token && (r.n == op.size || r.n == b.token)
    ensures r == Invalid <==> !op.Tick? && op.size <= 0
    ensures r == Waits <==> op.Fetch? && op.size > 0 && b.token <= 0
    ensures op.GiveBack? && op.size > 0 ==> r == Tokens(op.size)
  {
    match op
    case Tick => Tokens(0)
    case Fetch(size) =>
      if size <= 0 then Invalid else if b.token <= 0 then Waits
      else Tokens(if b.token < size then b.token else size)
    case GiveBack(size) => if size <= 0 then Invalid else Tokens(size)
  }

  function Apply(b: Bucket, op: Op): Bucket {
    match op
    case Tick => b.(token := Clamp(b.token + b.cps, b.burst))
    case Fetch(_) => if Reply(b, op).Tokens? then b.(token := b.token - Reply(b, op).n) else b
    case GiveBack(size) => if size <= 0 then b else b.(token := Clamp(b.token + size, b.burst))
  }

  /** What happens to the table: a second, a new bucket, a fetch or a return at the bucket in a slot, or the
      destruction of that bucket. */
  datatype TableEvent = TickAll | Make(cps: int, burst: int) | Use(slot: nat, op: Op) | Drop(slot: nat)

  type Slots = seq<Option<Bucket>>

  function ApplySlot(slot: Option<Bucket>, op: Op): Option<Bucket> {
    if slot == None then None else Some(Apply(slot.value, op))
  }

  function TickSlots(slots: Slots): (r: Slots)
    ensures |r| == |slots| && forall i :: 0 <= i < |r| ==> r[i] == ApplySlot(slots[i], Tick)
  {
    seq(|slots|, i requires 0 <= i < |slots| => ApplySlot(slots[i], Tick))
  }

  function Happen(slots: Slots, ev: TableEvent): (r: Slots)
    ensures |r| == |slots|
  {
    match ev
    case TickAll => TickSlots(slots)
    case Make(cps, burst) => if FreePos(slots) < 0 then slots else slots[FreePos(slots) := Some(Bucket(cps, burst, 0))]
    case Use(slot, op) => if slot < |slots| && !op.Tick? then slots[slot := ApplySlot(slots[slot], op)] else slots
    case Drop(slot) => if slot < |slots| then slots[slot := None] else slots
  }

  function TableRun(max: nat, script: seq<TableEvent>): (r: Slots)
    ensures |r| == max
  {
    if script == [] then seq(max, _ => None) else Happen(TableRun(max, script[..|script| - 1]), script[|script| - 1])
  }

  // ---------------------------------------------------------------- the objects

  class MyTbf {
    const cps: int
    const burst: int
    var token: int
    var pos: int

    ghost function View(): Bucket reads this { Bucket(cps, burst, token) }

    constructor (cps: int, burst: int)
      ensures View() == Bucket(cps, burst, 0) && this.cps == cps && this.burst == burst
    {
      this.cps, this.burst, token, pos := cps, burst, 0, -1;
    }

    method Refill()
      modifies this`token
      ensures View() == Apply(old(View()), Tick)
    {
      token := token + cps;
      if token > burst {
        token := burst;
      }
    }

    method FetchToken(size: int) returns (answer: Answer)
      modifies this`token
      ensures answer == Reply(old(View()), Fetch(size)) && View() == Apply(old(View()), Fetch(size))
    {
      if size <= 0 { return Invalid; }
      if token <= 0 { return Waits; }
      var n := if token < size then token else size;
      token := token - n;
      return Tokens(n);
    }

    method ReturnToken(size: int) returns (answer: Answer)
      modifies this`token
      ensures answer == Reply(old(View()), GiveBack(size)) && View() == Apply(old(View()), GiveBack(size))
    {
      if size <= 0 { return Invalid; }
      token := token + size;
      if token > burst {
        token := burst;
      }
      return Tokens(size);
    }
  }

  /** The table job[MYTBF_MAX]. */
  class Table {
    const job: array<MyTbf?>

    /** Every live bucket knows its slot, so different slots hold different buckets. */
    ghost predicate Valid() reads this, job, Live() {
      forall i :: 0 <= i < job.Length && job[i] != null ==> job[i].pos == i
    }

    /** The bucket in a slot. */
    ghost function Slot(i: nat): Option<Bucket>
      requires i < job.Length
      reads this, job, job[i]
    {
      if job[i] == null then None else Some(job[i].View())
    }

    ghost function View(): (s: Slots)
      reads this, job, Live()
      ensures |s| == job.Length && forall i :: 0 <= i < job.Length ==> s[i] == Slot(i)
    {
      seq(job.Length, i requires 0 <= i < job.Length reads this, job, Live() => Slot(i))
    }

    ghost function Live(): set<MyTbf> reads this, job {
      set i | 0 <= i < job.Length && job[i] != null :: job[i] as MyTbf
    }

    constructor (max: nat)
      ensures fresh(job) && job.Length == max && Valid() && Live() == {} && View() == TableRun(max, [])
    {
      job := new MyTbf?[max](_ => null);
    }

    /** The first free slot, or -1. */
    method GetFreePos() returns (pos: int)
      ensures -1 <= pos < job.Length
      ensures pos == -1 ==> forall i :: 0 <= i < job.Length ==> job[i] != null
      ensures pos >= 0 ==> job[pos] == null && forall i :: 0 <= i < pos ==> job[i] != null
      ensures pos == FreePos(View())
    {
      for i := 0 to job.Length
        invariant forall k :: 0 <= k < i ==> job[k] != null
      {
        if job[i] == null {
          assert View()[i] == Slot(i) == None;
          assert forall k :: 0 <= k < i ==> View()[k] == Slot(k);
          return i;
        }
      }
      assert forall k :: 0 <= k < job.Length ==> View()[k] == Slot(k);
      return -1;
    }

    /** A new empty bucket in the first free slot; null and no change when the table is full. */
    method Init(cps: int, burst: int) returns (me: MyTbf?)
      requires Valid()
      modifies job
      ensures Valid()
      ensures me == null <==> forall i :: 0 <= i < job.Length ==> old(job[i]) != null
      ensures me == null ==> Live() == old(Live())
      ensures me != null ==> fresh(me) && me.View() == Bucket(cps, burst, 0)
      ensures me != null ==> Live() == old(Live()) + {me} && 0 <= me.pos < job.Length && job[me.pos] == me
      ensures forall i :: 0 <= i < job.Length && (me == null || i != me.pos) ==> job[i] == old(job[i])
      ensures View() == Happen(old(View()), Make(cps, burst))
    {
      var b := new MyTbf(cps, burst);
      var pos := GetFreePos();
      if pos < 0 { return null; }
      b.pos := pos;
      job[pos] := b;
      me := b;
      assert Live() == old(Live()) + {me} by {
        forall x | x in old(Live()) ensures x in Live() {
          var i :| 0 <= i < job.Length && old(job[i]) == x;
          assert job[i] == x;
        }
      }
      assert View() == old(View())[pos := Some(Bucket(cps, burst, 0))];
    }

    /** One second: every live bucket ticks once, and nothing else happens. */
    method TickAll()
      requires Valid()
      modifies Live()
      ensures Valid() && Live() == old(Live())
      ensures forall b :: b in Live() ==> b.View() == Apply(old(b.View()), Tick) && b.pos == old(b.pos)
      ensures View() == Happen(old(View()), TableEvent.TickAll)
    {
      for i := 0 to job.Length
        invariant forall k :: 0 <= k < job.Length && job[k] != null ==> job[k].pos == k
        invariant forall k :: 0 <= k < i && job[k] != null ==> job[k].View() == Apply(old(job[k].View()), Tick)
        invariant forall k :: i <= k < job.Length && job[k] != null ==> job[k].View() == old(job[k].View())
      {
        if job[i] != null {
          job[i].Refill();
        }
      }
    }

    /** Frees a live bucket's slot; every other slot and every bucket stays as it is. */
    method Destroy(me: MyTbf)
      requires Valid() && me in Live()
      modifies job
      ensures Valid() && Live() == old(Live()) - {me}
      ensures forall i :: 0 <= i < job.Length ==> job[i] == if i == me.pos then null else old(job[i])
      ensures View() == Happen(old(View()), Drop(me.pos))
    {
      job[me.pos] := null;
      assert View() == old(View())[me.pos := None];
      assert Live() == old(Live()) - {me} by {
        forall x | x in old(Live()) && x != me ensures x in Live() {
          var i :| 0 <= i < job.Length && old(job[i]) == x;
          assert job[i] == x;
        }
      }
    }

    /** A fetch or a return at the bucket in a slot disturbs no other bucket. */
    method UseSlot(slot: nat, op: Op)
      requires Valid() && !op.Tick?
      modifies Live()
      ensures Valid() && Live() == old(Live())
      ensures View() == Happen(old(View()), Use(slot, op))
    {
      if slot < job.Length && job[slot] != null {
        match op {
          case Fetch(size) => var _ := job[slot].FetchToken(size);
          case GiveBack(size) => var _ := job[slot].ReturnToken(size);
        }
        assert View() == old(View())[slot := Some(Apply(old(job[slot].View()), op))];
      }
    }

    /** A whole run of the library. */
    method Serve(script: seq<TableEvent>)
      requires Valid() && Live() == {} && View() == TableRun(job.Length, [])
      modifies job
      ensures Valid() && View() == TableRun(job.Length, script)
    {
      assert script[..0] == [];
      for k := 0 to |script|
        invariant Valid() && fresh(Live()) && View() == TableRun(job.Length, script[..k])
      {
        assert script[..k + 1][..k] == script[..k];
        match script[k] {
          case TickAll => TickAll();
          case Make(cps, burst) => var _ := Init(cps, burst);
          case Use(slot, op) => if !op.Tick? { UseSlot(slot, op); }
          case Drop(slot) => if slot < job.Length && job[slot] != null { Destroy(job[slot]); }
        }
      }
      assert script[..|script|] == script;
    }
  }

  // ---------------------------------------------------------------- conservation

  /** A bucket with the books of a window: ticks, tokens fetched, tokens returned and tokens lost because
      the bucket was full. */
  datatype Ledger = Ledger(b: Bucket, ticks: nat, fetched: int, returned: int, lost: int)

  function Open(b: Bucket): Ledger { Ledger(b, 0, 0, 0, 0) }

  function Overflow(token: int, burst: int): int { if token > burst then token - burst else 0 }

  /** Tokens are lost only into a bucket that is full afterwards. */
  function Book(l: Ledger, op: Op): (r: Ledger)
    ensures r.b == Apply(l.b, op) && r.lost >= l.lost
    ensures r.lost > l.lost ==> r.b.token == r.b.burst
  {
    var b' := Apply(l.b, op);
    match op
    case Tick => l.(b := b', ticks := l.ticks + 1, lost := l.lost + Overflow(l.b.token + l.b.cps, l.b.burst))
    case Fetch(_) => l.(b := b', fetched := l.fetched + if Reply(l.b, op).Tokens? then Reply(l.b, op).n else 0)
    case GiveBack(size) =>
      if size <= 0 then l.(b := b')
      else l.(b := b', returned := l.returned + size, lost := l.lost + Overflow(l.b.token + size, l.b.burst))
  }

  function Run(l: Ledger, ops: seq<Op>): Ledger {
    if ops == [] then l else Book(Run(l, ops[..|ops| - 1]), ops[|ops| - 1])
  }

  /** Tokens are neither made nor destroyed except by ticks and by a full bucket. */
  lemma {:induction false} Conservation(b: Bucket, ops: seq<Op>)
    ensures var l := Run(Open(b), ops);
      && l.fetched - l.returned + l.b.token + l.lost == b.token + l.ticks * b.cps
      && l.lost >= 0 && l.b.cps == b.cps && l.b.burst == b.burst
  {
    if ops != [] {
      Conservation(b, ops[..|ops| - 1]);
      var l := Run(Open(b), ops[..|ops| - 1]);
      assert (l.ticks + 1) * b.cps == l.ticks * b.cps + b.cps;
    }
  }

  /** A run goes on with the bucket it has: new books may be opened at any time. */
  lemma {:induction false} RunGoesOn(b: Bucket, before: seq<Op>, window: seq<Op>)
    ensures Run(Open(b), before + window).b == Run(Open(Run(Open(b), before).b), window).b
  {
    if window == [] {
      assert before + window == before;
    } else {
      var w := window[..|window| - 1];
      assert (before + window)[..|before + window| - 1] == before + w;
      RunGoesOn(b, before, w);
    }
  }

  ghost predicate InBounds(b: Bucket) { 0 <= b.token <= b.burst }

  lemma {:induction false} StaysInBounds(b: Bucket, ops: seq<Op>)
    requires InBounds(b) && b.cps >= 0
    ensures InBounds(Run(Open(b), ops).b)
  {
    if ops != [] {
      StaysInBounds(b, ops[..|ops| - 1]);
      Conservation(b, ops[..|ops| - 1]);
    }
  }

  /** The rate limit: over any stretch of any run, the net number of tokens handed out is at most the
      burst plus cps for every tick in it. */
  lemma RateLimit(b: Bucket, before: seq<Op>, window: seq<Op>)
    requires InBounds(b) && b.cps >= 0
    ensures var l := Run(Open(Run(Open(b), before).b), window);
      l.fetched - l.returned <= b.burst + l.ticks * b.cps
  {
    StaysInBounds(b, before);
    Conservation(b, before);
    StaysInBounds(Run(Open(b), before).b, window);
    Conservation(Run(Open(b), before).b, window);
  }

  /** A new bucket keeps 0 <= token <= burst in all runs if and only if neither rate nor burst is
      negative; the library does not check either. */
  lemma BoundsIff(cps: int, burst: int)
    ensures cps >= 0 && burst >= 0 <==> forall ops: seq<Op> :: InBounds(Run(Open(Bucket(cps, burst, 0)), ops).b)
  {
    var b := Bucket(cps, burst, 0);
    if cps >= 0 && burst >= 0 {
      forall ops: seq<Op> ensures InBounds(Run(Open(b), ops).b) {
        StaysInBounds(b, ops);
      }
    } else {
      assert Run(Open(b), []).b == b;
      assert [Tick][..0] == [];
      assert Run(Open(b), [Tick]) == Book(Run(Open(b), []), Tick);
      assert !InBounds(Run(Open(b), []).b) || !InBounds(Run(Open(b), [Tick]).b);
    }
  }

  // ---------------------------------------------------------------- every bucket by itself

  /** A bucket as it was made, and the ticks, fetches and returns it has had since. */
  datatype Life = Life(born: Bucket, ops: seq<Op>)

  function More(l: Option<Life>, op: Op): Option<Life> {
    if l == None then None else Some(l.value.(ops := l.value.ops + [op]))
  }

  /** The life of the bucket that is in slot i at the end of a run. */
  function LifeIn(max: nat, script: seq<TableEvent>, i: nat): Option<Life> {
    if script == [] then None else
    var n := |script| - 1;
    var before := LifeIn(max, script[..n], i);
    match script[n]
    case TickAll => More(before, Tick)
    case Make(cps, burst) =>
      if FreePos(TableRun(max, script[..n])) == i then Some(Life(Bucket(cps, burst, 0), [])) else before
    case Use(slot, op) => if slot == i && !op.Tick? then More(before, op) else before
    case Drop(slot) => if slot == i then None else before
  }

  function Lived(l: Option<Life>): Option<Bucket> {
    if l == None then None else Some(Run(Open(l.value.born), l.value.ops).b)
  }

  lemma LivedMore(l: Option<Life>, op: Op)
    ensures Lived(More(l, op)) == ApplySlot(Lived(l), op)
  {
    if l.Some? {
      var ops := l.value.ops;
      assert (ops + [op])[..|ops|] == ops;
    }
  }

  /** The buckets of the table do not touch each other: in every run of any operations, with slots used again,
      each slot holds what its bucket makes of its own operations and the ticks since it was made. */
  lemma {:induction false} EachAlone(max: nat, script: seq<TableEvent>, i: nat)
    requires i < max
    ensures TableRun(max, script)[i] == Lived(LifeIn(max, script, i))
  {
    if script != [] {
      var n := |script| - 1;
      EachAlone(max, script[..n], i);
      match script[n]
      case TickAll => LivedMore(LifeIn(max, script[..n], i), Tick);
      case Use(slot, op) => LivedMore(LifeIn(max, script[..n], i), op);
      case _ =>
    }
  }

  /** So the books of every bucket of the table balance, and its fetches keep its rate. */
  lemma TableKeepsRates(max: nat, script: seq<TableEvent>, i: nat)
    requires i < max && LifeIn(max, script, i).Some?
    ensures var life := LifeIn(max, script, i).value;
      var born, l := life.born, Run(Open(life.born), life.ops);
      && TableRun(max, script)[i] == Some(l.b)
      && l.fetched - l.returned + l.b.token + l.lost == born.token + l.ticks * born.cps
      && (InBounds(born) && born.cps >= 0 ==> l.fetched - l.returned <= l.ticks * born.cps)
  {
    var life := LifeIn(max, script, i).value;
    EachAlone(max, script, i);
    BornEmpty(max, script, i);
    Conservation(life.born, life.ops);
    if InBounds(life.born) && life.born.cps >= 0 {
      StaysInBounds(life.born, life.ops);
    }
  }

  lemma {:induction false} BornEmpty(max: nat, script: seq<TableEvent>, i: nat)
    requires LifeIn(max, script, i).Some?
    ensures LifeIn(max, script, i).value.born.token == 0
  {
    var n := |script| - 1;
    if LifeIn(max, script[..n], i).Some? {
      BornEmpty(max, script[..n], i);
    }
  }
}
