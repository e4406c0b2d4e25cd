/** The throttled copy (Linuxlhq/004Concurrent/thread/posix/mytbf_mutcond/main.c): fetch tokens, read at
    most that many bytes, return the unused tokens, write what was read, until end of file.

    The script lists, in order, the seconds that pass, the answers of the system calls, and the moments at
    which the program gets to the bucket: a second may pass before a woken fetch runs, or between a read and
    the return of the unused tokens.  It ends somewhere; a claim for all scripts is a claim about every moment
    between two such steps of every run.  The program is first described as a machine that reacts to one event
    at a time; the nested loops are then proved to do what the machine does, and the machine to keep the
    promises of the program. */
module ThrottledCopy {
  import opened Basics
  import opened Bytes
  import opened TokenBucket

  /** Second: the ticker runs once.  Interrupted: the call fails with EINTR.  Fails: any other error.
      Moves: the call succeeds; a read or write then moves up to n bytes.  Runs: the fetch or the return that
      the program is at gets the bucket. */
  datatype Event = Second | Interrupted | Fails | Moves(n: nat) | Runs

  /** How far the program got: the script is over, exit(1), or end of file. */
  datatype Outcome = StillRunning | Failed | AtEof

  /** What the program waits for.  `held` are tokens that were fetched and neither used nor returned. */
  datatype Phase =
    | Opening
    | Fetching
    | Reading(size: nat)
    | Returning(rest: seq<byte>, unused: nat)
    | Writing(rest: seq<byte>)
    | Done(outcome: Outcome, held: nat)

  /** BUFSIZE */
  type Positive = n: int | n > 0 witness 1

  datatype Config = Config(input: seq<byte>, bufsize: Positive, cps: nat, burst: nat)

  /** `lost` counts the tokens that did not fit into the full bucket. */
  datatype State = State(phase: Phase, bucket: Bucket, offset: nat, output: seq<byte>, ticks: nat, lost: nat)

  function Init(c: Config): State {
    State(Opening, Bucket(c.cps, c.burst, 0), 0, [], 0, 0)
  }

  /** A fetch that runs takes what tokens there are, up to the size of the buffer; else it goes on waiting. */
  function AfterFetch(c: Config, s: State): State {
    if s.bucket.token > 0 then
      s.(phase := Reading(Reply(s.bucket, Fetch(c.bufsize)).n), bucket := Apply(s.bucket, Fetch(c.bufsize)))
    else s
  }

  function HeldIn(p: Phase): nat {
    match p
    case Reading(size) => size
    case Returning(rest, unused) => |rest| + unused
    case Writing(rest) => |rest|
    case Done(_, held) => held
    case _ => 0
  }

  /** A successful read moves at least one byte unless the input is at its end. */
  function ReadLength(c: Config, offset: nat, size: nat, n: nat): (len: nat)
    ensures len > 0 ==> len <= size && offset + len <= |c.input|
  {
    Min(Min(size, if offset <= |c.input| then |c.input| - offset else 0), if n == 0 then 1 else n)
  }

  /** What is read is written, after the unused tokens were returned, if there are any. */
  function ToReturn(bytes: seq<byte>, unused: nat): Phase {
    if unused > 0 then Returning(bytes, unused) else Writing(bytes)
  }

  function AfterRead(c: Config, s: State, size: nat, n: nat): State {
    var len := ReadLength(c, s.offset, size, n);
    if len == 0 then s.(phase := Done(AtEof, size))
    else s.(phase := ToReturn(c.input[s.offset..s.offset + len], size - len), offset := s.offset + len)
  }

  function AfterReturn(c: Config, s: State, rest: seq<byte>, unused: nat): State {
    s.(phase := Writing(rest), bucket := Apply(s.bucket, GiveBack(unused)),
       lost := s.lost + Overflow(s.bucket.token + unused, s.bucket.burst))
  }

  /** What is left after a short write is written next; after the last byte tokens are fetched. */
  function ToWrite(rest: seq<byte>): Phase {
    if rest == [] then Fetching else Writing(rest)
  }

  function AfterWrite(c: Config, s: State, rest: seq<byte>, n: nat): State {
    var ret := Min(|rest|, n);
    s.(phase := ToWrite(rest[ret..]), output := s.output + rest[..ret])
  }

  function Next(c: Config, s: State, ev: Event): State {
    if s.phase.Done? then s else
    match ev
    case Second =>
      s.(bucket := Apply(s.bucket, Tick), ticks := s.ticks + 1,
         lost := s.lost + Overflow(s.bucket.token + s.bucket.cps, s.bucket.burst))
    case Interrupted => s
    case Fails =>
      if s.phase.Fetching? || s.phase.Returning? then s else s.(phase := Done(Failed, HeldIn(s.phase)))
    case Moves(n) =>
      (match s.phase
       case Opening => s.(phase := Fetching)
       case Reading(size) => AfterRead(c, s, size, n)
       case Writing(rest) => AfterWrite(c, s, rest, n)
       case _ => s)
    case Runs =>
      (match s.phase
       case Fetching => AfterFetch(c, s)
       case Returning(rest, unused) => AfterReturn(c, s, rest, unused)
       case _ => s)
  }

  function Play(c: Config, s: State, script: seq<Event>): State {
    if script == [] then s else Next(c, Play(c, s, script[..|script| - 1]), script[|script| - 1])
  }

  function Ending(s: State): Outcome {
    if s.phase.Done? then s.phase.outcome else StillRunning
  }

  // ---------------------------------------------------------------- what the machine promises

  /** Every token that ticks have made was written as a byte, is held, is in the bucket, or was lost to the
      full bucket; what was read is what was written and what is still to be written. */
  ghost predicate Inv(c: Config, s: State) {
    && s.bucket.cps == c.cps && s.bucket.burst == c.burst && InBounds(s.bucket)
    && |s.output| + HeldIn(s.phase) + s.bucket.token + s.lost == s.ticks * c.cps
    && HeldIn(s.phase) <= c.bufsize && HeldIn(s.phase) <= c.burst
    && s.offset <= |c.input|
    && match s.phase
       case Reading(size) => size > 0 && s.output == c.input[..s.offset]
       case Returning(rest, unused) => rest != [] && unused > 0 && s.output + rest == c.input[..s.offset]
       case Writing(rest) => rest != [] && s.output + rest == c.input[..s.offset]
       case Done(AtEof, _) => s.output == c.input
       case Done(o, _) => o == Failed && s.output <= c.input
       case Fetching => s.output == c.input[..s.offset]
       case Opening => s.output == [] && s.offset == 0
  }

  lemma ReadInv(c: Config, s: State, n: nat)
    requires Inv(c, s) && s.phase.Reading?
    ensures Inv(c, Next(c, s, Moves(n)))
  {
    var len := ReadLength(c, s.offset, s.phase.size, n);
    if len > 0 {
      assert c.input[..s.offset + len] == c.input[..s.offset] + c.input[s.offset..s.offset + len];
    } else {
      assert c.input[..s.offset] == c.input;
    }
  }

  lemma WriteInv(c: Config, s: State, n: nat)
    requires Inv(c, s) && s.phase.Writing?
    ensures Inv(c, Next(c, s, Moves(n)))
  {
    var rest := s.phase.rest;
    var ret := Min(|rest|, n);
    assert rest == rest[..ret] + rest[ret..];
    assert s.output + rest == s.output + rest[..ret] + rest[ret..];
  }

  lemma TickInv(c: Config, s: State)
    requires Inv(c, s) && !s.phase.Done?
    ensures Inv(c, Next(c, s, Second))
  {
    Distribute(s.ticks + 1, 1, c.cps);
  }

  lemma NextInv(c: Config, s: State, ev: Event)
    requires Inv(c, s)
    ensures Inv(c, Next(c, s, ev))
  {
    if !s.phase.Done? {
      match ev
      case Second => TickInv(c, s);
      case Moves(n) =>
        if s.phase.Reading? {
          ReadInv(c, s, n);
        } else if s.phase.Writing? {
          WriteInv(c, s, n);
        }
      case _ =>
    }
  }

  lemma {:induction false} RunInv(c: Config, script: seq<Event>)
    ensures Inv(c, Play(c, Init(c), script))
  {
    if script != [] {
      RunInv(c, script[..|script| - 1]);
      NextInv(c, Play(c, Init(c), script[..|script| - 1]), script[|script| - 1]);
    }
  }

  lemma Promises(c: Config, s: State)
    requires Inv(c, s)
    ensures s.output <= c.input && (Ending(s) == AtEof ==> s.output == c.input)
    ensures |s.output| <= s.ticks * c.cps
    ensures |s.output| + HeldIn(s.phase) + s.bucket.token + s.lost == s.ticks * c.cps
    ensures 0 <= s.bucket.token <= c.burst && HeldIn(s.phase) <= Min(c.bufsize, c.burst)
  {
  }

  /** Under every script: what is written is a prefix of the input, all of it at end of file, and never more
      bytes than cps for each second; no token is unaccounted for. */
  lemma CopiesAndThrottles(c: Config, script: seq<Event>)
    ensures var s := Play(c, Init(c), script);
      && s.output <= c.input
      && (Ending(s) == AtEof ==> s.output == c.input)
      && |s.output| <= s.ticks * c.cps
      && |s.output| + HeldIn(s.phase) + s.bucket.token + s.lost == s.ticks * c.cps
  {
    RunInv(c, script);
    Promises(c, Play(c, Init(c), script));
  }

  lemma {:induction false} RunAppend(c: Config, s: State, before: seq<Event>, window: seq<Event>)
    ensures Play(c, s, before + window) == Play(c, Play(c, s, before), window)
  {
    if window == [] {
      assert before + window == before;
    } else {
      var w := window[..|window| - 1];
      assert (before + window)[..|before + window| - 1] == before + w;
      RunAppend(c, s, before, w);
    }
  }

  /** In every stretch of a run the bytes written are at most cps for each second in it, plus what a full
      bucket and a fetched buffer could have saved up. */
  lemma WindowRate(c: Config, before: seq<Event>, window: seq<Event>)
    ensures var s, s' := Play(c, Init(c), before), Play(c, Init(c), before + window);
      |s'.output| - |s.output| <= (s'.ticks - s.ticks) * c.cps + c.burst + Min(c.bufsize, c.burst)
  {
    RunInv(c, before);
    Promises(c, Play(c, Init(c), before));
    RunInv(c, before + window);
    Promises(c, Play(c, Init(c), before + window));
    LostGrows(c, before, window);
    Distribute(Play(c, Init(c), before + window).ticks, Play(c, Init(c), before).ticks, c.cps);
  }

  lemma {:induction false} LostGrows(c: Config, before: seq<Event>, window: seq<Event>)
    ensures Play(c, Init(c), before + window).lost >= Play(c, Init(c), before).lost
  {
    if window == [] {
      assert before + window == before;
    } else {
      var w := window[..|window| - 1];
      assert (before + window)[..|before + window| - 1] == before + w;
      LostGrows(c, before, w);
    }
  }

  // ---------------------------------------------------------------- the copy as a user of the bucket

  /** The operation that an event makes on the bucket. */
  function OpNow(c: Config, s: State, ev: Event): seq<Op> {
    match ev
    case Second => if s.phase.Done? then [] else [Tick]
    case Runs =>
      (match s.phase
       case Fetching => [Fetch(c.bufsize)]
       case Returning(_, unused) => [GiveBack(unused)]
       case _ => [])
    case _ => []
  }

  function Ops(c: Config, script: seq<Event>): seq<Op> {
    if script == [] then [] else
    var n := |script| - 1;
    Ops(c, script[..n]) + OpNow(c, Play(c, Init(c), script[..n]), script[n])
  }

  /** The books of the copy agree with those of the bucket. */
  ghost predicate Agrees(s: State, l: Ledger) {
    && s.bucket == l.b && s.ticks == l.ticks && s.lost == l.lost
    && |s.output| + HeldIn(s.phase) == l.fetched - l.returned
  }

  lemma BookNext(b: Bucket, ops: seq<Op>, op: Op)
    ensures Run(Open(b), ops + [op]) == Book(Run(Open(b), ops), op)
  {
    assert (ops + [op])[..|ops|] == ops;
  }

  lemma NextAgrees(c: Config, s: State, ev: Event, l: Ledger)
    requires Inv(c, s) && Agrees(s, l)
    ensures Agrees(Next(c, s, ev), if OpNow(c, s, ev) == [] then l else Book(l, OpNow(c, s, ev)[0]))
  {
  }

  lemma RunAgrees(c: Config, s: State, ev: Event, b: Bucket, ops: seq<Op>)
    requires Inv(c, s) && Agrees(s, Run(Open(b), ops))
    ensures Agrees(Next(c, s, ev), Run(Open(b), ops + OpNow(c, s, ev)))
  {
    NextAgrees(c, s, ev, Run(Open(b), ops));
    if OpNow(c, s, ev) == [] {
      assert ops + [] == ops;
    } else {
      BookNext(b, ops, OpNow(c, s, ev)[0]);
    }
  }

  /** The copy is an honest user of the bucket: in every run its bucket, its seconds and the tokens lost are those
      that the ledger of TokenBucket has for the fetches of a whole buffer and the returns it makes, and the tokens
      it fetched and did not return are the bytes it has written and the tokens it holds. */
  lemma {:induction false} UsesTheBucket(c: Config, script: seq<Event>)
    ensures Agrees(Play(c, Init(c), script), Run(Open(Bucket(c.cps, c.burst, 0)), Ops(c, script)))
  {
    if script != [] {
      var n := |script| - 1;
      UsesTheBucket(c, script[..n]);
      RunInv(c, script[..n]);
      RunAgrees(c, Play(c, Init(c), script[..n]), script[n], Bucket(c.cps, c.burst, 0), Ops(c, script[..n]));
    }
  }

  /** A read or write that the kernel lets move n bytes moves no more, and fewer only if there are no more: the
      tokens or the input are used up, or everything is written.  A read moves at least one byte. */
  lemma MovesAllItMay(c: Config, s: State, n: nat)
    requires Inv(c, s)
    ensures var s' := Next(c, s, Moves(n)); var read, written := s'.offset - s.offset, |s'.output| - |s.output|;
      && 0 <= read && 0 <= written && (read > 0 ==> s.phase.Reading?) && (written > 0 ==> s.phase.Writing?)
      && (s.phase.Reading? ==> read <= (if n == 0 then 1 else n))
      && (s.phase.Reading? && (read < n || read == 0) ==> read == s.phase.size || s'.offset == |c.input|)
      && (s.phase.Writing? ==> written <= n && (written < n ==> written == |s.phase.rest|))
  {
  }

  // ---------------------------------------------------------------- how the copy ends

  /** An error, other than EINTR, of the open, read or write that the program is at. */
  predicate IsError(s: State, ev: Event) {
    ev.Fails? && (s.phase.Opening? || s.phase.Reading? || s.phase.Writing?)
  }

  /** The answer to a read, with the whole input read already. */
  predicate IsEof(c: Config, s: State, ev: Event) {
    ev.Moves? && s.phase.Reading? && s.offset >= |c.input|
  }

  ghost predicate FailsAt(c: Config, script: seq<Event>, k: nat) {
    k < |script| && IsError(Play(c, Init(c), script[..k]), script[k])
  }

  ghost predicate EofAt(c: Config, script: seq<Event>, k: nat) {
    k < |script| && IsEof(c, Play(c, Init(c), script[..k]), script[k])
  }

  lemma NextEnds(c: Config, s: State, ev: Event)
    requires s.offset <= |c.input| && (s.phase.Reading? ==> s.phase.size > 0)
    ensures Ending(Next(c, s, ev)) == Failed <==> Ending(s) == Failed || IsError(s, ev)
    ensures Ending(Next(c, s, ev)) == AtEof <==> Ending(s) == AtEof || IsEof(c, s, ev)
  {
  }

  /** The run has failed exactly if an open, a read or a write met an error other than EINTR, and it has come to the
      end of the file exactly if a read was answered when nothing was left to read. */
  lemma {:induction false} EndsIff(c: Config, script: seq<Event>)
    ensures Ending(Play(c, Init(c), script)) == Failed <==> exists k: nat :: FailsAt(c, script, k)
    ensures Ending(Play(c, Init(c), script)) == AtEof <==> exists k: nat :: EofAt(c, script, k)
  {
    if script != [] {
      var n := |script| - 1;
      EndsIff(c, script[..n]);
      RunInv(c, script[..n]);
      NextEnds(c, Play(c, Init(c), script[..n]), script[n]);
      SameBefore(c, script);
      assert FailsAt(c, script, n) <==> IsError(Play(c, Init(c), script[..n]), script[n]);
      assert EofAt(c, script, n) <==> IsEof(c, Play(c, Init(c), script[..n]), script[n]);
    }
  }

  lemma SameBefore(c: Config, script: seq<Event>)
    requires script != []
    ensures var n := |script| - 1;
      && (forall k: nat :: FailsAt(c, script, k) <==> FailsAt(c, script[..n], k) || (k == n && FailsAt(c, script, n)))
      && (forall k: nat :: EofAt(c, script, k) <==> EofAt(c, script[..n], k) || (k == n && EofAt(c, script, n)))
  {
    var n := |script| - 1;
    forall k: nat | k < n ensures script[..n][..k] == script[..k] && script[..n][k] == script[k] {
    }
  }

  // ---------------------------------------------------------------- whether the copy can end

  /** Bytes still to be read or written, and how far the phase is from the next one. */
  function Remaining(c: Config, s: State): int {
    8 * (|c.input| - |s.output|) +
    match s.phase
    case Opening => 7
    case Fetching => if s.bucket.token <= 0 then 6 else 5
    case Reading(_) => 4
    case Returning(_, _) => 3
    case Writing(_) => 2
    case Done(_, _) => 0
  }

  /** The event that brings the copy on. */
  function Helpful(s: State): Event {
    match s.phase
    case Fetching => if s.bucket.token <= 0 then Second else Runs
    case Returning(_, _) => Runs
    case Writing(rest) => Moves(|rest|)
    case _ => Moves(1)
  }

  lemma HelpfulInv(c: Config, s: State)
    requires Inv(c, s) && c.cps > 0 && c.burst > 0 && !s.phase.Done?
    ensures var s' := Next(c, s, Helpful(s));
      Inv(c, s') && 0 <= Remaining(c, s') < Remaining(c, s) && Ending(s') != Failed
  {
    NextInv(c, s, Helpful(s));
    var s' := Next(c, s, Helpful(s));
    if s.phase.Writing? {
      assert |s.output + s.phase.rest| == s.offset;
    }
  }

  lemma {:induction false} FinishFrom(c: Config, s: State) returns (more: seq<Event>)
    requires Inv(c, s) && c.cps > 0 && c.burst > 0 && Ending(s) != Failed
    ensures Ending(Play(c, s, more)) == AtEof
    decreases Remaining(c, s)
  {
    if s.phase.Done? {
      more := [];
    } else {
      HelpfulInv(c, s);
      var s' := Next(c, s, Helpful(s));
      var rest := FinishFrom(c, s');
      more := [Helpful(s)] + rest;
      assert [Helpful(s)][..0] == [];
      RunAppend(c, s, [Helpful(s)], rest);
    }
  }

  lemma {:induction false} NeverFetches(c: Config, script: seq<Event>)
    requires c.cps == 0 || c.burst == 0
    ensures var s := Play(c, Init(c), script);
      s.bucket == Bucket(c.cps, c.burst, 0) && (s.phase in {Opening, Fetching} || s.phase == Done(Failed, 0))
  {
    if script != [] {
      NeverFetches(c, script[..|script| - 1]);
    }
  }

  /** A run that has not failed can go on to the end of the file exactly if both the rate and the burst are
      positive; the program checks neither.  With one of them zero the first fetch waits forever, even
      for an empty file. */
  lemma CanFinishIff(c: Config, script: seq<Event>)
    requires Ending(Play(c, Init(c), script)) != Failed
    ensures c.cps > 0 && c.burst > 0 <==>
      exists more: seq<Event> :: Ending(Play(c, Play(c, Init(c), script), more)) == AtEof
  {
    if c.cps > 0 && c.burst > 0 {
      RunInv(c, script);
      var more := FinishFrom(c, Play(c, Init(c), script));
    } else {
      forall more: seq<Event> ensures Ending(Play(c, Play(c, Init(c), script), more)) != AtEof {
        NeverFetches(c, script + more);
        RunAppend(c, Init(c), script, more);
      }
    }
  }

  // ---------------------------------------------------------------- the program

  /** How a part of the program left its loop: the script is over, exit(1), or it goes on. */
  datatype Exit = Over | Fatal | GoesOn

  class Copier {
    const script: seq<Event>
    const tbf: MyTbf
    const input: seq<byte>
    const buf: array<byte>
    var offset: nat
    var output: seq<byte>
    var ticks: nat
    var next: nat
    ghost var now: State

    ghost function Setting(): Config
      requires tbf.cps >= 0 && tbf.burst >= 0 && buf.Length > 0
    {
      Config(input, buf.Length, tbf.cps, tbf.burst)
    }

    /** `now` is the state of the machine after the events that were taken. */
    ghost predicate Synced()
      reads this
    {
      && next <= |script| && tbf.cps >= 0 && tbf.burst >= 0 && buf.Length > 0
      && now == Play(Setting(), Init(Setting()), script[..next])
    }

    /** The variables are those of the machine, which waits as given by p. */
    ghost predicate At(p: Phase)
      reads this, tbf
    {
      && Synced()
      && now == State(p, tbf.View(), offset, output, ticks, now.lost)
    }

    constructor (script: seq<Event>, input: seq<byte>, cps: nat, burst: nat, bufsize: nat)
      requires bufsize > 0
      ensures At(Opening) && next == 0 && fresh(tbf) && fresh(buf)
      ensures this.script == script && Setting() == Config(input, bufsize, cps, burst)
    {
      tbf := new MyTbf(cps, burst);
      buf := new byte[bufsize];
      this.script, this.input := script, input;
      offset, output, ticks, next := 0, [], 0, 0;
      now := Init(Config(input, bufsize, cps, burst));
    }

    /** The variables are those of the machine, which has ended, or has no more events. */
    ghost predicate Stopped(o: Outcome)
      reads this, tbf
    {
      && Synced()
      && now == State(now.phase, tbf.View(), offset, output, ticks, now.lost)
      && Ending(now) == o && (o == StillRunning ==> next == |script|)
    }

    /** Takes the next event off the script; a second lets the ticker run once. */
    method NextEvent(ghost p: Phase) returns (ev: Event)
      requires At(p) && next < |script|
      modifies this`ticks, this`next, this`now, tbf`token
      ensures next == old(next) + 1 && ev == script[old(next)]
      ensures Synced() && now == Next(Setting(), old(now), ev)
      ensures !p.Done? && (ev.Second? || ev.Interrupted?) ==> At(p)
      ensures !ev.Second? ==> tbf.token == old(tbf.token) && ticks == old(ticks)
    {
      ev := script[next];
      assert script[..next + 1][..next] == script[..next];
      next := next + 1;
      now := Next(Setting(), now, ev);
      if ev.Second? {
        tbf.Refill();
        ticks := ticks + 1;
      }
    }

    /** The answer to the next system call; seconds pass before it.  s is the machine when it comes. */
    method NextAnswer(ghost p: Phase) returns (over: bool, ev: Event, ghost s: State)
      requires At(p) && !p.Fetching? && !p.Done?
      modifies this`ticks, this`next, this`now, tbf`token
      ensures old(next) <= next && Synced()
      ensures over ==> Stopped(StillRunning)
      ensures !over ==> old(next) < next && !ev.Second?
      ensures offset <= |input|
      ensures !over ==> s == State(p, tbf.View(), offset, output, ticks, s.lost) && now == Next(Setting(), s, ev)
    {
      s := now;
      RunInv(Setting(), script[..next]);
      while next < |script|
        invariant At(p) && old(next) <= next
      {
        s := now;
        ev := NextEvent(p);
        if !ev.Second? { return false, ev, s; }
      }
      return true, Second, s;
    }

    /** The loop around open(): EINTR tries again. */
    method OpenSource() returns (exit: Exit)
      requires At(Opening)
      modifies this`ticks, this`next, this`now, tbf`token
      ensures exit == Over ==> Stopped(StillRunning)
      ensures exit == Fatal ==> Stopped(Failed)
      ensures exit == GoesOn ==> At(Fetching)
    {
      while true
        invariant At(Opening)
        decreases |script| - next
      {
        ghost var s;
        var over, ev;
        over, ev, s := NextAnswer(Opening);
        if over { return Over; }
        if ev.Fails? { return Fatal; }
        if ev.Moves? { return GoesOn; }
      }
    }

    /** mytbf_fetchtoken: seconds pass until the fetch gets the bucket while there are tokens. */
    method Fetch() returns (exit: Exit, size: nat)
      requires At(Fetching)
      modifies this`ticks, this`next, this`now, tbf`token
      ensures old(next) <= next
      ensures exit == Over ==> Stopped(StillRunning)
      ensures exit == GoesOn ==> old(next) < next && At(Reading(size)) && 0 < size <= buf.Length
      ensures exit != Fatal
    {
      while next < |script|
        invariant At(Fetching) && old(next) <= next
      {
        var ev := NextEvent(Fetching);
        if ev.Runs? && tbf.token > 0 {
          var answer := tbf.FetchToken(buf.Length);
          return GoesOn, answer.n;
        }
      }
      return Over, 0;
    }

    /** mytbf_returntoken: seconds pass until the return gets the bucket. */
    method Restore(ghost rest: seq<byte>, unused: nat) returns (exit: Exit)
      requires At(Returning(rest, unused)) && unused > 0
      modifies this`ticks, this`next, this`now, tbf`token
      ensures old(next) <= next
      ensures exit == Over ==> Stopped(StillRunning)
      ensures exit == GoesOn ==> At(Writing(rest))
      ensures exit != Fatal
    {
      while next < |script|
        invariant At(Returning(rest, unused)) && old(next) <= next
      {
        var ev := NextEvent(Returning(rest, unused));
        if ev.Runs? {
          var _ := tbf.ReturnToken(unused);
          return GoesOn;
        }
      }
      return Over;
    }

    /** The bytes a read delivers. */
    method Receive(len: nat)
      requires offset + len <= |input| && len <= buf.Length
      modifies this`offset, buf
      ensures offset == old(offset) + len && buf[..len] == input[old(offset)..offset]
    {
      forall i | 0 <= i < len { buf[i] := input[offset + i]; }
      offset := offset + len;
    }

    /** A read that succeeds: the machine has read, and now the program has. */
    method Accept(size: nat, n: nat, ghost s: State) returns (len: nat)
      requires Synced() && 0 < size <= buf.Length && offset <= |input|
      requires s == State(Reading(size), tbf.View(), offset, output, ticks, s.lost)
      requires now == AfterRead(Setting(), s, size, n)
      modifies this`offset, buf
      ensures len == 0 ==> Stopped(AtEof)
      ensures 0 < len ==> len <= size && At(ToReturn(buf[..len], size - len))
    {
      len := Min(Min(size, |input| - offset), if n == 0 then 1 else n);
      assert len == ReadLength(Setting(), s.offset, size, n);
      Receive(len);
    }

    /** One read(): interrupted, or done; a read that succeeds moves at least one byte unless the input is at
        its end. */
    method ReadOnce(size: nat) returns (exit: Exit, again: bool, len: nat)
      requires At(Reading(size)) && 0 < size <= buf.Length
      modifies this`ticks, this`next, this`now, this`offset, tbf`token, buf
      ensures exit == Over ==> Stopped(StillRunning)
      ensures exit == Fatal ==> Stopped(Failed)
      ensures exit == GoesOn ==> old(next) < next
      ensures exit == GoesOn && again ==> At(Reading(size))
      ensures exit == GoesOn && !again && len == 0 ==> Stopped(AtEof)
      ensures exit == GoesOn && !again && len > 0 ==> len <= size && At(ToReturn(buf[..len], size - len))
    {
      ghost var s;
      var over, ev;
      over, ev, s := NextAnswer(Reading(size));
      if over { return Over, false, 0; }
      if ev.Fails? { return Fatal, false, 0; }
      if !ev.Moves? { return GoesOn, true, 0; }
      len := Accept(size, ev.n, s);
      return GoesOn, false, len;
    }

    /** The read loop: EINTR reads again. */
    method Read(size: nat) returns (exit: Exit, len: nat)
      requires At(Reading(size)) && 0 < size <= buf.Length
      modifies this`ticks, this`next, this`now, this`offset, tbf`token, buf
      ensures exit == Over ==> Stopped(StillRunning)
      ensures exit == Fatal ==> Stopped(Failed)
      ensures exit == GoesOn ==> old(next) < next
      ensures exit == GoesOn && len == 0 ==> Stopped(AtEof)
      ensures exit == GoesOn && len > 0 ==> len <= size && At(ToReturn(buf[..len], size - len))
    {
      while true
        invariant At(Reading(size)) && old(next) <= next
        decreases |script| - next
      {
        var again;
        exit, again, len := ReadOnce(size);
        if exit != GoesOn || !again { return; }
      }
    }

    /** A write that succeeds: the machine has written, and now the program has. */
    method Deliver(pos: nat, end: nat, n: nat, ghost s: State) returns (ret: nat)
      requires Synced() && pos < end <= buf.Length
      requires s == State(Writing(buf[pos..end]), tbf.View(), offset, output, ticks, s.lost)
      requires now == AfterWrite(Setting(), s, buf[pos..end], n)
      modifies this`output
      ensures pos + ret <= end && At(ToWrite(buf[pos + ret..end]))
    {
      ret := Min(end - pos, n);
      assert buf[pos..end][..ret] == buf[pos..pos + ret] && buf[pos..end][ret..] == buf[pos + ret..end];
      output := output + buf[pos..pos + ret];
    }

    /** One write() of the bytes from pos to end: interrupted, or a short write. */
    method WriteOnce(pos: nat, len: nat, ghost end: nat) returns (exit: Exit, ret: nat)
      requires pos + len == end <= buf.Length && 0 < len && At(Writing(buf[pos..end]))
      modifies this`ticks, this`next, this`now, this`output, tbf`token
      ensures old(next) <= next
      ensures exit == Over ==> Stopped(StillRunning)
      ensures exit == Fatal ==> Stopped(Failed)
      ensures exit == GoesOn ==> old(next) < next && ret <= len && At(ToWrite(buf[pos + ret..end]))
    {
      ghost var s;
      var over, ev;
      over, ev, s := NextAnswer(Writing(buf[pos..end]));
      if over { return Over, 0; }
      if ev.Fails? { return Fatal, 0; }
      if !ev.Moves? { return GoesOn, 0; }
      ret := Deliver(pos, pos + len, ev.n, s);
      return GoesOn, ret;
    }

    /** The write loop, with short writes and EINTR. */
    method Write(n: nat) returns (exit: Exit)
      requires 0 < n <= buf.Length && At(Writing(buf[..n]))
      modifies this`ticks, this`next, this`now, this`output, tbf`token
      ensures old(next) <= next
      ensures exit == Over ==> Stopped(StillRunning)
      ensures exit == Fatal ==> Stopped(Failed)
      ensures exit == GoesOn ==> At(Fetching)
    {
      var pos: nat, len: nat := 0, n;
      assert buf[..n] == buf[0..n];
      while len > 0
        invariant pos + len == n && old(next) <= next
        invariant At(ToWrite(buf[pos..n]))
        decreases |script| - next
      {
        var ret;
        exit, ret := WriteOnce(pos, len, n);
        if exit != GoesOn { return; }
        pos, len := pos + ret, len - ret;
      }
      assert buf[pos..n] == [];
      return GoesOn;
    }

    /** The nested loops do what the machine does: they end as it ends, with its output, offset and bucket,
        after the same seconds. */
    method Copy() returns (outcome: Outcome)
      requires At(Opening) && next == 0
      modifies this, buf, tbf
      ensures tbf.cps >= 0 && tbf.burst >= 0 && buf.Length > 0
      ensures var s := Play(Setting(), Init(Setting()), script);
        && outcome == Ending(s) && output == s.output && offset == s.offset
        && ticks == s.ticks && tbf.View() == s.bucket
    {
      outcome := Loops();
      DoneStays(Setting(), script, next);
    }

    method Loops() returns (outcome: Outcome)
      requires At(Opening)
      modifies this, buf, tbf
      ensures Stopped(outcome)
    {
      var exit := OpenSource();
      if exit != GoesOn { return if exit == Fatal then Failed else StillRunning; }
      while true
        invariant At(Fetching)
        decreases |script| - next
      {
        var size, len;
        exit, size := Fetch();
        if exit != GoesOn { return StillRunning; }
        exit, len := Read(size);
        if exit != GoesOn { return if exit == Fatal then Failed else StillRunning; }
        if len == 0 { return AtEof; }
        if size - len > 0 {
          exit := Restore(buf[..len], size - len);
          if exit != GoesOn { return StillRunning; }
        }
        exit := Write(len);
        if exit != GoesOn { return if exit == Fatal then Failed else StillRunning; }
      }
    }
  }

  /** Once the machine has ended more events change nothing. */
  lemma {:induction false} DoneStays(c: Config, script: seq<Event>, k: nat)
    requires k <= |script|
    ensures Play(c, Init(c), script[..k]).phase.Done? || k == |script| ==>
      Play(c, Init(c), script) == Play(c, Init(c), script[..k])
    decreases |script|
  {
    if k == |script| {
      assert script[..k] == script;
    } else if Play(c, Init(c), script[..k]).phase.Done? {
      assert script[..|script| - 1][..k] == script[..k];
      DoneStays(c, script[..|script| - 1], k);
    }
  }
}
