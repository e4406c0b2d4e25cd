/** The three relay loops over two machines, one per direction: the busy loop of
    Linuxlhq/005AdvanceIO/nonblock/001relay.c, the select loop of 002relay_select.c and the poll loop of
    003relay_poll.c.

    A script gives, pass by pass, what the kernel answers.  It ends somewhere; since every claim is made
    for all scripts, it is a claim about every pass boundary of every run. */
module RelayLoops {
  import opened Bytes
  import opened RelayMachine

  /** Aborted: fsm_driver was called on a machine in T.  Quit: select or poll failed and the loop exits. */
  datatype Status = Running | Aborted | Quit

  datatype Relay = Relay(m12: Machine, m21: Machine, status: Status)

  ghost predicate Good(r: Relay) { InBuffer(r.m12) && InBuffer(r.m21) }

  /** The loop guard is false, or the process is gone. */
  predicate Over(r: Relay) {
    r.status != Running || (r.m12.state == T && r.m21.state == T)
  }

  /** The two fsm_driver calls of one pass, each made or not. */
  function DriveTwo(r: Relay, drive12: bool, drive21: bool, a: Reply, b: Reply): (n: Relay)
    requires Good(r)
    ensures Good(n)
  {
    if drive12 && r.m12.state == T then r.(status := Aborted) else
    var r1 := if drive12 then r.(m12 := Drive(r.m12, a)) else r;
    if drive21 && r.m21.state == T then r1.(status := Aborted) else
    if drive21 then r1.(m21 := Drive(r.m21, b)) else r1
  }

  // ---------------------------------------------------------------- the busy loop

  function BusyPass(r: Relay, replies: (Reply, Reply)): (n: Relay)
    requires Good(r)
    ensures Good(n)
  {
    if Over(r) then r else DriveTwo(r, true, true, replies.0, replies.1)
  }

  function BusyRun(r: Relay, script: seq<(Reply, Reply)>): (n: Relay)
    requires Good(r)
    ensures Good(n)
  {
    if script == [] then r else BusyPass(BusyRun(r, script[..|script| - 1]), script[|script| - 1])
  }

  // ---------------------------------------------------------------- the select loop

  /** What select does in one pass: a signal interrupts it, it fails, or it reports ready descriptors. */
  datatype SelectEvent =
    | Interrupted(a: Reply, b: Reply)
    | SelectFails(a: Reply, b: Reply)
    | Ready(rset: set<int>, wset: set<int>, a: Reply, b: Reply)

  /** state < STATE_AUTO */
  predicate Watched(m: Machine) { m.state == R || m.state == W }

  function ReadWatch(r: Relay, fd1: int, fd2: int): set<int> {
    (if r.m12.state == R then {fd1} else {}) + (if r.m21.state == R then {fd2} else {})
  }

  function WriteWatch(r: Relay, fd1: int, fd2: int): set<int> {
    (if r.m12.state == W then {fd2} else {}) + (if r.m21.state == W then {fd1} else {})
  }

  predicate SelectDrives12(r: Relay, fd1: int, fd2: int, rset: set<int>, wset: set<int>) {
    fd1 in rset || fd2 in wset || !Watched(r.m12)
  }

  predicate SelectDrives21(r: Relay, fd1: int, fd2: int, rset: set<int>, wset: set<int>) {
    fd2 in rset || fd1 in wset || !Watched(r.m21)
  }

  /** select only leaves descriptors in the sets that were put there.  With no machine to watch it is not
      called and both sets stay empty. */
  function SelectPass(fd1: int, fd2: int, r: Relay, ev: SelectEvent): (n: Relay)
    requires Good(r)
    ensures Good(n)
  {
    if Over(r) then r else
    var watching := Watched(r.m12) || Watched(r.m21);
    if watching && ev.Interrupted? then r else
    if watching && ev.SelectFails? then r.(status := Quit) else
    var rset := if watching then ReadWatch(r, fd1, fd2) * ev.rset else {};
    var wset := if watching then WriteWatch(r, fd1, fd2) * ev.wset else {};
    DriveTwo(r, SelectDrives12(r, fd1, fd2, rset, wset), SelectDrives21(r, fd1, fd2, rset, wset), ev.a, ev.b)
  }

  function SelectRun(fd1: int, fd2: int, r: Relay, script: seq<SelectEvent>): (n: Relay)
    requires Good(r)
    ensures Good(n)
  {
    if script == [] then r
    else SelectPass(fd1, fd2, SelectRun(fd1, fd2, r, script[..|script| - 1]), script[|script| - 1])
  }

  // ---------------------------------------------------------------- the poll loop

  /** The POLLIN and POLLOUT bits of one pollfd; poll may also report other bits, which the loop ignores. */
  datatype Bits = Bits(input: bool, output: bool)

  datatype PollEvent =
    | PollInterrupted(a: Reply, b: Reply)
    | PollFails(a: Reply, b: Reply)
    | Polled(re0: Bits, re1: Bits, a: Reply, b: Reply)

  /** The relay with the revents fields, which keep their old value while poll is not called. */
  datatype PollRelay = PollRelay(r: Relay, re0: Bits, re1: Bits)

  function And(x: Bits, y: Bits): Bits { Bits(x.input && y.input, x.output && y.output) }

  function Events0(r: Relay): Bits { Bits(r.m12.state == R, r.m21.state == W) }

  function Events1(r: Relay): Bits { Bits(r.m21.state == R, r.m12.state == W) }

  predicate PollDrives12(r: Relay, re0: Bits, re1: Bits) { re0.input || re1.output || !Watched(r.m12) }

  predicate PollDrives21(r: Relay, re0: Bits, re1: Bits) { re1.input || re0.output || !Watched(r.m21) }

  /** An interrupted poll is called again with the same events. */
  function PollPass(p: PollRelay, ev: PollEvent): (n: PollRelay)
    requires Good(p.r)
    ensures Good(n.r)
  {
    if Over(p.r) then p else
    var watching := Watched(p.r.m12) || Watched(p.r.m21);
    if watching && ev.PollInterrupted? then p else
    if watching && ev.PollFails? then p.(r := p.r.(status := Quit)) else
    var re0 := if watching then And(Events0(p.r), ev.re0) else p.re0;
    var re1 := if watching then And(Events1(p.r), ev.re1) else p.re1;
    PollRelay(DriveTwo(p.r, PollDrives12(p.r, re0, re1), PollDrives21(p.r, re0, re1), ev.a, ev.b), re0, re1)
  }

  function PollRun(p: PollRelay, script: seq<PollEvent>): (n: PollRelay)
    requires Good(p.r)
    ensures Good(n.r)
  {
    if script == [] then p else PollPass(PollRun(p, script[..|script| - 1]), script[|script| - 1])
  }

  // ---------------------------------------------------------------- the loops themselves

  ghost function Pair(fsm12: Fsm, fsm21: Fsm, status: Status): Relay
    reads fsm12, fsm12.buf, fsm21, fsm21.buf
  {
    Relay(fsm12.View(), fsm21.View(), status)
  }

  ghost predicate Apart(fsm12: Fsm, fsm21: Fsm) {
    fsm12 != fsm21 && fsm12.buf != fsm21.buf
  }

  /** The end of every pass: push one machine, then the other, unless the process has aborted. */
  method PushTwo(fsm12: Fsm, fsm21: Fsm, drive12: bool, drive21: bool, a: Reply, b: Reply) returns (status: Status)
    requires Apart(fsm12, fsm21) && Good(Pair(fsm12, fsm21, Running))
    modifies fsm12, fsm12.buf, fsm21, fsm21.buf
    ensures Pair(fsm12, fsm21, status) == DriveTwo(old(Pair(fsm12, fsm21, Running)), drive12, drive21, a, b)
  {
    status := Running;
    var aborted := false;
    if drive12 {
      aborted := fsm12.Driver(a);
    }
    if !aborted && drive21 {
      aborted := fsm21.Driver(b);
    }
    if aborted {
      status := Aborted;
    }
  }

  method BusyRelay(fsm12: Fsm, fsm21: Fsm, script: seq<(Reply, Reply)>) returns (status: Status)
    requires Apart(fsm12, fsm21) && Good(Pair(fsm12, fsm21, Running))
    modifies fsm12, fsm12.buf, fsm21, fsm21.buf
    ensures Pair(fsm12, fsm21, status) == BusyRun(old(Pair(fsm12, fsm21, Running)), script)
  {
    status := Running;
    ghost var r0 := Pair(fsm12, fsm21, Running);
    var k := 0;
    while k < |script| && status == Running && (fsm12.state != T || fsm21.state != T)
      invariant k <= |script|
      invariant Pair(fsm12, fsm21, status) == BusyRun(r0, script[..k])
    {
      assert script[..k + 1][..k] == script[..k];
      status := PushTwo(fsm12, fsm21, true, true, script[k].0, script[k].1);
      k := k + 1;
    }
    BusyOver(r0, script, k);
  }

  /** Once a run is over more passes change nothing. */
  lemma {:induction false} BusyOver(r: Relay, script: seq<(Reply, Reply)>, k: nat)
    requires Good(r) && k <= |script|
    ensures Over(BusyRun(r, script[..k])) || k == |script| ==> BusyRun(r, script) == BusyRun(r, script[..k])
    decreases |script|
  {
    if k == |script| {
      assert script[..k] == script;
    } else if Over(BusyRun(r, script[..k])) {
      assert script[..|script| - 1][..k] == script[..k];
      BusyOver(r, script[..|script| - 1], k);
    }
  }

  /** One pass of the select loop. */
  method SelectOnce(fd1: int, fd2: int, fsm12: Fsm, fsm21: Fsm, ev: SelectEvent) returns (status: Status)
    requires Apart(fsm12, fsm21) && Good(Pair(fsm12, fsm21, Running)) && !Over(Pair(fsm12, fsm21, Running))
    modifies fsm12, fsm12.buf, fsm21, fsm21.buf
    ensures Pair(fsm12, fsm21, status) == SelectPass(fd1, fd2, old(Pair(fsm12, fsm21, Running)), ev)
  {
    var rset: set<int>, wset: set<int> := {}, {};
    if fsm12.state == R { rset := rset + {fd1}; }
    if fsm12.state == W { wset := wset + {fd2}; }
    if fsm21.state == R { rset := rset + {fd2}; }
    if fsm21.state == W { wset := wset + {fd1}; }
    assert rset == ReadWatch(Pair(fsm12, fsm21, Running), fd1, fd2);
    assert wset == WriteWatch(Pair(fsm12, fsm21, Running), fd1, fd2);
    if fsm12.state == R || fsm12.state == W || fsm21.state == R || fsm21.state == W {
      match ev {
        case Interrupted(_, _) => return Running;
        case SelectFails(_, _) => return Quit;
        case Ready(rs, ws, _, _) => rset, wset := rset * rs, wset * ws;
      }
    }
    var drive12 := fd1 in rset || fd2 in wset || fsm12.state == Ex || fsm12.state == T;
    var drive21 := fd2 in rset || fd1 in wset || fsm21.state == Ex || fsm21.state == T;
    status := PushTwo(fsm12, fsm21, drive12, drive21, ev.a, ev.b);
  }

  method SelectRelay(fd1: int, fd2: int, fsm12: Fsm, fsm21: Fsm, script: seq<SelectEvent>) returns (status: Status)
    requires Apart(fsm12, fsm21) && Good(Pair(fsm12, fsm21, Running))
    modifies fsm12, fsm12.buf, fsm21, fsm21.buf
    ensures Pair(fsm12, fsm21, status) == SelectRun(fd1, fd2, old(Pair(fsm12, fsm21, Running)), script)
  {
    status := Running;
    ghost var r0 := Pair(fsm12, fsm21, Running);
    var k := 0;
    while k < |script| && status == Running && (fsm12.state != T || fsm21.state != T)
      invariant k <= |script|
      invariant Pair(fsm12, fsm21, status) == SelectRun(fd1, fd2, r0, script[..k])
    {
      assert script[..k + 1][..k] == script[..k];
      status := SelectOnce(fd1, fd2, fsm12, fsm21, script[k]);
      k := k + 1;
    }
    SelectOver(fd1, fd2, r0, script, k);
  }

  lemma {:induction false} SelectOver(fd1: int, fd2: int, r: Relay, script: seq<SelectEvent>, k: nat)
    requires Good(r) && k <= |script|
    ensures Over(SelectRun(fd1, fd2, r, script[..k])) || k == |script| ==>
      SelectRun(fd1, fd2, r, script) == SelectRun(fd1, fd2, r, script[..k])
    decreases |script|
  {
    if k == |script| {
      assert script[..k] == script;
    } else if Over(SelectRun(fd1, fd2, r, script[..k])) {
      assert script[..|script| - 1][..k] == script[..k];
      SelectOver(fd1, fd2, r, script[..|script| - 1], k);
    }
  }

  /** struct pollfd */
  datatype PollFd = PollFd(events: Bits, revents: Bits)

  ghost function Polling(fsm12: Fsm, fsm21: Fsm, pfd: array<PollFd>, status: Status): PollRelay
    requires pfd.Length == 2
    reads fsm12, fsm12.buf, fsm21, fsm21.buf, pfd
  {
    PollRelay(Pair(fsm12, fsm21, status), pfd[0].revents, pfd[1].revents)
  }

  /** One pass of the poll loop. */
  method PollOnce(fsm12: Fsm, fsm21: Fsm, pfd: array<PollFd>, ev: PollEvent) returns (status: Status)
    requires Apart(fsm12, fsm21) && Good(Pair(fsm12, fsm21, Running)) && !Over(Pair(fsm12, fsm21, Running))
    requires pfd.Length == 2 && pfd as object != fsm12.buf && pfd as object != fsm21.buf
    modifies fsm12, fsm12.buf, fsm21, fsm21.buf, pfd
    ensures Polling(fsm12, fsm21, pfd, status) == PollPass(old(Polling(fsm12, fsm21, pfd, Running)), ev)
  {
    ghost var r := Pair(fsm12, fsm21, Running);
    pfd[0] := pfd[0].(events := Bits(fsm12.state == R, fsm21.state == W));
    pfd[1] := pfd[1].(events := Bits(fsm21.state == R, fsm12.state == W));
    assert Pair(fsm12, fsm21, Running) == r && pfd[0].events == Events0(r) && pfd[1].events == Events1(r);
    if fsm12.state == R || fsm12.state == W || fsm21.state == R || fsm21.state == W {
      match ev {
        case PollInterrupted(_, _) => return Running;
        case PollFails(_, _) => return Quit;
        case Polled(re0, re1, _, _) =>
          pfd[0] := pfd[0].(revents := And(pfd[0].events, re0));
          pfd[1] := pfd[1].(revents := And(pfd[1].events, re1));
      }
    }
    assert Pair(fsm12, fsm21, Running) == r;
    var drive12 := pfd[0].revents.input || pfd[1].revents.output || fsm12.state == Ex || fsm12.state == T;
    var drive21 := pfd[1].revents.input || pfd[0].revents.output || fsm21.state == Ex || fsm21.state == T;
    status := PushTwo(fsm12, fsm21, drive12, drive21, ev.a, ev.b);
  }

  method PollRelayLoop(fsm12: Fsm, fsm21: Fsm, pfd: array<PollFd>, script: seq<PollEvent>) returns (status: Status)
    requires Apart(fsm12, fsm21) && Good(Pair(fsm12, fsm21, Running))
    requires pfd.Length == 2 && pfd as object != fsm12.buf && pfd as object != fsm21.buf
    modifies fsm12, fsm12.buf, fsm21, fsm21.buf, pfd
    ensures Polling(fsm12, fsm21, pfd, status) == PollRun(old(Polling(fsm12, fsm21, pfd, Running)), script)
  {
    status := Running;
    ghost var p0 := Polling(fsm12, fsm21, pfd, Running);
    var k := 0;
    while k < |script| && status == Running && (fsm12.state != T || fsm21.state != T)
      invariant k <= |script|
      invariant Polling(fsm12, fsm21, pfd, status) == PollRun(p0, script[..k])
    {
      assert script[..k + 1][..k] == script[..k];
      status := PollOnce(fsm12, fsm21, pfd, script[k]);
      k := k + 1;
    }
    PollOver(p0, script, k);
  }

  lemma {:induction false} PollOver(p: PollRelay, script: seq<PollEvent>, k: nat)
    requires Good(p.r) && k <= |script|
    ensures Over(PollRun(p, script[..k]).r) || k == |script| ==> PollRun(p, script) == PollRun(p, script[..k])
    decreases |script|
  {
    if k == |script| {
      assert script[..k] == script;
    } else if Over(PollRun(p, script[..k]).r) {
      assert script[..|script| - 1][..k] == script[..k];
      PollOver(p, script[..|script| - 1], k);
    }
  }
}
