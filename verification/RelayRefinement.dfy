/** How the three relay loops relate: the select and poll loops refine the busy loop, all three keep every
    byte, and when the abort() in fsm_driver ends the process. */
module RelayRefinement {
  import opened Bytes
  import opened RelayMachine
  import opened RelayLoops

  /** Two machines that no observer can tell apart: len means nothing before the next read. */
  ghost predicate Alike(m: Machine, b: Machine) {
    m.(len := 0) == b.(len := 0) && (m.state == R || m.len == b.len)
  }

  /** A pass of the refined loop may also have ended in exit(1), which the busy loop does not have. */
  ghost predicate RelaysAlike(r: Relay, q: Relay) {
    && Alike(r.m12, q.m12) && Alike(r.m21, q.m21)
    && (r.status == q.status || (r.status == Quit && q.status == Running))
  }

  lemma DriveAlike(m: Machine, b: Machine, reply: Reply)
    requires Alike(m, b) && InBuffer(m) && InBuffer(b) && m.state != T
    ensures Alike(Drive(m, reply), Drive(b, reply))
  {
  }

  /** A machine in R or W that is answered EAGAIN stays as it is. */
  lemma AgainStutters(m: Machine, b: Machine)
    requires Alike(m, b) && InBuffer(b) && Watched(m)
    ensures Alike(m, Drive(b, Failed(true)))
  {
  }

  /** The busy pass that does what a pass driving only some machines does. */
  function AsBusy(drive12: bool, drive21: bool, a: Reply, b: Reply): (Reply, Reply) {
    (if drive12 then a else Failed(true), if drive21 then b else Failed(true))
  }

  /** Skipping a machine in R or W is a busy-loop step answered EAGAIN. */
  lemma PassAlike(r: Relay, q: Relay, drive12: bool, drive21: bool, a: Reply, b: Reply)
    requires Good(r) && Good(q) && RelaysAlike(r, q) && !Over(r)
    requires (drive12 || Watched(r.m12)) && (drive21 || Watched(r.m21))
    ensures RelaysAlike(DriveTwo(r, drive12, drive21, a, b), BusyPass(q, AsBusy(drive12, drive21, a, b)))
  {
    if r.m12.state != T {
      if drive12 { DriveAlike(r.m12, q.m12, a); } else { AgainStutters(r.m12, q.m12); }
      if r.m21.state != T {
        if drive21 { DriveAlike(r.m21, q.m21, b); } else { AgainStutters(r.m21, q.m21); }
      }
    }
  }

  lemma AppendPass(r: Relay, busy: seq<(Reply, Reply)>, replies: (Reply, Reply))
    requires Good(r)
    ensures BusyRun(r, busy + [replies]) == BusyPass(BusyRun(r, busy), replies)
  {
    assert (busy + [replies])[..|busy|] == busy;
  }

  /** Every run of the select loop is, to an observer of the machines and of the bytes moved, a run of
      the busy loop with no more passes; descriptors may even coincide. */
  lemma {:induction false} SelectRefinesBusy(fd1: int, fd2: int, r: Relay, script: seq<SelectEvent>)
    returns (busy: seq<(Reply, Reply)>)
    requires Good(r)
    ensures RelaysAlike(SelectRun(fd1, fd2, r, script), BusyRun(r, busy)) && |busy| <= |script|
  {
    if script == [] {
      busy := [];
    } else {
      var ev := script[|script| - 1];
      busy := SelectRefinesBusy(fd1, fd2, r, script[..|script| - 1]);
      var s := SelectRun(fd1, fd2, r, script[..|script| - 1]);
      var watching := Watched(s.m12) || Watched(s.m21);
      if !Over(s) && (!watching || ev.Ready?) {
        var rset := if watching then ReadWatch(s, fd1, fd2) * ev.rset else {};
        var wset := if watching then WriteWatch(s, fd1, fd2) * ev.wset else {};
        var drive12 := SelectDrives12(s, fd1, fd2, rset, wset);
        var drive21 := SelectDrives21(s, fd1, fd2, rset, wset);
        PassAlike(s, BusyRun(r, busy), drive12, drive21, ev.a, ev.b);
        busy := busy + [AsBusy(drive12, drive21, ev.a, ev.b)];
      }
    }
  }

  /** The same for the poll loop, whatever the revents fields held at first. */
  lemma {:induction false} PollRefinesBusy(p: PollRelay, script: seq<PollEvent>) returns (busy: seq<(Reply, Reply)>)
    requires Good(p.r)
    ensures RelaysAlike(PollRun(p, script).r, BusyRun(p.r, busy)) && |busy| <= |script|
  {
    if script == [] {
      busy := [];
    } else {
      var ev := script[|script| - 1];
      busy := PollRefinesBusy(p, script[..|script| - 1]);
      var s := PollRun(p, script[..|script| - 1]);
      var watching := Watched(s.r.m12) || Watched(s.r.m21);
      if !Over(s.r) && (!watching || ev.Polled?) {
        var re0 := if watching then And(Events0(s.r), ev.re0) else s.re0;
        var re1 := if watching then And(Events1(s.r), ev.re1) else s.re1;
        var drive12, drive21 := PollDrives12(s.r, re0, re1), PollDrives21(s.r, re0, re1);
        PassAlike(s.r, BusyRun(p.r, busy), drive12, drive21, ev.a, ev.b);
        busy := busy + [AsBusy(drive12, drive21, ev.a, ev.b)];
      }
    }
  }

  // ---------------------------------------------------------------- readiness

  /** What a pass makes of a machine that is not in T: one that waits gets its reply if the kernel reported what
      it waits for, and else stays; one in Ex is always pushed. */
  function Pushed(m: Machine, reported: bool, reply: Reply): Machine
    requires InBuffer(m) && m.state != T
  {
    if reported || !Watched(m) then Drive(m, reply) else m
  }

  /** What a pass makes of the relay, given for which machines the kernel reported something: one machine, then
      the other, up to the one in T. */
  ghost predicate PassIs(s: Relay, n: Relay, ready12: bool, ready21: bool, a: Reply, b: Reply)
    requires Good(s)
  {
    && n.m12 == (if s.m12.state == T then s.m12 else Pushed(s.m12, ready12, a))
    && n.m21 == (if s.m12.state == T || s.m21.state == T then s.m21 else Pushed(s.m21, ready21, b))
    && n.status == if s.m12.state == T || s.m21.state == T then Aborted else Running
  }

  /** The kernel reported the descriptor and direction that this machine waits for. */
  predicate Asked(m: Machine, sfd: int, dfd: int, rset: set<int>, wset: set<int>) {
    (m.state == R && sfd in rset) || (m.state == W && dfd in wset)
  }

  /** How a pass of the select loop answers to what select did: with a machine waiting, a signal changes nothing
      and a failure ends the loop.  `mixed`: a machine is also pushed for what the other one asked for. */
  ghost predicate SelectReacts(fd1: int, fd2: int, s: Relay, ev: SelectEvent, n: Relay, mixed: bool)
    requires Good(s)
  {
    if !Watched(s.m12) && !Watched(s.m21) then PassIs(s, n, false, false, ev.a, ev.b) else
    match ev
    case Interrupted(_, _) => n == s
    case SelectFails(_, _) => n == s.(status := Quit)
    case Ready(rs, ws, a, b) =>
      var asked12, asked21 := Asked(s.m12, fd1, fd2, rs, ws), Asked(s.m21, fd2, fd1, rs, ws);
      PassIs(s, n, asked12 || (mixed && asked21), asked21 || (mixed && asked12), a, b)
  }

  /** What a pass does, from what select reported alone. */
  lemma SelectPassReacts(fd1: int, fd2: int, s: Relay, ev: SelectEvent)
    requires Good(s) && !Over(s)
    ensures SelectReacts(fd1, fd2, s, ev, SelectPass(fd1, fd2, s, ev), fd1 == fd2)
  {
  }

  /** In no run of the select loop from these machines a pass steps a machine for the other one's sake, or leaves
      out one for which what it asked for is ready. */
  ghost predicate AlwaysAsAsked(fd1: int, fd2: int, r: Relay)
    requires Good(r)
  {
    forall script: seq<SelectEvent>, ev: SelectEvent :: !Over(SelectRun(fd1, fd2, r, script)) ==>
      SelectReacts(fd1, fd2, SelectRun(fd1, fd2, r, script), ev,
                   SelectPass(fd1, fd2, SelectRun(fd1, fd2, r, script), ev), false)
  }

  /** That holds if and only if the relay is between two different descriptors. */
  lemma SelectReadinessIff(fd1: int, fd2: int, m12: Machine, m21: Machine)
    requires Fresh(m12) && Fresh(m21) && |m12.buf| > 0
    ensures fd1 != fd2 <==> AlwaysAsAsked(fd1, fd2, Relay(m12, m21, Running))
  {
    var r := Relay(m12, m21, Running);
    if fd1 == fd2 {
      var script := OneReads(fd1, m12, m21, 0);
      var s := SelectRun(fd1, fd2, r, script);
      var ev := Ready({}, {fd1}, Failed(true), Failed(false));
      assert SelectPass(fd1, fd2, s, ev).m21.state == Ex;
      assert !SelectReacts(fd1, fd2, s, ev, SelectPass(fd1, fd2, s, ev), false);
    } else {
      forall script: seq<SelectEvent>, ev: SelectEvent | !Over(SelectRun(fd1, fd2, r, script))
        ensures SelectReacts(fd1, fd2, SelectRun(fd1, fd2, r, script), ev,
                             SelectPass(fd1, fd2, SelectRun(fd1, fd2, r, script), ev), false)
      {
        SelectPassReacts(fd1, fd2, SelectRun(fd1, fd2, r, script), ev);
      }
    }
  }

  /** With one descriptor at both ends, a first pass in which one machine reads a byte and the other is
      answered EAGAIN.  The next time the descriptor is ready for writing, the reader will be stepped too. */
  lemma OneReads(fd: int, m12: Machine, m21: Machine, x: byte) returns (script: seq<SelectEvent>)
    requires Fresh(m12) && Fresh(m21) && |m12.buf| > 0
    ensures var s := SelectRun(fd, fd, Relay(m12, m21, Running), script);
      s.m12.state == W && s.m21.state == R && s.status == Running
  {
    var ev := Ready({fd}, {}, Done([x], 1), Failed(true));
    script := [ev];
    assert script[..0] == [];
    assert Fetched(ev.a, |m12.buf|) == [x];
  }

  /** How a pass of the poll loop answers to what poll did.  Slot 0 is the descriptor that the first machine reads
      and the second one writes, slot 1 the other. */
  ghost predicate PollReacts(s: Relay, ev: PollEvent, n: Relay)
    requires Good(s)
  {
    if !Watched(s.m12) && !Watched(s.m21) then PassIs(s, n, false, false, ev.a, ev.b) else
    match ev
    case PollInterrupted(_, _) => n == s
    case PollFails(_, _) => n == s.(status := Quit)
    case Polled(re0, re1, a, b) =>
      PassIs(s, n, (s.m12.state == R && re0.input) || (s.m12.state == W && re1.output),
             (s.m21.state == R && re1.input) || (s.m21.state == W && re0.output), a, b)
  }

  /** The poll loop keeps the two descriptors apart by their slots, so there a waiting machine is always stepped
      exactly when what it asked for is ready, whatever the revents fields held. */
  lemma PollReadiness(p: PollRelay, ev: PollEvent)
    requires Good(p.r) && !Over(p.r)
    ensures PollReacts(p.r, ev, PollPass(p, ev).r)
  {
  }

  // ---------------------------------------------------------------- conservation over whole runs

  ghost predicate BothConserve(r: Relay) { Conserves(r.m12) && Conserves(r.m21) }

  lemma DriveTwoConserves(r: Relay, drive12: bool, drive21: bool, a: Reply, b: Reply)
    requires BothConserve(r)
    ensures BothConserve(DriveTwo(r, drive12, drive21, a, b))
  {
    if drive12 && r.m12.state != T { DriveConserves(r.m12, a); }
    if drive21 && r.m21.state != T { DriveConserves(r.m21, b); }
  }

  lemma {:induction false} BusyConserves(r: Relay, script: seq<(Reply, Reply)>)
    requires BothConserve(r)
    ensures BothConserve(BusyRun(r, script))
  {
    if script != [] {
      BusyConserves(r, script[..|script| - 1]);
      var last := script[|script| - 1];
      DriveTwoConserves(BusyRun(r, script[..|script| - 1]), true, true, last.0, last.1);
    }
  }

  /** Refinement carries conservation over: no schedule of readiness loses, repeats or reorders a byte. */
  lemma SelectAndPollConserve(fd1: int, fd2: int, p: PollRelay, script: seq<SelectEvent>, polls: seq<PollEvent>)
    requires BothConserve(p.r)
    ensures BothConserve(SelectRun(fd1, fd2, p.r, script))
    ensures BothConserve(PollRun(p, polls).r)
  {
    var s := SelectRun(fd1, fd2, p.r, script);
    var busy := SelectRefinesBusy(fd1, fd2, p.r, script);
    BusyConserves(p.r, busy);
    var q := PollRun(p, polls);
    busy := PollRefinesBusy(p, polls);
    BusyConserves(p.r, busy);
  }

  // ---------------------------------------------------------------- abort

  /** One direction has ended and the other has not. */
  predicate OneEnded(r: Relay) {
    r.status == Running && (r.m12.state == T) != (r.m21.state == T)
  }

  /** A run of the busy loop is aborted exactly when some pass left one direction in T and the other not. */
  lemma {:induction false} BusyAbortsIff(r: Relay, script: seq<(Reply, Reply)>)
    requires Good(r) && r.status == Running
    ensures BusyRun(r, script).status == Aborted <==>
      exists k :: 0 <= k < |script| && OneEnded(BusyRun(r, script[..k]))
    ensures BusyRun(r, script).status != Quit
  {
    if script != [] {
      var n := |script| - 1;
      var before := script[..n];
      BusyAbortsIff(r, before);
      if k :| 0 <= k < n && OneEnded(BusyRun(r, before[..k])) {
        assert before[..k] == script[..k];
      }
      if k :| 0 <= k < |script| && OneEnded(BusyRun(r, script[..k])) {
        assert k < n ==> before[..k] == script[..k];
      }
    }
  }

  /** A step that takes a machine to T: the error is reported, or a read is at end of file. */
  predicate EndsNow(m: Machine, reply: Reply) {
    m.state == Ex || (m.state == R && reply.Done? && Fetched(reply, |m.buf|) == [])
  }

  ghost predicate BothEndNow(r: Relay, replies: (Reply, Reply)) {
    r.status == Running && EndsNow(r.m12, replies.0) && EndsNow(r.m21, replies.1)
  }

  ghost predicate LeftNormally(r: Relay) {
    r.status == Running && r.m12.state == T && r.m21.state == T
  }

  /** In pass k both directions come to their end. */
  ghost predicate BusyEndsAt(r: Relay, script: seq<(Reply, Reply)>, k: nat)
    requires Good(r)
  {
    k < |script| && BothEndNow(BusyRun(r, script[..k]), script[k])
  }

  /** The busy loop is left normally exactly when both directions come to their end in the same pass. */
  lemma {:induction false} BusyEndsIff(r: Relay, script: seq<(Reply, Reply)>)
    requires Good(r) && !LeftNormally(r)
    ensures LeftNormally(BusyRun(r, script)) <==> exists k: nat :: BusyEndsAt(r, script, k)
  {
    if script != [] {
      var n := |script| - 1;
      BusyEndsIff(r, script[..n]);
      if k: nat :| BusyEndsAt(r, script[..n], k) {
        assert script[..n][..k] == script[..k] && BusyEndsAt(r, script, k);
      }
      if k: nat :| BusyEndsAt(r, script, k) {
        assert k < n ==> script[..n][..k] == script[..k] && BusyEndsAt(r, script[..n], k);
      }
      assert LeftNormally(BusyRun(r, script)) <==> LeftNormally(BusyRun(r, script[..n])) || BusyEndsAt(r, script, n);
    }
  }

  /** select or poll was called and neither interrupted nor failing, or there was no machine to watch for
      and it was not called. */
  predicate SelectReports(r: Relay, ev: SelectEvent) {
    ev.Ready? || !(Watched(r.m12) || Watched(r.m21))
  }

  predicate PollReports(r: Relay, ev: PollEvent) {
    ev.Polled? || !(Watched(r.m12) || Watched(r.m21))
  }

  lemma PollPassAborts(p: PollRelay, ev: PollEvent)
    requires Good(p.r)
    ensures PollPass(p, ev).r.status == Aborted <==>
            p.r.status == Aborted || (OneEnded(p.r) && PollReports(p.r, ev))
  {
  }

  /** Pass k begins with one direction ended, and the call lets it go on to the machines. */
  ghost predicate SelectAbortsAt(fd1: int, fd2: int, r: Relay, script: seq<SelectEvent>, k: nat)
    requires Good(r)
  {
    && k < |script|
    && OneEnded(SelectRun(fd1, fd2, r, script[..k])) && SelectReports(SelectRun(fd1, fd2, r, script[..k]), script[k])
  }

  ghost predicate PollAbortsAt(p: PollRelay, script: seq<PollEvent>, k: nat)
    requires Good(p.r)
  {
    k < |script| && OneEnded(PollRun(p, script[..k]).r) && PollReports(PollRun(p, script[..k]).r, script[k])
  }

  lemma SelectAbortsNext(fd1: int, fd2: int, r: Relay, script: seq<SelectEvent>)
    requires Good(r) && script != []
    ensures var n := |script| - 1;
      SelectRun(fd1, fd2, r, script).status == Aborted <==>
        SelectRun(fd1, fd2, r, script[..n]).status == Aborted || SelectAbortsAt(fd1, fd2, r, script, n)
  {
  }

  /** A run of the select loop is aborted exactly when some pass began with one direction ended, and select
      let it go on to the machines. */
  lemma {:induction false} SelectAbortsIff(fd1: int, fd2: int, r: Relay, script: seq<SelectEvent>)
    requires Good(r) && r.status == Running
    ensures SelectRun(fd1, fd2, r, script).status == Aborted <==>
            exists k: nat :: SelectAbortsAt(fd1, fd2, r, script, k)
  {
    if script != [] {
      var n := |script| - 1;
      SelectAbortsIff(fd1, fd2, r, script[..n]);
      if k: nat :| SelectAbortsAt(fd1, fd2, r, script[..n], k) {
        assert script[..n][..k] == script[..k] && SelectAbortsAt(fd1, fd2, r, script, k);
      }
      if k: nat :| SelectAbortsAt(fd1, fd2, r, script, k) {
        assert k < n ==> script[..n][..k] == script[..k] && SelectAbortsAt(fd1, fd2, r, script[..n], k);
      }
      SelectAbortsNext(fd1, fd2, r, script);
    }
  }

  lemma PollAbortsNext(p: PollRelay, script: seq<PollEvent>)
    requires Good(p.r) && script != []
    ensures var n := |script| - 1;
      PollRun(p, script).r.status == Aborted <==>
        PollRun(p, script[..n]).r.status == Aborted || PollAbortsAt(p, script, n)
  {
    PollPassAborts(PollRun(p, script[..|script| - 1]), script[|script| - 1]);
  }

  /** The same for the poll loop. */
  lemma {:induction false} PollAbortsIff(p: PollRelay, script: seq<PollEvent>)
    requires Good(p.r) && p.r.status == Running
    ensures PollRun(p, script).r.status == Aborted <==> exists k: nat :: PollAbortsAt(p, script, k)
  {
    if script != [] {
      var n := |script| - 1;
      PollAbortsIff(p, script[..n]);
      if k: nat :| PollAbortsAt(p, script[..n], k) {
        assert script[..n][..k] == script[..k] && PollAbortsAt(p, script, k);
      }
      if k: nat :| PollAbortsAt(p, script, k) {
        assert k < n ==> script[..n][..k] == script[..k] && PollAbortsAt(p, script[..n], k);
      }
      PollAbortsNext(p, script);
    }
  }

  // ---------------------------------------------------------------- bytes lost

  /** A byte was read that was not delivered: lost, if the run is over. */
  predicate Undelivered(m: Machine) { m.delivered != m.consumed }

  /** The machine is writing, or gave up on a write. */
  predicate Writing(m: Machine) { m.state == W || m.failed == WriteCall }

  lemma UndeliveredIff(m: Machine)
    requires Conserves(m)
    ensures Undelivered(m) <==> Writing(m)
  {
    if Writing(m) {
      assert |m.delivered + Unwritten(m)| == |m.delivered| + m.len;
    } else {
      assert m.delivered + [] == m.delivered;
    }
  }

  /** A direction holds undelivered bytes exactly while it is writing or after a failed write. */
  ghost predicate LosesAsStated(r: Relay) {
    && (Undelivered(r.m12) <==> Writing(r.m12))
    && (Undelivered(r.m21) <==> Writing(r.m21))
    && (LeftNormally(r) ==>
         (Undelivered(r.m12) <==> r.m12.failed == WriteCall) && (Undelivered(r.m21) <==> r.m21.failed == WriteCall))
  }

  lemma LosesIff(r: Relay)
    requires BothConserve(r)
    ensures LosesAsStated(r)
  {
  }

  /** Exactly when bytes are lost, in every run of every loop, whether it is cut off, aborted, quit or left: a
      direction has read bytes it did not deliver if and only if it is in W or gave up on a write.  So a run
      that is left normally loses bytes only where a write failed. */
  lemma BytesLostIff(fd1: int, fd2: int, m12: Machine, m21: Machine, busy: seq<(Reply, Reply)>,
                     selects: seq<SelectEvent>, re0: Bits, re1: Bits, polls: seq<PollEvent>)
    requires Fresh(m12) && Fresh(m21)
    ensures LosesAsStated(BusyRun(Relay(m12, m21, Running), busy))
    ensures LosesAsStated(SelectRun(fd1, fd2, Relay(m12, m21, Running), selects))
    ensures LosesAsStated(PollRun(PollRelay(Relay(m12, m21, Running), re0, re1), polls).r)
  {
    var r := Relay(m12, m21, Running);
    BusyConserves(r, busy);
    LosesIff(BusyRun(r, busy));
    SelectAndPollConserve(fd1, fd2, PollRelay(r, re0, re1), selects, polls);
    LosesIff(SelectRun(fd1, fd2, r, selects));
    LosesIff(PollRun(PollRelay(r, re0, re1), polls).r);
  }

  /** The abort does lose bytes that were already read: one side closes while the other has just sent. */
  lemma AbortLosesBytes(m12: Machine, m21: Machine, x: byte)
    requires Fresh(m12) && Fresh(m21) && |m21.buf| > 0
    ensures var e := BusyRun(Relay(m12, m21, Running),
                             [(Done([], 0), Done([x], 1)), (Done([], 0), Done([], 1))]);
      e.status == Aborted && e.m12.state == T && e.m21.consumed == [x] && e.m21.delivered == []
  {
    var r := Relay(m12, m21, Running);
    var first, second := (Done([], 0), Done([x], 1)), (Done([], 0), Done([], 1));
    assert [first, second][..1] == [first];
    assert Fetched(first.1, |m21.buf|) == [x];
    assert BusyRun(r, [first]) == BusyPass(r, first);
  }
}
