/** Which bytes a relay delivers, and how many it has read and not delivered when it ends or is aborted, from the
    replies of the kernel alone. */
module RelayLosses {
  import opened Bytes
  import opened RelayMachine
  import opened RelayLoops
  import opened RelayRefinement

  // ---------------------------------------------------------------- one direction

  /** How many bytes of the last read are still to be written, and whether the machine has stopped doing either. */
  datatype Owing = Owing(left: nat, ended: bool)

  /** A reply to a machine that owes nothing answers a read, to any other a write. */
  function Owe(o: Owing, reply: Reply, bufsize: nat): Owing {
    if o.ended then o else
    match reply
    case Failed(again) => if again then o else o.(ended := true)
    case Done(data, count) =>
      if o.left > 0 then o.(left := o.left - Min(count, o.left))
      else if Min(|data|, bufsize) == 0 then o.(ended := true)
      else o.(left := Min(|data|, bufsize))
  }

  function Owed(replies: seq<Reply>, bufsize: nat): Owing {
    if replies == [] then Owing(0, false)
    else Owe(Owed(replies[..|replies| - 1], bufsize), replies[|replies| - 1], bufsize)
  }

  /** How many bytes a machine has read and not delivered, from the replies alone: those by which the writes
      since its last read that was not empty fall short of what that read gave. */
  function Shortfall(replies: seq<Reply>, bufsize: nat): nat { Owed(replies, bufsize).left }

  /** The stream that the other side has sent, from the replies alone: what the replies to reads carried, one
      after the other. */
  function Sent(replies: seq<Reply>, bufsize: nat): seq<byte> {
    if replies == [] then [] else
    var n := |replies| - 1;
    var o := Owed(replies[..n], bufsize);
    Sent(replies[..n], bufsize) +
    if !o.ended && o.left == 0 && replies[n].Done? then replies[n].data[..Min(|replies[n].data|, bufsize)] else []
  }

  /** A machine that got these replies. */
  ghost predicate Follows(m: Machine, given: seq<Reply>) {
    var o := Owed(given, |m.buf|);
    && Conserves(m) && m.consumed == Sent(given, |m.buf|) && |m.consumed| == |m.delivered| + o.left
    && (m.state == R <==> !o.ended && o.left == 0)
    && (m.state == W <==> !o.ended && o.left > 0)
    && (m.state == W ==> m.len == o.left)
  }

  lemma FollowsNext(m: Machine, given: seq<Reply>, reply: Reply)
    requires Follows(m, given) && m.state != T
    ensures Follows(Drive(m, reply), given + [reply])
  {
    assert (given + [reply])[..|given|] == given;
    DriveConserves(m, reply);
  }

  lemma {:induction false} FollowsOn(m: Machine, before: seq<Reply>, replies: seq<Reply>)
    requires Follows(m, before)
    ensures Follows(DriveAll(m, replies), before + replies)
    decreases |replies|
  {
    if replies == [] {
      assert before + replies == before;
    } else if m.state == T {
      EndedFollows(m, before, replies);
    } else {
      FollowsNext(m, before, replies[0]);
      assert before + [replies[0]] + replies[1..] == before + replies;
      FollowsOn(Drive(m, replies[0]), before + [replies[0]], replies[1..]);
    }
  }

  /** To a machine in T more replies would make no difference. */
  lemma {:induction false} EndedFollows(m: Machine, before: seq<Reply>, more: seq<Reply>)
    requires Follows(m, before) && m.state == T
    ensures Follows(m, before + more)
    decreases |more|
  {
    if more == [] {
      assert before + more == before;
    } else {
      var n := |more| - 1;
      EndedFollows(m, before, more[..n]);
      assert (before + more)[..|before + more| - 1] == before + more[..n];
    }
  }

  /** Everything read is the stream, and everything delivered the stream up to the shortfall. */
  ghost predicate Streams(m: Machine, given: seq<Reply>) {
    && m.consumed == Sent(given, |m.buf|) && |m.consumed| >= Shortfall(given, |m.buf|)
    && m.delivered == m.consumed[..|m.consumed| - Shortfall(given, |m.buf|)]
  }

  lemma FollowsStreams(m: Machine, given: seq<Reply>)
    requires Follows(m, given)
    ensures Streams(m, given)
  {
    assert m.delivered == (m.delivered + Unwritten(m))[..|m.delivered|];
  }

  /** The bytes delivered are those that came, in their order, but for the last ones, whose number is the
      shortfall. */
  lemma BytesOwed(m: Machine, replies: seq<Reply>)
    requires Fresh(m)
    ensures Streams(DriveAll(m, replies), replies) && |DriveAll(m, replies).buf| == |m.buf|
  {
    FollowsOn(m, [], replies);
    assert [] + replies == replies;
    FollowsStreams(DriveAll(m, replies), replies);
    KeepsBuffer(m, replies);
  }

  lemma {:induction false} KeepsBuffer(m: Machine, replies: seq<Reply>)
    requires InBuffer(m)
    ensures |DriveAll(m, replies).buf| == |m.buf|
    decreases |replies|
  {
    if replies != [] && m.state != T {
      KeepsBuffer(Drive(m, replies[0]), replies[1..]);
    }
  }

  // ---------------------------------------------------------------- both directions

  /** The replies that the two machines of a relay got. */
  type Given = (seq<Reply>, seq<Reply>)

  ghost predicate BothFollow(r: Relay, given: Given) { Follows(r.m12, given.0) && Follows(r.m21, given.1) }

  ghost predicate BothStream(r: Relay, given: Given) { Streams(r.m12, given.0) && Streams(r.m21, given.1) }

  /** The replies of a pass go to the machines that it pushes. */
  function Give(s: Relay, given: Given, ready12: bool, ready21: bool, a: Reply, b: Reply): Given {
    if s.m12.state == T then given else
    var given12 := if ready12 || s.m12.state == Ex then given.0 + [a] else given.0;
    if s.m21.state == T then (given12, given.1)
    else (given12, if ready21 || s.m21.state == Ex then given.1 + [b] else given.1)
  }

  lemma PassFollows(s: Relay, n: Relay, given: Given, ready12: bool, ready21: bool, a: Reply, b: Reply)
    requires BothFollow(s, given) && PassIs(s, n, ready12, ready21, a, b)
    ensures BothFollow(n, Give(s, given, ready12, ready21, a, b))
  {
    if s.m12.state != T {
      FollowsNext(s.m12, given.0, a);
      if s.m21.state != T {
        FollowsNext(s.m21, given.1, b);
      }
    }
  }

  function BusyGiven(r: Relay, script: seq<(Reply, Reply)>): Given
    requires Good(r)
  {
    if script == [] then ([], []) else
    var n := |script| - 1;
    var s, given := BusyRun(r, script[..n]), BusyGiven(r, script[..n]);
    if Over(s) then given else Give(s, given, true, true, script[n].0, script[n].1)
  }

  /** A pass in which a signal comes or select fails gives no replies. */
  function SelectGiven(fd1: int, fd2: int, r: Relay, script: seq<SelectEvent>): Given
    requires Good(r)
  {
    if script == [] then ([], []) else
    var n := |script| - 1;
    var s, given := SelectRun(fd1, fd2, r, script[..n]), SelectGiven(fd1, fd2, r, script[..n]);
    if Over(s) then given
    else if !Watched(s.m12) && !Watched(s.m21) then Give(s, given, false, false, script[n].a, script[n].b)
    else match script[n]
      case Ready(rs, ws, a, b) =>
        var asked12, asked21 := Asked(s.m12, fd1, fd2, rs, ws), Asked(s.m21, fd2, fd1, rs, ws);
        Give(s, given, asked12 || (fd1 == fd2 && asked21), asked21 || (fd1 == fd2 && asked12), a, b)
      case _ => given
  }

  function PollGiven(p: PollRelay, script: seq<PollEvent>): Given
    requires Good(p.r)
  {
    if script == [] then ([], []) else
    var n := |script| - 1;
    var s, given := PollRun(p, script[..n]).r, PollGiven(p, script[..n]);
    if Over(s) then given
    else if !Watched(s.m12) && !Watched(s.m21) then Give(s, given, false, false, script[n].a, script[n].b)
    else match script[n]
      case Polled(re0, re1, a, b) =>
        Give(s, given, (s.m12.state == R && re0.input) || (s.m12.state == W && re1.output),
             (s.m21.state == R && re1.input) || (s.m21.state == W && re0.output), a, b)
      case _ => given
  }

  lemma {:induction false} BusyFollows(r: Relay, script: seq<(Reply, Reply)>)
    requires Fresh(r.m12) && Fresh(r.m21)
    ensures BothFollow(BusyRun(r, script), BusyGiven(r, script))
  {
    if script != [] {
      var n := |script| - 1;
      BusyFollows(r, script[..n]);
      var s := BusyRun(r, script[..n]);
      if !Over(s) {
        PassFollows(s, BusyRun(r, script), BusyGiven(r, script[..n]), true, true, script[n].0, script[n].1);
      }
    }
  }

  lemma {:induction false} SelectFollows(fd1: int, fd2: int, r: Relay, script: seq<SelectEvent>)
    requires Fresh(r.m12) && Fresh(r.m21)
    ensures BothFollow(SelectRun(fd1, fd2, r, script), SelectGiven(fd1, fd2, r, script))
  {
    if script != [] {
      var n := |script| - 1;
      SelectFollows(fd1, fd2, r, script[..n]);
      var s := SelectRun(fd1, fd2, r, script[..n]);
      if !Over(s) { SelectFollowsNext(fd1, fd2, r, script); }
    }
  }

  lemma SelectFollowsNext(fd1: int, fd2: int, r: Relay, script: seq<SelectEvent>)
    requires Good(r) && script != []
    requires var n := |script| - 1; var s := SelectRun(fd1, fd2, r, script[..n]);
      !Over(s) && BothFollow(s, SelectGiven(fd1, fd2, r, script[..n]))
    ensures BothFollow(SelectRun(fd1, fd2, r, script), SelectGiven(fd1, fd2, r, script))
  {
    var n := |script| - 1;
    var s, given, ev := SelectRun(fd1, fd2, r, script[..n]), SelectGiven(fd1, fd2, r, script[..n]), script[n];
    var e := SelectRun(fd1, fd2, r, script);
    SelectPassReacts(fd1, fd2, s, ev);
    if !Watched(s.m12) && !Watched(s.m21) {
      PassFollows(s, e, given, false, false, ev.a, ev.b);
    } else if ev.Ready? {
      var asked12, asked21 := Asked(s.m12, fd1, fd2, ev.rset, ev.wset), Asked(s.m21, fd2, fd1, ev.rset, ev.wset);
      PassFollows(s, e, given, asked12 || (fd1 == fd2 && asked21), asked21 || (fd1 == fd2 && asked12), ev.a, ev.b);
    }
  }

  lemma {:induction false} PollFollows(p: PollRelay, script: seq<PollEvent>)
    requires Fresh(p.r.m12) && Fresh(p.r.m21)
    ensures BothFollow(PollRun(p, script).r, PollGiven(p, script))
  {
    if script != [] {
      PollFollows(p, script[..|script| - 1]);
      if !Over(PollRun(p, script[..|script| - 1]).r) { PollFollowsNext(p, script); }
    }
  }

  lemma PollFollowsNext(p: PollRelay, script: seq<PollEvent>)
    requires Good(p.r) && script != []
    requires var n := |script| - 1; var s := PollRun(p, script[..n]).r;
      !Over(s) && BothFollow(s, PollGiven(p, script[..n]))
    ensures BothFollow(PollRun(p, script).r, PollGiven(p, script))
  {
    var n := |script| - 1;
    var q, given, ev := PollRun(p, script[..n]), PollGiven(p, script[..n]), script[n];
    var s, e := q.r, PollRun(p, script).r;
    PollReadiness(q, ev);
    if !Watched(s.m12) && !Watched(s.m21) {
      PassFollows(s, e, given, false, false, ev.a, ev.b);
    } else if ev.Polled? {
      PassFollows(s, e, given, (s.m12.state == R && ev.re0.input) || (s.m12.state == W && ev.re1.output),
                  (s.m21.state == R && ev.re1.input) || (s.m21.state == W && ev.re0.output), ev.a, ev.b);
    }
  }

  /** Which bytes are delivered and which are lost, from what the kernel answers alone: in a run of any of the three
      loops, cut off, aborted, quit or left, a direction has read just what the replies to its reads carried, in
      order, and has delivered all of it but the last bytes, by whose number its writes since then fall short. */
  lemma BytesLostFrom(fd1: int, fd2: int, m12: Machine, m21: Machine, script: seq<(Reply, Reply)>,
                      selects: seq<SelectEvent>, re0: Bits, re1: Bits, polls: seq<PollEvent>)
    requires Fresh(m12) && Fresh(m21)
    ensures var r := Relay(m12, m21, Running); var p := PollRelay(r, re0, re1);
      && BothStream(BusyRun(r, script), BusyGiven(r, script))
      && BothStream(SelectRun(fd1, fd2, r, selects), SelectGiven(fd1, fd2, r, selects))
      && BothStream(PollRun(p, polls).r, PollGiven(p, polls))
  {
    var r := Relay(m12, m21, Running);
    var p := PollRelay(r, re0, re1);
    BusyFollows(r, script);
    BothStreamFrom(BusyRun(r, script), BusyGiven(r, script));
    SelectFollows(fd1, fd2, r, selects);
    BothStreamFrom(SelectRun(fd1, fd2, r, selects), SelectGiven(fd1, fd2, r, selects));
    PollFollows(p, polls);
    BothStreamFrom(PollRun(p, polls).r, PollGiven(p, polls));
  }

  lemma BothStreamFrom(r: Relay, given: Given)
    requires BothFollow(r, given)
    ensures BothStream(r, given)
  {
    FollowsStreams(r.m12, given.0);
    FollowsStreams(r.m21, given.1);
  }
}
