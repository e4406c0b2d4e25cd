/** One direction of the relay: the read/write/error/terminal machine that fsm_driver pushes one step at
    a time (the same function in Linuxlhq/005AdvanceIO/nonblock/001relay.c, 002relay_select.c,
    003relay_poll.c and relayer/relayer.c).

    A Reply is what the kernel answers to the read or write of one step: an error (EAGAIN or a real one)
    or success.  A successful read gets the first bytes of `data`, at most BUFSIZE of them, and none at
    end of file; a successful write takes `count` bytes, at most those offered.  So every reply makes
    sense in every state, and sequences of replies are exactly the behaviours of the descriptors. */
module RelayMachine {
  import opened Bytes

  datatype FsmState = R | W | Ex | T

  datatype Call = NoCall | ReadCall | WriteCall

  datatype Reply = Failed(again: bool) | Done(data: seq<byte>, count: nat)

  /** The fields of struct fsm_st, with the bytes read from sfd and written to dfd so far. */
  datatype Machine = Machine(state: FsmState, len: int, pos: int, failed: Call, buf: seq<byte>,
                             consumed: seq<byte>, delivered: seq<byte>)

  /** The start of a job: len, pos and buf are whatever the memory held. */
  ghost predicate Fresh(m: Machine) {
    m.state == R && m.consumed == [] && m.delivered == [] && m.failed == NoCall
  }

  /** The bytes a successful read delivers. */
  function Fetched(reply: Reply, bufsize: nat): seq<byte>
    requires reply.Done?
  {
    reply.data[..Min(|reply.data|, bufsize)]
  }

  /** read() into the start of the buffer. */
  function DriveRead(m: Machine, reply: Reply): Machine {
    match reply
    case Failed(again) =>
      if again then m.(len := -1) else m.(len := -1, failed := ReadCall, state := Ex)
    case Done(_, _) =>
      var got := Fetched(reply, |m.buf|);
      if got == [] then m.(len := 0, state := T)
      else m.(len := |got|, pos := 0, state := W, buf := got + m.buf[|got|..], consumed := m.consumed + got)
  }

  /** write() from buf + pos. */
  function DriveWrite(m: Machine, reply: Reply): Machine
    requires 0 <= m.pos && 0 <= m.len && m.pos + m.len <= |m.buf|
  {
    match reply
    case Failed(again) =>
      if again then m else m.(failed := WriteCall, state := Ex)
    case Done(_, count) =>
      var ret := Min(count, m.len);
      m.(pos := m.pos + ret, len := m.len - ret, state := if m.len - ret == 0 then R else W,
         delivered := m.delivered + m.buf[m.pos..m.pos + ret])
  }

  /** In W the unwritten bytes lie inside the buffer. */
  ghost predicate InBuffer(m: Machine) {
    m.state == W ==> 0 <= m.pos && 0 < m.len && m.pos + m.len <= |m.buf|
  }

  /** One call of fsm_driver in a state other than T, where it aborts the process. */
  function Drive(m: Machine, reply: Reply): (r: Machine)
    requires m.state != T && InBuffer(m)
    ensures InBuffer(r) && |r.buf| == |m.buf|
  {
    match m.state
    case R => DriveRead(m, reply)
    case W => DriveWrite(m, reply)
    case Ex => m.(state := T)
  }

  /** The machine as the object that fsm_driver updates. */
  class Fsm {
    var state: FsmState
    var len: int
    var pos: int
    var failed: Call
    const buf: array<byte>
    var consumed: seq<byte>
    var delivered: seq<byte>

    ghost function View(): Machine reads this, buf {
      Machine(state, len, pos, failed, buf[..], consumed, delivered)
    }

    constructor (bufsize: nat, len: int, pos: int)
      ensures fresh(buf) && buf.Length == bufsize && Fresh(View())
    {
      state, failed, consumed, delivered := R, NoCall, [], [];
      this.len, this.pos := len, pos;
      buf := new byte[bufsize];
    }

    method Driver(reply: Reply) returns (aborted: bool)
      requires InBuffer(View())
      modifies this, buf
      ensures aborted == (old(state) == T)
      ensures aborted ==> View() == old(View())
      ensures !aborted ==> View() == Drive(old(View()), reply)
    {
      aborted := false;
      match state
      case R =>
        Read(reply);
      case W =>
        Write(reply);
      case Ex =>
        state := T;
      case T =>
        aborted := true;
    }

    method Read(reply: Reply)
      requires state == R
      modifies this, buf
      ensures View() == DriveRead(old(View()), reply)
    {
      if reply.Failed? {
        len := -1;
        if !reply.again {
          failed, state := ReadCall, Ex;
        }
      } else {
        var got := Fetched(reply, buf.Length);
        len := |got|;
        forall i | 0 <= i < |got| { buf[i] := got[i]; }
        if len == 0 {
          state := T;
        } else {
          pos, state := 0, W;
          consumed := consumed + got;
        }
        assert buf[..] == got + old(buf[..])[|got|..];
      }
    }

    method Write(reply: Reply)
      requires state == W && InBuffer(View())
      modifies this
      ensures View() == DriveWrite(old(View()), reply)
    {
      if reply.Failed? {
        if !reply.again {
          failed, state := WriteCall, Ex;
        }
      } else {
        var ret := Min(reply.count, len);
        delivered := delivered + buf[pos..pos + ret];
        pos, len := pos + ret, len - ret;
        state := if len == 0 then R else W;
      }
    }
  }

  // ---------------------------------------------------------------- conservation

  /** The bytes read but not yet written: none after a read, also a failed one. */
  function Unwritten(m: Machine): seq<byte>
    requires m.failed == WriteCall || m.state == W ==> 0 <= m.pos && 0 <= m.len && m.pos + m.len <= |m.buf|
  {
    if m.state == W || m.failed == WriteCall then m.buf[m.pos..m.pos + m.len] else []
  }

  /** No byte is lost, repeated or reordered: what was delivered, then what is still in the buffer, is what
      was consumed; and a machine that ended without an error has delivered everything. */
  ghost predicate Conserves(m: Machine) {
    && InBuffer(m)
    && (m.failed == WriteCall ==> 0 <= m.pos && 0 < m.len && m.pos + m.len <= |m.buf|)
    && m.delivered + Unwritten(m) == m.consumed
    && (m.failed == NoCall || m.state == Ex || m.state == T)
    && (m.state == Ex ==> m.failed != NoCall)
  }

  lemma ReadConserves(m: Machine, reply: Reply)
    requires Conserves(m) && m.state == R
    ensures Conserves(DriveRead(m, reply))
  {
    if reply.Done? {
      var got := Fetched(reply, |m.buf|);
      var r := DriveRead(m, reply);
      assert m.delivered == m.consumed;
      if got == [] {
        assert Unwritten(r) == [];
      } else {
        assert Unwritten(r) == got;
      }
    }
  }

  lemma WriteConserves(m: Machine, reply: Reply)
    requires Conserves(m) && m.state == W
    ensures Conserves(DriveWrite(m, reply))
  {
    if reply.Done? {
      var mid := m.pos + Min(reply.count, m.len);
      assert m.buf[m.pos..m.pos + m.len] == m.buf[m.pos..mid] + m.buf[mid..m.pos + m.len];
      var r := DriveWrite(m, reply);
      assert Unwritten(r) == m.buf[mid..m.pos + m.len];
    }
  }

  /** The bytes that the kernel delivers with a reply: the first ones it has, if the machine reads. */
  function Carried(m: Machine, reply: Reply): seq<byte> {
    if m.state == R && reply.Done? then reply.data[..Min(|reply.data|, |m.buf|)] else []
  }

  /** One step consumes what the kernel delivers, in its order, and keeps it. */
  lemma DriveConserves(m: Machine, reply: Reply)
    requires Conserves(m) && m.state != T
    ensures Conserves(Drive(m, reply))
    ensures Drive(m, reply).consumed == m.consumed + Carried(m, reply)
  {
    match m.state
    case R => ReadConserves(m, reply);
    case W => WriteConserves(m, reply);
    case Ex =>
  }

  /** Any number of steps of one machine, up to the point where it would abort. */
  function DriveAll(m: Machine, replies: seq<Reply>): Machine
    requires InBuffer(m)
    decreases |replies|
  {
    if replies == [] || m.state == T then m else DriveAll(Drive(m, replies[0]), replies[1..])
  }

  /** What the kernel delivers in these steps. */
  function CarriedAll(m: Machine, replies: seq<Reply>): seq<byte>
    requires InBuffer(m)
    decreases |replies|
  {
    if replies == [] || m.state == T then []
    else Carried(m, replies[0]) + CarriedAll(Drive(m, replies[0]), replies[1..])
  }

  lemma {:induction false} DriveAllConserves(m: Machine, replies: seq<Reply>)
    requires Conserves(m)
    ensures Conserves(DriveAll(m, replies))
    ensures DriveAll(m, replies).consumed == m.consumed + CarriedAll(m, replies)
    decreases |replies|
  {
    if replies != [] && m.state != T {
      DriveConserves(m, replies[0]);
      DriveAllConserves(Drive(m, replies[0]), replies[1..]);
    }
  }

  /** What ends a machine that reads or writes: an error other than EAGAIN, or a read at end of file. */
  predicate Ends(m: Machine, reply: Reply) {
    match reply
    case Failed(again) => !again
    case Done(_, _) => m.state == R && Fetched(reply, |m.buf|) == []
  }

  /** A machine goes on reading and writing exactly as long as no reply was such. */
  lemma {:induction false} GoesOnIff(m: Machine, replies: seq<Reply>)
    requires InBuffer(m) && (m.state == R || m.state == W)
    ensures DriveAll(m, replies).state in {R, W} <==>
      forall k :: 0 <= k < |replies| ==> !Ends(DriveAll(m, replies[..k]), replies[k])
    decreases |replies|
  {
    if replies != [] {
      assert DriveAll(m, replies[..0]) == m;
      var next, rest := Drive(m, replies[0]), replies[1..];
      if Ends(m, replies[0]) {
        StaysEnded(next, rest);
        assert Ends(DriveAll(m, replies[..0]), replies[0]);
      } else {
        GoesOnIff(next, rest);
        forall k | 1 <= k < |replies|
          ensures DriveAll(m, replies[..k]) == DriveAll(next, rest[..k - 1]) && replies[k] == rest[k - 1]
        {
          assert replies[..k][1..] == rest[..k - 1];
        }
        forall k | 0 <= k < |rest|
          ensures Ends(DriveAll(next, rest[..k]), rest[k]) == Ends(DriveAll(m, replies[..k + 1]), replies[k + 1])
        {
        }
      }
    }
  }

  lemma {:induction false} StaysEnded(m: Machine, replies: seq<Reply>)
    requires m.state == Ex || m.state == T
    ensures DriveAll(m, replies).state in {Ex, T}
    decreases |replies|
  {
    if replies != [] && m.state == Ex {
      StaysEnded(Drive(m, replies[0]), replies[1..]);
    }
  }

  /** Main result for one direction: whatever the descriptors answer, the bytes delivered are a prefix of
      the bytes consumed, the rest lies in the buffer while the machine writes, and at end of file nothing
      is left. */
  lemma NothingLost(m: Machine, replies: seq<Reply>)
    requires Fresh(m)
    ensures var e := DriveAll(m, replies);
      && e.delivered <= e.consumed
      && InBuffer(e) && (e.state == W ==> e.consumed == e.delivered + e.buf[e.pos..e.pos + e.len])
      && (e.state == R || (e.state == T && e.failed != WriteCall) ==> e.delivered == e.consumed)
  {
    DriveAllConserves(m, replies);
  }
}
