/** The programme-list packet: the server lays it out once (Linuxlhq/IPV4Muticast/src/server/thr_list.c)
    and the client accepts and walks it (Linuxlhq/IPV4Muticast/src/client/client.c), both with the packed
    structures of src/include/proto.h.

    A packet is the list's channel number 0, then for every entry its channel, its size as a 16-bit
    number in network order, and its description with the terminating zero; the size counts all of these. */
module ListPacket {
  import opened Basics
  import opened Bytes

  /** One programme: a channel and its description, a C string. */
  datatype Entry = Entry(chnid: byte, desc: seq<byte>)

  const LISTCHNID: byte := 0
  const MSG_LIST_MAX: nat := 65536 - 20 - 8
  /** sizeof(struct msg_list_st) */
  const SMALLEST: nat := 5

  predicate ZeroFree(s: seq<byte>) { forall i :: 0 <= i < |s| ==> s[i] != 0 }

  ghost predicate CStrings(l: seq<Entry>) { forall i :: 0 <= i < |l| ==> ZeroFree(l[i].desc) }

  // ---------------------------------------------------------------- the layout

  /** sizeof(struct msg_listentry_st) + strlen(desc) */
  function Size(e: Entry): nat { 4 + |e.desc| }

  /** htons keeps the low 16 bits, high byte first. */
  function Htons(n: nat): (r: seq<byte>)
    ensures |r| == 2
  {
    [(n / 256) % 256, n % 256]
  }

  function Ntohs(hi: byte, lo: byte): nat { hi * 256 + lo }

  function EncodeEntry(e: Entry): (r: seq<byte>)
    ensures |r| == Size(e)
  {
    [e.chnid] + Htons(Size(e)) + e.desc + [0]
  }

  function EncodeEntries(l: seq<Entry>): seq<byte> {
    if l == [] then [] else EncodeEntry(l[0]) + EncodeEntries(l[1..])
  }

  function Encode(l: seq<Entry>): seq<byte> { [LISTCHNID] + EncodeEntries(l) }

  /** The layout of two lists after each other. */
  lemma {:induction false} EntriesConcat(l: seq<Entry>, m: seq<Entry>)
    ensures EncodeEntries(l + m) == EncodeEntries(l) + EncodeEntries(m)
  {
    if l == [] {
      assert l + m == m;
    } else {
      var lm := l + m;
      assert lm[0] == l[0] && lm[1..] == l[1..] + m;
      EntriesConcat(l[1..], m);
    }
  }

  /** The layout entry by entry. */
  lemma EntryAt(l: seq<Entry>, i: nat)
    requires i < |l|
    ensures EncodeEntries(l[..i + 1]) == EncodeEntries(l[..i]) + EncodeEntry(l[i])
    ensures |EncodeEntries(l[..i + 1])| <= |EncodeEntries(l)|
  {
    var one := [l[i]];
    assert one[1..] == [];
    assert EncodeEntries(one) == EncodeEntry(l[i]);
    assert l[..i + 1] == l[..i] + one;
    EntriesConcat(l[..i], one);
    assert l == l[..i + 1] + l[i + 1..];
    EntriesConcat(l[..i + 1], l[i + 1..]);
  }

  /** The first loop of thr_list. */
  method TotalSize(list: seq<Entry>) returns (totalsize: nat)
    ensures totalsize == |Encode(list)|
  {
    totalsize := 1;
    for i := 0 to |list|
      invariant totalsize == 1 + |EncodeEntries(list[..i])|
    {
      EntryAt(list, i);
      totalsize := totalsize + Size(list[i]);
    }
    assert list[..|list|] == list;
  }

  /** thr_list up to its sending loop: the size, then the packet, filled through a moving entry pointer. */
  method BuildPacket(list: seq<Entry>) returns (packet: array<byte>)
    requires CStrings(list)
    ensures fresh(packet) && packet[..] == Encode(list)
  {
    var totalsize := TotalSize(list);
    packet := new byte[totalsize];
    packet[0] := LISTCHNID;
    var entryp := 1;
    for i := 0 to |list|
      invariant entryp == 1 + |EncodeEntries(list[..i])| <= packet.Length == |Encode(list)|
      invariant packet[..entryp] == [LISTCHNID] + EncodeEntries(list[..i])
    {
      EntryAt(list, i);
      ghost var filled := packet[..entryp];
      FillEntry(packet, entryp, list[i]);
      assert packet[..entryp] == filled;
      EntryFilled(packet[..], filled, entryp, list[i], EncodeEntries(list[..i]));
      entryp := entryp + Size(list[i]);
    }
    assert list[..|list|] == list && packet[..] == packet[..entryp];
  }

  lemma EntryFilled(packet: seq<byte>, filled: seq<byte>, entryp: nat, e: Entry, before: seq<byte>)
    requires entryp + Size(e) <= |packet| && packet[..entryp] == filled == [LISTCHNID] + before
    requires packet[entryp..entryp + Size(e)] == EncodeEntry(e)
    ensures packet[..entryp + Size(e)] == [LISTCHNID] + (before + EncodeEntry(e))
  {
    assert packet[..entryp + Size(e)] == packet[..entryp] + packet[entryp..entryp + Size(e)];
  }

  /** One entry, with strcpy of its description. */
  method FillEntry(packet: array<byte>, entryp: nat, e: Entry)
    requires ZeroFree(e.desc) && entryp + Size(e) <= packet.Length
    modifies packet
    ensures forall i :: 0 <= i < entryp ==> packet[i] == old(packet[i])
    ensures packet[entryp..entryp + Size(e)] == EncodeEntry(e)
  {
    var size := 4 + |e.desc|;
    packet[entryp] := e.chnid;
    packet[entryp + 1] := (size / 256) % 256;
    packet[entryp + 2] := size % 256;
    var k := 0;
    while k < |e.desc|
      invariant k <= |e.desc|
      invariant forall i :: 0 <= i < entryp ==> packet[i] == old(packet[i])
      invariant packet[entryp..entryp + 3] == [e.chnid] + Htons(Size(e))
      invariant packet[entryp + 3..entryp + 3 + k] == e.desc[..k]
    {
      packet[entryp + 3 + k] := e.desc[k];
      k := k + 1;
    }
    packet[entryp + 3 + k] := 0;
    assert packet[entryp..entryp + Size(e)] ==
      packet[entryp..entryp + 3] + packet[entryp + 3..entryp + 3 + k] + [packet[entryp + 3 + k]];
  }

  // ---------------------------------------------------------------- the client

  /** recvfrom keeps no more than its buffer holds. */
  function Received(datagram: seq<byte>): seq<byte> {
    datagram[..Min(|datagram|, MSG_LIST_MAX)]
  }

  predicate Accepts(msg: seq<byte>) { |msg| >= SMALLEST && msg[0] == LISTCHNID }

  /** How the client's walk ends: a list, with the position where it stopped; a read past the bytes
      received; or an entry of size 0, at which it would stay for ever. */
  datatype Walk = Listed(entries: seq<Entry>, end: nat) | Overrun | Spins

  /** The zero-terminated string at a position, if it ends within the message. */
  function CString(msg: seq<byte>, at: nat): (r: Option<seq<byte>>)
    ensures r.Some? ==> at + |r.value| < |msg| && msg[at..at + |r.value|] == r.value
    decreases |msg| - at
  {
    if at >= |msg| then None
    else if msg[at] == 0 then Some([])
    else match CString(msg, at + 1)
      case None => None
      case Some(rest) => Some([msg[at]] + rest)
  }

  function Prepend(e: Entry, w: Walk): Walk {
    match w
    case Listed(rest, end) => Listed([e] + rest, end)
    case other => other
  }

  function WalkFrom(msg: seq<byte>, pos: nat): Walk
    decreases |msg| - pos
  {
    if pos >= |msg| then Listed([], pos)
    else if pos + 3 > |msg| then Overrun
    else var desc := CString(msg, pos + 3);
      if desc.None? then Overrun else
      var size := Ntohs(msg[pos + 1], msg[pos + 2]);
      if size == 0 then Spins else
      Prepend(Entry(msg[pos], desc.value), WalkFrom(msg, pos + size))
  }

  /** The characters read so far, then the rest of the string. */
  function Joined(desc: seq<byte>, r: Option<seq<byte>>): Option<seq<byte>> {
    if r.None? then None else Some(desc + r.value)
  }

  lemma JoinedNext(msg: seq<byte>, desc: seq<byte>, k: nat)
    requires k < |msg| && msg[k] != 0
    ensures Joined(desc, CString(msg, k)) == Joined(desc + [msg[k]], CString(msg, k + 1))
  {
    var r := CString(msg, k + 1);
    if r.Some? {
      assert desc + ([msg[k]] + r.value) == desc + [msg[k]] + r.value;
    }
  }

  lemma JoinedEnds(desc: seq<byte>, r: Option<seq<byte>>)
    ensures Joined([], r) == r && Joined(desc, Some([])) == Some(desc)
  {
    if r.Some? {
      assert [] + r.value == r.value;
    }
    assert desc + [] == desc;
  }

  /** printf("%s") of the description. */
  method ReadCString(msg: array<byte>, len: nat, at: nat) returns (r: Option<seq<byte>>)
    requires at <= len <= msg.Length
    ensures r == CString(msg[..len], at)
  {
    var desc, k := [], at;
    ghost var m := msg[..len];
    JoinedEnds(desc, CString(m, at));
    while k < len && msg[k] != 0
      invariant at <= k <= len && CString(m, at) == Joined(desc, CString(m, k))
    {
      JoinedNext(m, desc, k);
      desc, k := desc + [msg[k]], k + 1;
    }
    if k == len { return None; }
    JoinedEnds(desc, None);
    assert CString(m, k) == Some([]);
    return Some(desc);
  }

  /** The entries printed so far, then the rest of the walk. */
  function Printed(printed: seq<Entry>, w: Walk): Walk {
    match w
    case Listed(rest, end) => Listed(printed + rest, end)
    case other => other
  }

  /** What is walked of an accepted message: nothing if its length is negative. */
  function Walked(msg: seq<byte>, len: int): Walk
    requires len <= |msg|
  {
    if len < 0 then Listed([], 1) else WalkFrom(msg[..len], 1)
  }

  /** The walk over an accepted message, printing as it goes. */
  method PrintList(msg: array<byte>, len: int) returns (walk: Walk)
    requires len <= msg.Length
    ensures walk == Walked(msg[..], len)
  {
    var pos, printed := 1, [];
    if len < 0 { return Listed(printed, pos); }
    ghost var m := msg[..len];
    assert msg[..][..len] == m;
    assert Printed(printed, WalkFrom(m, 1)) == WalkFrom(m, 1);
    while pos < len
      invariant Printed(printed, WalkFrom(m, pos)) == WalkFrom(m, 1)
      decreases len - pos
    {
      if pos + 3 > len { return Overrun; }
      var desc := ReadCString(msg, len, pos + 3);
      if desc.None? { return Overrun; }
      var size := Ntohs(msg[pos + 1], msg[pos + 2]);
      if size == 0 { return Spins; }
      var e := Entry(msg[pos], desc.value);
      assert WalkFrom(m, pos) == Prepend(e, WalkFrom(m, pos + size));
      PrintedNext(printed, e, WalkFrom(m, pos + size));
      printed, pos := printed + [e], pos + size;
    }
    return Listed(printed, pos);
  }

  lemma PrintedNext(printed: seq<Entry>, e: Entry, w: Walk)
    ensures Printed(printed, Prepend(e, w)) == Printed(printed + [e], w)
  {
    if w.Listed? {
      assert printed + ([e] + w.entries) == printed + [e] + w.entries;
    }
  }

  /** What the client makes of one datagram: nothing if it is too small or of another channel. */
  function Client(datagram: seq<byte>): Option<Walk> {
    var msg := Received(datagram);
    if Accepts(msg) then Some(WalkFrom(msg, 1)) else None
  }

  /** What recvfrom does: it delivers a datagram, or fails and returns -1. */
  datatype Arrival = Datagram(bytes: seq<byte>) | Fails

  /** The client's buffer: a datagram overwrites its beginning, a failure leaves it alone. */
  function Buffer(mem: seq<byte>, arrivals: seq<Arrival>): (r: seq<byte>)
    requires |mem| == MSG_LIST_MAX
    ensures |r| == MSG_LIST_MAX
  {
    if arrivals == [] then mem else Overwrite(Buffer(mem, arrivals[..|arrivals| - 1]), arrivals[|arrivals| - 1])
  }

  function Overwrite(mem: seq<byte>, a: Arrival): (r: seq<byte>)
    requires |mem| == MSG_LIST_MAX
    ensures |r| == MSG_LIST_MAX
  {
    match a
    case Datagram(bytes) => Received(bytes) + mem[|Received(bytes)|..]
    case Fails => mem
  }

  /** What recvfrom returns. */
  function Length(a: Arrival): (len: int)
    ensures len <= MSG_LIST_MAX
  {
    match a
    case Datagram(bytes) => |Received(bytes)|
    case Fails => -1
  }

  /** The length with which an arrival is taken for the list, given the buffer before it.  The -1 of a failure
      is compared as an unsigned size, and so passes for large enough. */
  function Taken(mem: seq<byte>, a: Arrival): Option<int>
    requires |mem| == MSG_LIST_MAX
  {
    if (Length(a) < 0 || Length(a) >= SMALLEST) && Overwrite(mem, a)[0] == LISTCHNID then Some(Length(a)) else None
  }

  /** What arrival k is taken for, given all the arrivals before it. */
  function TakenAt(mem: seq<byte>, arrivals: seq<Arrival>, k: nat): Option<int>
    requires |mem| == MSG_LIST_MAX && k < |arrivals|
  {
    Taken(Buffer(mem, arrivals[..k]), arrivals[k])
  }

  /** The receive loop: arrivals are dropped until one is taken. */
  method ReceiveList(msg: array<byte>, arrivals: seq<Arrival>) returns (k: nat, len: int)
    requires msg.Length == MSG_LIST_MAX
    modifies msg
    ensures k <= |arrivals| && len <= MSG_LIST_MAX
    ensures forall i :: 0 <= i < k ==> TakenAt(old(msg[..]), arrivals, i) == None
    ensures k < |arrivals| ==> TakenAt(old(msg[..]), arrivals, k) == Some(len)
    ensures k < |arrivals| ==> msg[..] == Buffer(old(msg[..]), arrivals[..k + 1])
  {
    ghost var mem := msg[..];
    k, len := 0, 0;
    assert arrivals[..0] == [];
    while k < |arrivals|
      invariant k <= |arrivals| && len <= MSG_LIST_MAX && msg[..] == Buffer(mem, arrivals[..k])
      invariant forall i :: 0 <= i < k ==> TakenAt(mem, arrivals, i) == None
    {
      assert arrivals[..k + 1][..k] == arrivals[..k];
      var taken;
      len, taken := Receive(msg, arrivals[k]);
      if taken { return; }
      k := k + 1;
    }
  }

  /** The body of the loop: recvfrom into the buffer, and the two tests. */
  method Receive(msg: array<byte>, a: Arrival) returns (len: int, taken: bool)
    requires msg.Length == MSG_LIST_MAX
    modifies msg
    ensures msg[..] == Overwrite(old(msg[..]), a)
    ensures len == Length(a)
    ensures Taken(old(msg[..]), a) == if taken then Some(len) else None
  {
    match a {
      case Datagram(bytes) =>
        var kept := Received(bytes);
        forall i | 0 <= i < |kept| { msg[i] := kept[i]; }
        assert msg[..] == kept + old(msg[..])[|kept|..];
        len := |kept|;
      case Fails =>
        len := -1;
    }
    taken := (len < 0 || len >= SMALLEST) && msg[0] == LISTCHNID;
  }

  /** A datagram is taken and walked as it is alone, whatever the buffer held. */
  lemma TakenDatagram(mem: seq<byte>, bytes: seq<byte>)
    requires |mem| == MSG_LIST_MAX
    ensures var a := Datagram(bytes); var taken := Taken(mem, a);
      && (taken.Some? <==> Client(bytes).Some?)
      && (taken.Some? ==> Client(bytes) == Some(Walked(Overwrite(mem, a), taken.value)))
  {
    var msg := Received(bytes);
    if |msg| >= SMALLEST {
      assert Overwrite(mem, Datagram(bytes))[..|msg|] == msg;
    }
  }

  /** The first byte of the last datagram that was not empty, or of the memory if there was none. */
  function LastFirst(first: byte, arrivals: seq<Arrival>): byte {
    if arrivals == [] then first else
    var last := arrivals[|arrivals| - 1];
    if last.Datagram? && last.bytes != [] then last.bytes[0] else LastFirst(first, arrivals[..|arrivals| - 1])
  }

  lemma {:induction false} BufferBegins(mem: seq<byte>, arrivals: seq<Arrival>)
    requires |mem| == MSG_LIST_MAX
    ensures Buffer(mem, arrivals)[0] == LastFirst(mem[0], arrivals)
  {
    if arrivals != [] {
      BufferBegins(mem, arrivals[..|arrivals| - 1]);
    }
  }

  /** A failure of recvfrom is taken for a list, one without entries, if and only if the last datagram before it
      that was not empty began with the list's channel number, or there was none and the memory does. */
  lemma FailureTakenIff(mem: seq<byte>, arrivals: seq<Arrival>, k: nat)
    requires |mem| == MSG_LIST_MAX && k < |arrivals| && arrivals[k].Fails?
    ensures TakenAt(mem, arrivals, k).Some? <==> LastFirst(mem[0], arrivals[..k]) == LISTCHNID
    ensures TakenAt(mem, arrivals, k).Some? ==>
      Walked(Buffer(mem, arrivals[..k + 1]), TakenAt(mem, arrivals, k).value) == Listed([], 1)
  {
    BufferBegins(mem, arrivals[..k]);
  }

  /** Such a failure: it follows the packet of an empty list, which is too small to be taken itself. */
  lemma EmptyListThenFailure(mem: seq<byte>)
    requires |mem| == MSG_LIST_MAX
    ensures TakenAt(mem, [Datagram(Encode([])), Fails], 0) == None
    ensures TakenAt(mem, [Datagram(Encode([])), Fails], 1) == Some(-1)
  {
    var arrivals := [Datagram(Encode([])), Fails];
    assert Received(Encode([])) == [LISTCHNID];
    assert arrivals[..1][..0] == [] && arrivals[..0] == [];
    FailureTakenIff(mem, arrivals, 1);
  }

  // ---------------------------------------------------------------- round trip

  lemma {:induction false} CStringFound(msg: seq<byte>, at: nat, desc: seq<byte>)
    requires ZeroFree(desc) && at + |desc| < |msg| && msg[at..at + |desc|] == desc && msg[at + |desc|] == 0
    ensures CString(msg, at) == Some(desc)
    decreases |desc|
  {
    if desc != [] {
      assert msg[at] == desc[0];
      assert msg[at + 1..at + |desc|] == desc[1..];
      CStringFound(msg, at + 1, desc[1..]);
    }
  }

  lemma {:induction false} CStringMissing(msg: seq<byte>, at: nat)
    requires forall i :: at <= i < |msg| ==> msg[i] != 0
    ensures CString(msg, at).None?
    decreases |msg| - at
  {
    if at < |msg| {
      CStringMissing(msg, at + 1);
    }
  }

  /** Sizes below 65536 survive the two conversions. */
  lemma SizeSurvives(n: nat)
    requires n < 65536
    ensures Ntohs(Htons(n)[0], Htons(n)[1]) == n
  {
  }

  lemma {:induction false} CStringStops(msg: seq<byte>, at: nat, end: nat)
    requires at <= end < |msg| && msg[end] == 0 && forall i :: at <= i < end ==> msg[i] != 0
    ensures CString(msg, at) == Some(msg[at..end])
  {
    assert ZeroFree(msg[at..end]);
    CStringFound(msg, at, msg[at..end]);
  }

  /** The walk at any position of any message, from the bytes alone.  It reads past the end if the head of an entry
      or the zero behind its description is missing; else, with the first such zero at `end`, it stays for ever if
      both bytes of the size are zero, and lists the entry and goes on by its size if not. */
  lemma WalkStep(msg: seq<byte>, pos: nat, end: nat)
    requires pos < |msg| && pos + 3 <= end && (forall i :: pos + 3 <= i < end && i < |msg| ==> msg[i] != 0)
    ensures end >= |msg| ==> WalkFrom(msg, pos) == Overrun
    ensures end < |msg| && msg[end] == 0 ==>
      WalkFrom(msg, pos) ==
      if msg[pos + 1] == msg[pos + 2] == 0 then Spins
      else Prepend(Entry(msg[pos], msg[pos + 3..end]), WalkFrom(msg, pos + 256 * (msg[pos + 1] as int) + msg[pos + 2]))
  {
    if end >= |msg| {
      if pos + 3 <= |msg| { CStringMissing(msg, pos + 3); }
    } else if msg[end] == 0 {
      CStringStops(msg, pos + 3, end);
    }
  }

  /** Where the parts of an entry lie in a message that holds it whole. */
  lemma EntryParts(msg: seq<byte>, pos: nat, e: Entry)
    requires pos + Size(e) <= |msg| && msg[pos..pos + Size(e)] == EncodeEntry(e)
    ensures msg[pos] == e.chnid && [msg[pos + 1], msg[pos + 2]] == Htons(Size(e))
    ensures msg[pos + 3..pos + 3 + |e.desc|] == e.desc && msg[pos + 3 + |e.desc|] == 0
  {
    var n := |e.desc|;
    assert forall i :: 0 <= i < Size(e) ==> msg[pos + i] == EncodeEntry(e)[i];
    assert EncodeEntry(e)[3..3 + n] == e.desc;
    assert msg[pos + 3..pos + 3 + n] == msg[pos..pos + Size(e)][3..3 + n];
  }

  /** One entry that lies whole in the message is read back, and the walk goes on right behind it. */
  lemma WalkEntry(msg: seq<byte>, pos: nat, e: Entry)
    requires ZeroFree(e.desc) && Size(e) < 65536
    requires pos + Size(e) <= |msg| && msg[pos..pos + Size(e)] == EncodeEntry(e)
    ensures WalkFrom(msg, pos) == Prepend(e, WalkFrom(msg, pos + Size(e)))
  {
    EntryParts(msg, pos, e);
    CStringFound(msg, pos + 3, e.desc);
    SizeSurvives(Size(e));
  }

  /** The entries lie one after the other in the message, up to its end. */
  ghost predicate LaidOut(msg: seq<byte>, pos: nat, l: seq<Entry>)
    decreases |l|
  {
    if l == [] then pos == |msg|
    else
      && pos + Size(l[0]) <= |msg| && msg[pos..pos + Size(l[0])] == EncodeEntry(l[0])
      && LaidOut(msg, pos + Size(l[0]), l[1..])
  }

  /** The message breaks off inside the entries. */
  ghost predicate BrokenOff(msg: seq<byte>, pos: nat, l: seq<Entry>)
    decreases |l|
  {
    && l != [] && pos <= |msg|
    && if pos + Size(l[0]) <= |msg|
       then msg[pos..pos + Size(l[0])] == EncodeEntry(l[0]) && BrokenOff(msg, pos + Size(l[0]), l[1..])
       else msg[pos..] < EncodeEntry(l[0])
  }

  lemma {:induction false} WholeIsLaidOut(msg: seq<byte>, pos: nat, l: seq<Entry>)
    requires pos <= |msg| && msg[pos..] == EncodeEntries(l)
    ensures LaidOut(msg, pos, l)
    decreases |l|
  {
    if l == [] {
      assert |msg[pos..]| == 0;
    } else {
      assert |msg[pos..]| == Size(l[0]) + |EncodeEntries(l[1..])|;
      WholeIsLaidOut(msg, pos + Size(l[0]), l[1..]);
    }
  }

  lemma {:induction false} CutIsBrokenOff(msg: seq<byte>, pos: nat, l: seq<Entry>)
    requires pos <= |msg| && msg[pos..] < EncodeEntries(l)
    ensures BrokenOff(msg, pos, l)
    decreases |l|
  {
    if pos + Size(l[0]) <= |msg| {
      CutIsBrokenOff(msg, pos + Size(l[0]), l[1..]);
    }
  }

  lemma {:induction false} WalkLaidOut(msg: seq<byte>, pos: nat, l: seq<Entry>)
    requires CStrings(l) && |msg| < 65536 && LaidOut(msg, pos, l)
    ensures WalkFrom(msg, pos) == Listed(l, |msg|)
    decreases |l|
  {
    if l != [] {
      WalkEntry(msg, pos, l[0]);
      WalkLaidOut(msg, pos + Size(l[0]), l[1..]);
      assert [l[0]] + l[1..] == l;
    }
  }

  /** The walk is not the whole list. */
  ghost predicate NotThe(l: seq<Entry>, w: Walk) { !(w.Listed? && w.entries == l) }

  lemma {:induction false} WalkBrokenOff(msg: seq<byte>, pos: nat, l: seq<Entry>)
    requires CStrings(l) && |msg| < 65536 && BrokenOff(msg, pos, l)
    ensures NotThe(l, WalkFrom(msg, pos))
    decreases |l|
  {
    if pos + Size(l[0]) <= |msg| {
      WalkBrokenOff(msg, pos + Size(l[0]), l[1..]);
      WalkPast(msg, pos, l);
    } else {
      CutInside(msg, pos, l[0]);
    }
  }

  lemma WalkPast(msg: seq<byte>, pos: nat, l: seq<Entry>)
    requires l != [] && ZeroFree(l[0].desc) && pos + Size(l[0]) <= |msg| < 65536
    requires msg[pos..pos + Size(l[0])] == EncodeEntry(l[0]) && NotThe(l[1..], WalkFrom(msg, pos + Size(l[0])))
    ensures NotThe(l, WalkFrom(msg, pos))
  {
    WalkEntry(msg, pos, l[0]);
  }

  /** A message that breaks off inside an entry ends the walk at once: with nothing more, or past its end. */
  lemma CutInside(msg: seq<byte>, pos: nat, e: Entry)
    requires ZeroFree(e.desc) && pos <= |msg| && msg[pos..] < EncodeEntry(e)
    ensures WalkFrom(msg, pos) == if pos == |msg| then Listed([], pos) else Overrun
  {
    if pos + 3 <= |msg| {
      forall i | pos + 3 <= i < |msg| ensures msg[i] != 0 {
        assert msg[i] == msg[pos..][i - pos] == EncodeEntry(e)[i - pos] == e.desc[i - pos - 3];
      }
      CStringMissing(msg, pos + 3);
    }
  }

  /** A message that ends with whole entries is walked to its very end. */
  lemma WalkWhole(msg: seq<byte>, pos: nat, l: seq<Entry>)
    requires CStrings(l) && pos <= |msg| < 65536 && msg[pos..] == EncodeEntries(l)
    ensures WalkFrom(msg, pos) == Listed(l, |msg|)
  {
    WholeIsLaidOut(msg, pos, l);
    WalkLaidOut(msg, pos, l);
  }

  /** A message cut short inside the entries is not read as the whole list. */
  lemma WalkCut(msg: seq<byte>, pos: nat, l: seq<Entry>)
    requires CStrings(l) && pos <= |msg| < 65536 && msg[pos..] < EncodeEntries(l)
    ensures NotThe(l, WalkFrom(msg, pos))
  {
    CutIsBrokenOff(msg, pos, l);
    WalkBrokenOff(msg, pos, l);
  }

  /** The client reads back exactly the list the server sent, and stops exactly at the end of the packet,
      if and only if the list is not empty and its packet fits into MSG_LIST_MAX bytes. */
  lemma RoundTripIff(l: seq<Entry>)
    requires CStrings(l)
    ensures Client(Encode(l)) == Some(Listed(l, |Encode(l)|)) <==> l != [] && |Encode(l)| <= MSG_LIST_MAX
  {
    var msg := Received(Encode(l));
    if l == [] {
      assert |msg| == 1;
    } else if |Encode(l)| <= MSG_LIST_MAX {
      assert msg == Encode(l);
      WalkWhole(msg, 1, l);
    } else {
      assert msg[1..] == EncodeEntries(l)[..MSG_LIST_MAX - 1];
      WalkCut(msg, 1, l);
    }
  }

  /** A packet of any other channel, whatever it carries, is never taken for the list. */
  lemma ChannelPacketsDropped(chnid: byte, data: seq<byte>)
    requires chnid != LISTCHNID
    ensures Client([chnid] + data) == None
  {
    assert Received([chnid] + data)[0] == chnid;
  }

  /** Different lists never share a packet. */
  lemma PacketsDiffer(l: seq<Entry>, m: seq<Entry>)
    requires CStrings(l) && CStrings(m) && |Encode(l)| <= MSG_LIST_MAX && Encode(l) == Encode(m)
    ensures l == m
  {
    WalkWhole(Encode(l), 1, l);
    WalkWhole(Encode(m), 1, m);
  }
}
