/** The receive path above the UCI parser: notifications, and the queue of received user data. */
module Uwb {
  import opened Bytes
  import opened Uci

  const GID_CORE: byte := 0
  const GID_APP: byte := 3
  const STATUS_NTF: byte := 1
  const DATA_TX_NTF: byte := 0
  const DATA_RX_NTF: byte := 1
  const DEVICE_STATE_READY: byte := 1

  datatype UwbsSta = BOOT | READY | ACTIVE | ERROR

  /** A packet the parser has reported. */
  datatype Packet = Packet(tag: Tag, payload: seq<byte>)

  /** `heard` records the notifications handled so far; the program keeps no such record. */
  datatype PathState = PathState(parser: Parser, sta: UwbsSta, rx: seq<byte>, transparent: seq<byte>, heard: seq<Packet>)

  /** The notification handler indexes the payload without looking at its length: it needs these bytes. */
  predicate Long(k: Packet) {
    && (k.tag.gid == GID_CORE && k.tag.oid == STATUS_NTF ==> |k.payload| >= 1)
    && (k.tag.gid == GID_APP && k.tag.oid == DATA_TX_NTF ==> |k.payload| >= 1)
    && (k.tag.gid == GID_APP && k.tag.oid == DATA_RX_NTF ==> |k.payload| >= 2)
  }

  /** The user data a notification carries: all but its two length bytes, which are only logged about. */
  function DataOf(k: Packet): seq<byte> {
    if k.tag.gid == GID_APP && k.tag.oid == DATA_RX_NTF && |k.payload| >= 2 then k.payload[2..] else []
  }

  predicate SaysReady(k: Packet) {
    k.tag.gid == GID_CORE && k.tag.oid == STATUS_NTF && |k.payload| >= 1 && k.payload[0] == DEVICE_STATE_READY
  }

  function Notify(u: PathState, k: Packet): PathState {
    u.(sta := if SaysReady(k) && u.sta == BOOT then READY else u.sta,
       transparent := u.transparent + DataOf(k),
       heard := u.heard + [k])
  }

  /** One byte taken from the receive queue. */
  function Absorb(u: PathState, b: byte): (r: PathState)
    requires u.parser.Valid()
    ensures r.parser.Valid() && r.rx == u.rx
  {
    var p := Feed(u.parser, b);
    var v := u.(parser := p);
    if p.Fires() && p.tag.mt == MT_NTF then Notify(v, Packet(p.tag, p.payload)) else v
  }

  function AbsorbAll(u: PathState, bs: seq<byte>): (r: PathState)
    requires u.parser.Valid()
    ensures r.parser.Valid() && r.rx == u.rx
    decreases |bs|
  {
    if bs == [] then u else AbsorbAll(Absorb(u, bs[0]), bs[1..])
  }

  /** No byte of the stream completes a notification too short for its handler. */
  ghost predicate Safe(p: Parser, bs: seq<byte>)
    requires p.Valid()
    decreases |bs|
  {
    bs != [] ==>
      var q := Feed(p, bs[0]);
      (q.Fires() && q.tag.mt == MT_NTF ==> Long(Packet(q.tag, q.payload))) && Safe(q, bs[1..])
  }

  /** How many bytes a wait for a response takes from the queue: up to the one that completes a response. */
  function Waited(p: Parser, bs: seq<byte>): (n: nat)
    requires p.Valid()
    ensures n <= |bs|
    decreases |bs|
  {
    if bs == [] then 0
    else var q := Feed(p, bs[0]);
         if q.Fires() && q.tag.mt == MT_RSP then 1 else 1 + Waited(q, bs[1..])
  }

  /** A response is completed by the last byte a wait takes. */
  predicate Answered(p: Parser, bs: seq<byte>)
    requires p.Valid()
    decreases |bs|
  {
    bs != [] && var q := Feed(p, bs[0]); (q.Fires() && q.tag.mt == MT_RSP) || Answered(q, bs[1..])
  }

  lemma {:induction false} AbsorbAppend(u: PathState, xs: seq<byte>, ys: seq<byte>)
    requires u.parser.Valid()
    ensures AbsorbAll(u, xs + ys) == AbsorbAll(AbsorbAll(u, xs), ys)
    decreases |xs|
  {
    if xs == [] {
      assert xs + ys == ys;
    } else {
      assert (xs + ys)[0] == xs[0] && (xs + ys)[1..] == xs[1..] + ys;
      AbsorbAppend(Absorb(u, xs[0]), xs[1..], ys);
    }
  }

  /** What is queued, and what is still to be parsed, does not change how bytes are absorbed. */
  lemma {:induction false} AbsorbFrames(u: PathState, front: seq<byte>, rx: seq<byte>, bs: seq<byte>)
    requires u.parser.Valid()
    ensures var a := AbsorbAll(u, bs);
            AbsorbAll(u.(transparent := front + u.transparent, rx := rx), bs)
            == a.(transparent := front + a.transparent, rx := rx)
    decreases |bs|
  {
    if bs != [] {
      var v := Absorb(u, bs[0]);
      var w := Absorb(u.(transparent := front + u.transparent, rx := rx), bs[0]);
      assert forall k: Packet :: front + u.transparent + DataOf(k) == front + (u.transparent + DataOf(k));
      assert w == v.(transparent := front + v.transparent, rx := rx);
      AbsorbFrames(v, front, rx, bs[1..]);
    }
  }

  lemma AbsorbRx(u: PathState, rx: seq<byte>, bs: seq<byte>)
    requires u.parser.Valid()
    ensures AbsorbAll(u.(rx := rx), bs) == AbsorbAll(u, bs).(rx := rx)
  {
    AbsorbFrames(u, [], rx, bs);
    assert [] + u.transparent == u.transparent;
    assert [] + AbsorbAll(u, bs).transparent == AbsorbAll(u, bs).transparent;
  }

  /** Absorb what is queued up to the first response. */
  function AwaitRsp(u: PathState): (PathState, bool)
    requires u.parser.Valid()
    decreases |u.rx|
  {
    if u.rx == [] then (u, false)
    else
      var q := Feed(u.parser, u.rx[0]);
      var r := Absorb(u.(rx := u.rx[1..]), u.rx[0]);
      if q.Fires() && q.tag.mt == MT_RSP then (r, true) else AwaitRsp(r)
  }

  lemma {:induction false} AwaitCuts(u: PathState)
    requires u.parser.Valid()
    ensures var n := Waited(u.parser, u.rx);
            AwaitRsp(u) == (AbsorbAll(u.(rx := u.rx[n..]), u.rx[..n]), Answered(u.parser, u.rx))
    decreases |u.rx|
  {
    if u.rx != [] {
      var n := Waited(u.parser, u.rx);
      var r := Absorb(u.(rx := u.rx[1..]), u.rx[0]);
      assert u.rx[..n][1..] == r.rx[..n - 1] && u.rx[n..] == r.rx[n - 1..];
      assert Absorb(u.(rx := u.rx[n..]), u.rx[0]) == r.(rx := u.rx[n..]);
      if n > 1 || !Answered(u.parser, u.rx) {
        AwaitCuts(r);
      }
    }
  }

  class UWB {
    const recvPacket: FlowParser
    var uwbsSta: UwbsSta
    var rxDataQueue: seq<byte>
    var transparentData: seq<byte>
    ghost var heard: seq<Packet>

    ghost function View(): PathState
      reads this, recvPacket
    {
      PathState(recvPacket.View(), uwbsSta, rxDataQueue, transparentData, heard)
    }

    constructor ()
      ensures fresh(recvPacket) && View() == PathState(FRESH, BOOT, [], [], [])
    {
      recvPacket := new FlowParser();
      uwbsSta, rxDataQueue, transparentData, heard := BOOT, [], [], [];
    }

    method NotifyProcess()
      requires Long(Packet(recvPacket.View().tag, recvPacket.View().payload))
      modifies this
      ensures View() == Notify(old(View()), Packet(old(recvPacket.View().tag), old(recvPacket.View().payload)))
    {
      var k := Packet(Tag(recvPacket.mt, recvPacket.gid, recvPacket.oid), recvPacket.totalPayload);
      heard := heard + [k];
      if recvPacket.gid == GID_CORE {
        if recvPacket.oid == STATUS_NTF {
          if recvPacket.totalPayload[0] == DEVICE_STATE_READY && uwbsSta == BOOT {
            uwbsSta := READY;
          }
        }
      }
      if recvPacket.gid == GID_APP {
        if recvPacket.oid == DATA_RX_NTF {
          var i := 2;
          while i < |recvPacket.totalPayload|
            invariant 2 <= i <= |recvPacket.totalPayload|
            invariant transparentData == old(transparentData) + recvPacket.totalPayload[2..i]
            invariant uwbsSta == old(uwbsSta) && heard == old(heard) + [k] && rxDataQueue == old(rxDataQueue)
          {
            transparentData := transparentData + [recvPacket.totalPayload[i]];
            i := i + 1;
          }
        }
      }
    }

    /** `update`: load what has arrived, then parse the whole queue. */
    method Update(arrived: seq<byte>)
      requires recvPacket.View().Valid() && Safe(recvPacket.View(), rxDataQueue + arrived)
      modifies this, recvPacket
      ensures View() == AbsorbAll(old(View()).(rx := []), old(rxDataQueue) + arrived)
    {
      rxDataQueue := rxDataQueue + arrived;
      ghost var all := rxDataQueue;
      ghost var n := 0;
      while rxDataQueue != []
        invariant n <= |all| && rxDataQueue == all[n..]
        invariant recvPacket.View().Valid() && Safe(recvPacket.View(), rxDataQueue)
        invariant AbsorbAll(View().(rx := []), rxDataQueue) == AbsorbAll(old(View()).(rx := []), all)
        decreases |rxDataQueue|
      {
        var data := rxDataQueue[0];
        rxDataQueue := rxDataQueue[1..];
        n := n + 1;
        var done := recvPacket.FlowParse(data);
        if done && recvPacket.mt == MT_NTF {
          NotifyProcess();
        }
      }
    }

    method GetRecvData(arrived: seq<byte>) returns (ok: bool, data: seq<byte>)
      requires recvPacket.View().Valid() && Safe(recvPacket.View(), rxDataQueue + arrived)
      modifies this, recvPacket
      ensures var u := AbsorbAll(old(View()).(rx := []), old(rxDataQueue) + arrived);
              && ok == (u.sta == READY && u.transparent != [])
              && View() == (if ok then u.(transparent := []) else u)
              && data == if ok then u.transparent else []
    {
      data := [];
      Update(arrived);
      if uwbsSta != READY || transparentData == [] {
        return false, [];
      }
      ghost var u := View();
      while transparentData != []
        invariant data + transparentData == u.transparent
        invariant recvPacket.View() == u.parser && uwbsSta == u.sta && rxDataQueue == u.rx && heard == u.heard
        decreases |transparentData|
      {
        data := data + [transparentData[0]];
        transparentData := transparentData[1..];
      }
      ok := true;
    }

    /** One poll inside the wait for a response: load, then parse up to a response. */
    method Await(arrived: seq<byte>) returns (ok: bool)
      requires recvPacket.View().Valid() && Safe(recvPacket.View(), rxDataQueue + arrived)
      modifies this, recvPacket
      ensures var all, n := old(rxDataQueue) + arrived, Waited(old(recvPacket.View()), old(rxDataQueue) + arrived);
              && View() == AbsorbAll(old(View()).(rx := all[n..]), all[..n])
              && ok == Answered(old(recvPacket.View()), all)
    {
      rxDataQueue := rxDataQueue + arrived;
      ghost var u := View();
      while rxDataQueue != []
        invariant recvPacket.View().Valid() && Safe(recvPacket.View(), rxDataQueue)
        invariant AwaitRsp(View()) == AwaitRsp(u)
        decreases |rxDataQueue|
      {
        var data := rxDataQueue[0];
        rxDataQueue := rxDataQueue[1..];
        var done := recvPacket.FlowParse(data);
        if done {
          if recvPacket.mt == MT_RSP {
            AwaitCuts(u);
            return true;
          } else if recvPacket.mt == MT_NTF {
            NotifyProcess();
          }
        }
      }
      AwaitCuts(u);
      ok := false;
    }

    /** `__rsp_process`: poll until a response, or until the arrivals within the timeout are used up. */
    method RspProcess(arrivals: seq<seq<byte>>) returns (ok: bool)
      requires recvPacket.View().Valid() && Safe(recvPacket.View(), rxDataQueue + Flat(arrivals))
      modifies this, recvPacket
      ensures View() == PollUntil(old(View()), arrivals).0 && ok == PollUntil(old(View()), arrivals).1
    {
      var i := 0;
      while i < |arrivals|
        invariant i <= |arrivals| && recvPacket.View().Valid()
        invariant Safe(recvPacket.View(), rxDataQueue + Flat(arrivals[i..]))
        invariant PollUntil(old(View()), arrivals) == PollUntil(View(), arrivals[i..])
      {
        assert Flat(arrivals[i..]) == arrivals[i] + Flat(arrivals[i + 1..]) by {
          assert arrivals[i..][1..] == arrivals[i + 1..];
        }
        PollSafe(View(), arrivals[i], Flat(arrivals[i + 1..]));
        var done := Await(arrivals[i]);
        assert arrivals[i..][1..] == arrivals[i + 1..];
        if done {
          return true;
        }
        i := i + 1;
      }
      ok := false;
    }
  }

  function Flat(chunks: seq<seq<byte>>): seq<byte> {
    if chunks == [] then [] else chunks[0] + Flat(chunks[1..])
  }

  function Polled(u: PathState, arrived: seq<byte>): PathState
    requires u.parser.Valid()
  {
    var all := u.rx + arrived;
    var n := Waited(u.parser, all);
    AbsorbAll(u.(rx := all[n..]), all[..n])
  }

  /** A poll leaves the rest of a safe stream safe. */
  lemma PollSafe(u: PathState, a: seq<byte>, later: seq<byte>)
    requires u.parser.Valid() && Safe(u.parser, u.rx + (a + later))
    ensures Safe(u.parser, u.rx + a) && Safe(Polled(u, a).parser, Polled(u, a).rx + later)
  {
    var all := u.rx + a;
    var n := Waited(u.parser, all);
    assert u.rx + (a + later) == all + later && all + later == all[..n] + (all[n..] + later);
    SafeAppend(u.parser, all, later);
    SafeAppend(u.parser, all[..n], all[n..] + later);
    ParserOfAbsorbAll(u.(rx := all[n..]), all[..n]);
  }

  function PollUntil(u: PathState, arrivals: seq<seq<byte>>): (PathState, bool)
    requires u.parser.Valid()
    decreases |arrivals|
  {
    if arrivals == [] then (u, false)
    else if Answered(u.parser, u.rx + arrivals[0]) then (Polled(u, arrivals[0]), true)
    else PollUntil(Polled(u, arrivals[0]), arrivals[1..])
  }

  lemma {:induction false} SafeAppend(p: Parser, xs: seq<byte>, ys: seq<byte>)
    requires p.Valid()
    ensures Safe(p, xs + ys) <==> Safe(p, xs) && Safe(FeedAll(p, xs), ys)
    decreases |xs|
  {
    if xs == [] {
      assert xs + ys == ys;
    } else {
      assert (xs + ys)[0] == xs[0] && (xs + ys)[1..] == xs[1..] + ys;
      SafeAppend(Feed(p, xs[0]), xs[1..], ys);
    }
  }

  lemma {:induction false} ParserOfAbsorbAll(u: PathState, bs: seq<byte>)
    requires u.parser.Valid()
    ensures AbsorbAll(u, bs).parser == FeedAll(u.parser, bs)
    decreases |bs|
  {
    if bs != [] {
      ParserOfAbsorbAll(Absorb(u, bs[0]), bs[1..]);
    }
  }

  // ---------- independence of how the stream is cut ----------

  /** A call of the receive path, with the bytes that have arrived since the last one. */
  datatype Op = Refresh(arrived: seq<byte>) | Take(arrived: seq<byte>) | Poll(arrived: seq<byte>)

  datatype World = World(u: PathState, delivered: seq<byte>)

  function Do(w: World, op: Op): (r: World)
    requires w.u.parser.Valid()
    ensures r.u.parser.Valid()
  {
    match op
    case Refresh(a) => w.(u := AbsorbAll(w.u.(rx := []), w.u.rx + a))
    case Take(a) =>
      var u := AbsorbAll(w.u.(rx := []), w.u.rx + a);
      if u.sta == READY then World(u.(transparent := []), w.delivered + u.transparent) else w.(u := u)
    case Poll(a) => w.(u := Polled(w.u, a))
  }

  function DoAll(w: World, ops: seq<Op>): (r: World)
    requires w.u.parser.Valid()
    ensures r.u.parser.Valid()
    decreases |ops|
  {
    if ops == [] then w else DoAll(Do(w, ops[0]), ops[1..])
  }

  function Arrived(ops: seq<Op>): seq<byte> {
    if ops == [] then [] else ops[0].arrived + Arrived(ops[1..])
  }

  /** Everything absorbed at once: what was queued, then the rest of the stream, nothing taken out. */
  function Whole(w: World, rest: seq<byte>): PathState
    requires w.u.parser.Valid()
  {
    AbsorbAll(w.u.(rx := [], transparent := w.delivered + w.u.transparent), w.u.rx + rest)
  }

  lemma RefreshKeepsWhole(w: World, a: seq<byte>, rest: seq<byte>)
    requires w.u.parser.Valid()
    ensures Whole(Do(w, Refresh(a)), rest) == Whole(w, a + rest)
  {
    var v := AbsorbAll(w.u.(rx := []), w.u.rx + a);
    AbsorbFrames(w.u.(rx := []), w.delivered, [], w.u.rx + a);
    assert (w.u.rx + a) + rest == w.u.rx + (a + rest) && v.rx + rest == rest;
    AbsorbAppend(w.u.(rx := [], transparent := w.delivered + w.u.transparent), w.u.rx + a, rest);
  }

  lemma PollKeepsWhole(w: World, a: seq<byte>, rest: seq<byte>)
    requires w.u.parser.Valid()
    ensures Whole(Do(w, Poll(a)), rest) == Whole(w, a + rest)
  {
    var all := w.u.rx + a;
    var n := Waited(w.u.parser, all);
    CutKeepsWhole(w, all[..n], all[n..], a, rest);
  }

  lemma CutKeepsWhole(w: World, front: seq<byte>, back: seq<byte>, a: seq<byte>, rest: seq<byte>)
    requires w.u.parser.Valid() && front + back == w.u.rx + a
    ensures Whole(World(AbsorbAll(w.u.(rx := back), front), w.delivered), rest) == Whole(w, a + rest)
  {
    AbsorbRx(w.u, back, front);
    AbsorbFrames(w.u, w.delivered, [], front);
    AbsorbAppend(w.u.(rx := [], transparent := w.delivered + w.u.transparent), front, back + rest);
    assert front + (back + rest) == (front + back) + rest && w.u.rx + (a + rest) == (w.u.rx + a) + rest;
  }

  lemma TakeKeepsWhole(w: World, a: seq<byte>, rest: seq<byte>)
    requires w.u.parser.Valid()
    ensures Whole(Do(w, Take(a)), rest) == Whole(w, a + rest)
  {
    RefreshKeepsWhole(w, a, rest);
    var r := Do(w, Refresh(a));
    assert w.delivered + r.u.transparent + [] == w.delivered + r.u.transparent;
  }

  lemma {:induction false} OpsKeepWhole(w: World, ops: seq<Op>, rest: seq<byte>)
    requires w.u.parser.Valid()
    ensures Whole(DoAll(w, ops), rest) == Whole(w, Arrived(ops) + rest)
    decreases |ops|
  {
    if ops == [] {
      assert Arrived(ops) + rest == rest;
    } else {
      var later := Arrived(ops[1..]) + rest;
      assert ops[0].arrived + later == Arrived(ops) + rest;
      match ops[0] {
        case Refresh(a) => RefreshKeepsWhole(w, a, later);
        case Take(a) => TakeKeepsWhole(w, a, later);
        case Poll(a) => PollKeepsWhole(w, a, later);
      }
      OpsKeepWhole(Do(w, ops[0]), ops[1..], rest);
    }
  }

  /** The rest of a safe stream stays safe: no later call meets a notification its handler cannot read. */
  lemma {:induction false} OpsKeepSafe(w: World, ops: seq<Op>, rest: seq<byte>)
    requires w.u.parser.Valid() && Safe(w.u.parser, w.u.rx + (Arrived(ops) + rest))
    ensures Safe(DoAll(w, ops).u.parser, DoAll(w, ops).u.rx + rest)
    decreases |ops|
  {
    if ops == [] {
      assert Arrived(ops) + rest == rest;
    } else {
      var a, later := ops[0].arrived, Arrived(ops[1..]) + rest;
      assert a + later == Arrived(ops) + rest;
      if ops[0].Poll? {
        PollSafe(w.u, a, later);
      } else {
        RefreshSafe(w.u, a, later);
      }
      OpsKeepSafe(Do(w, ops[0]), ops[1..], rest);
    }
  }

  lemma RefreshSafe(u: PathState, a: seq<byte>, later: seq<byte>)
    requires u.parser.Valid() && Safe(u.parser, u.rx + (a + later))
    ensures var v := AbsorbAll(u.(rx := []), u.rx + a);
            Safe(v.parser, later) && Safe(v.parser, v.rx + later)
  {
    assert u.rx + (a + later) == (u.rx + a) + later;
    SafeAppend(u.parser, u.rx + a, later);
    ParserOfAbsorbAll(u.(rx := []), u.rx + a);
    assert [] + later == later;
  }

  /** The polls of a wait for a response: all of them up to the one that finds it. */
  function Polls(u: PathState, arrivals: seq<seq<byte>>): seq<Op>
    requires u.parser.Valid()
    decreases |arrivals|
  {
    if arrivals == [] then []
    else [Poll(arrivals[0])]
         + if Answered(u.parser, u.rx + arrivals[0]) then [] else Polls(Polled(u, arrivals[0]), arrivals[1..])
  }

  /** So a whole wait is a run of polls, and takes no part in the delivery. */
  lemma {:induction false} WaitIsPolls(w: World, arrivals: seq<seq<byte>>)
    requires w.u.parser.Valid()
    ensures DoAll(w, Polls(w.u, arrivals)) == World(PollUntil(w.u, arrivals).0, w.delivered)
    decreases |arrivals|
  {
    if arrivals != [] {
      var r := Do(w, Poll(arrivals[0]));
      var more := if Answered(w.u.parser, w.u.rx + arrivals[0]) then [] else Polls(r.u, arrivals[1..]);
      assert ([Poll(arrivals[0])] + more)[1..] == more;
      if more != [] || !Answered(w.u.parser, w.u.rx + arrivals[0]) {
        WaitIsPolls(r, arrivals[1..]);
      }
    }
  }

  // ---------- streams of packets ----------

  /**
   What a chip sends, byte by byte: user data behind two length bytes, its device status, any other
   one-segment packet, or a stray byte that starts no packet.
   */
  datatype Item =
    | UserData(length: seq<byte>, data: seq<byte>)
    | Status(state: byte, more: seq<byte>)
    | Other(tag: Tag, payload: seq<byte>)
    | Stray(b: byte)
  {
    /** Any other packet: not user data, not a device status, and no transmission report without its status. */
    predicate Valid() {
      match this
      case UserData(length, data) => |length| == 2 && 2 + |data| < 0x1_0000
      case Status(_, more) => 1 + |more| < 0x1_0000
      case Other(tag, payload) =>
        && 1 <= tag.mt <= 3 && tag.gid < 0x10 && tag.oid < 0x40 && |payload| < 0x1_0000
        && tag != Tag(3, 3, 1) && tag != Tag(3, 0, 1) && (tag == Tag(3, 3, 0) ==> payload != [])
      case Stray(b) => b / 0x20 < 1 || b / 0x20 > 3
    }

    function Wire(): seq<byte>
      requires Valid()
    {
      match this
      case UserData(length, data) => [0x63, 0x01, (2 + |data|) / 0x100, (2 + |data|) % 0x100] + (length + data)
      case Status(state, more) => [0x60, 0x01, (1 + |more|) / 0x100, (1 + |more|) % 0x100] + ([state] + more)
      case Other(tag, payload) => [0x20 * tag.mt + tag.gid, tag.oid, |payload| / 0x100, |payload| % 0x100] + payload
      case Stray(b) => [b]
    }

    /** The packet it is, unless it is a stray byte. */
    function AsPacket(): Packet
      requires !Stray?
    {
      match this
      case UserData(length, data) => Packet(Tag(3, 3, 1), length + data)
      case Status(state, more) => Packet(Tag(3, 0, 1), [state] + more)
      case Other(tag, payload) => Packet(tag, payload)
    }

    predicate Notifies() { UserData? || Status? || (Other? && tag.mt == 3) }

    predicate Responds() { Other? && tag.mt == 2 }

    predicate Ready() { Status? && state == 1 }

    function User(): seq<byte> { if UserData? then data else [] }
  }

  ghost predicate AllValid(items: seq<Item>) {
    forall i :: 0 <= i < |items| ==> items[i].Valid()
  }

  function Wires(items: seq<Item>): seq<byte>
    requires AllValid(items)
  {
    if items == [] then [] else items[0].Wire() + Wires(items[1..])
  }

  function Notifications(items: seq<Item>): seq<Packet> {
    if items == [] then []
    else (if items[0].Notifies() then [items[0].AsPacket()] else []) + Notifications(items[1..])
  }

  /** The user data that is sent, in order. */
  function Sent(items: seq<Item>): seq<byte> {
    if items == [] then [] else items[0].User() + Sent(items[1..])
  }

  predicate SomeReady(items: seq<Item>) { items != [] && (items[0].Ready() || SomeReady(items[1..])) }

  predicate SomeResponds(items: seq<Item>) { items != [] && (items[0].Responds() || SomeResponds(items[1..])) }

  /** Bytes that report nothing only move the parser. */
  lemma {:induction false} QuietBytes(u: PathState, bs: seq<byte>)
    requires u.parser.Valid() && Firings(u.parser, bs) == 0
    ensures AbsorbAll(u, bs) == u.(parser := FeedAll(u.parser, bs)) && Safe(u.parser, bs) && !Answered(u.parser, bs)
    decreases |bs|
  {
    if bs != [] {
      QuietBytes(Absorb(u, bs[0]), bs[1..]);
    }
  }

  ghost predicate Between(u: PathState) {
    u.parser.Valid() && u.parser.sta.ParseStart?
  }

  function Hears(u: PathState, k: Packet): PathState {
    if k.tag.mt == MT_NTF then Notify(u, k) else u
  }

  /** The bytes are heard as the packet, a response ends a wait with its last byte, and the parser is between packets. */
  ghost predicate HeardAs(u: PathState, bs: seq<byte>, k: Packet)
    requires Between(u)
  {
    var v := AbsorbAll(u, bs);
    && Between(v) && v == Hears(u, k).(parser := v.parser) && Safe(u.parser, bs)
    && (Answered(u.parser, bs) <==> k.tag.mt == MT_RSP) && Waited(u.parser, bs) == |bs|
  }

  lemma {:induction false} AnsweredAppend(p: Parser, xs: seq<byte>, ys: seq<byte>)
    requires p.Valid()
    ensures Answered(p, xs + ys) <==> Answered(p, xs) || Answered(FeedAll(p, xs), ys)
    ensures Waited(p, xs + ys) == if Answered(p, xs) then Waited(p, xs) else |xs| + Waited(FeedAll(p, xs), ys)
    decreases |xs|
  {
    if xs == [] {
      assert xs + ys == ys;
    } else {
      assert (xs + ys)[0] == xs[0] && (xs + ys)[1..] == xs[1..] + ys;
      AnsweredAppend(Feed(p, xs[0]), xs[1..], ys);
    }
  }

  lemma AbsorbSegment(u: PathState, k: Packet, seg: seq<byte>)
    requires Between(u) && k.tag.Valid() && (k.tag.mt == MT_NTF ==> Long(k))
    requires IsSegment(seg, k.tag, false, k.payload)
    ensures HeardAs(u, seg, k)
  {
    var front, last := seg[..|seg| - 1], seg[|seg| - 1];
    assert seg == front + [last];
    FeedSegment(u.parser, seg, k.tag, false, k.payload);
    FeedAllAppend(u.parser, front, [last]);
    FeedCons(FeedAll(u.parser, front), last, []);
    assert [last] + [] == [last];
    assert [] + k.payload == k.payload;
    LastByte(u, k, front, last);
  }

  lemma LastByte(u: PathState, k: Packet, front: seq<byte>, last: byte)
    requires Between(u) && (k.tag.mt == MT_NTF ==> Long(k)) && Firings(u.parser, front) == 0
    requires var q := Feed(FeedAll(u.parser, front), last);
             q.sta.ParseStart? && q.Fires() && q.tag == k.tag && q.payload == k.payload
    ensures HeardAs(u, front + [last], k)
  {
    var v := u.(parser := FeedAll(u.parser, front));
    QuietBytes(u, front);
    AbsorbAppend(u, front, [last]);
    SafeAppend(u.parser, front, [last]);
    AnsweredAppend(u.parser, front, [last]);
    assert AbsorbAll(v, [last]) == Absorb(v, last);
    assert [last][1..] == [];
  }

  lemma HeaderIsWire(tag: Tag, n: word)
    requires tag.Valid()
    ensures Header(tag, false, n) == [0x20 * tag.mt + tag.gid, tag.oid, n / 0x100, n % 0x100]
  {
  }

  lemma WireIs(tag: Tag, payload: seq<byte>, head: seq<byte>, n: word)
    requires tag.Valid() && n as int == |payload|
    requires head == [0x20 * tag.mt + tag.gid, tag.oid, n / 0x100, n % 0x100]
    ensures IsSegment(head + payload, tag, false, payload)
  {
    HeaderIsWire(tag, n);
    HeaderHeads(tag, false, n);
    JoinIsSegment(head, tag, false, payload);
  }

  lemma ItemIsSegment(item: Item)
    requires item.Valid() && !item.Stray?
    ensures var k := item.AsPacket();
            k.tag.Valid() && (k.tag.mt == MT_NTF ==> Long(k)) && IsSegment(item.Wire(), k.tag, false, k.payload)
  {
    match item
    case UserData(length, data) =>
      WireIs(Tag(3, 3, 1), length + data, [0x63, 0x01, (2 + |data|) / 0x100, (2 + |data|) % 0x100], 2 + |data|);
    case Status(state, more) =>
      WireIs(Tag(3, 0, 1), [state] + more, [0x60, 0x01, (1 + |more|) / 0x100, (1 + |more|) % 0x100], 1 + |more|);
    case Other(tag, payload) =>
      WireIs(tag, payload, [0x20 * tag.mt + tag.gid, tag.oid, |payload| / 0x100, |payload| % 0x100], |payload|);
  }

  /** The bytes of an item are heard as the item. */
  ghost predicate ItemHeard(u: PathState, bs: seq<byte>, item: Item)
    requires Between(u)
  {
    var v := AbsorbAll(u, bs);
    && Between(v) && Safe(u.parser, bs) && Waited(u.parser, bs) == |bs| && (Answered(u.parser, bs) <==> item.Responds())
    && v.heard == u.heard + (if item.Notifies() then [item.AsPacket()] else [])
    && v.transparent == u.transparent + item.User()
    && v.sta == if u.sta == BOOT && item.Ready() then READY else u.sta
  }

  lemma AbsorbItem(u: PathState, item: Item)
    requires Between(u) && item.Valid()
    ensures ItemHeard(u, item.Wire(), item)
  {
    if item.Stray? {
      assert AbsorbAll(u, [item.b]) == Absorb(u, item.b) && [item.b][1..] == [];
      assert u.heard + [] == u.heard && u.transparent + [] == u.transparent;
    } else {
      ItemIsSegment(item);
      AbsorbSegment(u, item.AsPacket(), item.Wire());
      PacketHeard(u, item.Wire(), item);
    }
  }

  lemma PacketHeard(u: PathState, bs: seq<byte>, item: Item)
    requires Between(u) && item.Valid() && !item.Stray? && HeardAs(u, bs, item.AsPacket())
    ensures ItemHeard(u, bs, item)
  {
    assert u.heard + [] == u.heard && u.transparent + [] == u.transparent;
    match item
    case UserData(length, data) => assert (length + data)[2..] == data;
    case Status(state, more) =>
    case Other(_, _) =>
  }

  /** What some items do to the path. */
  ghost predicate Did(u: PathState, v: PathState, items: seq<Item>) {
    && v.heard == u.heard + Notifications(items) && v.transparent == u.transparent + Sent(items)
    && v.sta == if u.sta == BOOT && SomeReady(items) then READY else u.sta
  }

  /** Their bytes do it, leave the parser between packets, and end a wait if there is a response among them. */
  ghost predicate AllHeard(u: PathState, bs: seq<byte>, items: seq<Item>)
    requires Between(u)
  {
    && Between(AbsorbAll(u, bs)) && Did(u, AbsorbAll(u, bs), items)
    && Safe(u.parser, bs) && (Answered(u.parser, bs) <==> SomeResponds(items))
  }

  lemma SafeAbsorb(u: PathState, xs: seq<byte>, ys: seq<byte>)
    requires u.parser.Valid() && Safe(u.parser, xs) && Safe(AbsorbAll(u, xs).parser, ys)
    ensures Safe(u.parser, xs + ys)
  {
    ParserOfAbsorbAll(u, xs);
    SafeAppend(u.parser, xs, ys);
  }

  lemma DidMore(u: PathState, v: PathState, w: PathState, items: seq<Item>)
    requires items != [] && Did(v, w, items[1..])
    requires v.heard == u.heard + (if items[0].Notifies() then [items[0].AsPacket()] else [])
    requires v.transparent == u.transparent + items[0].User()
    requires v.sta == if u.sta == BOOT && items[0].Ready() then READY else u.sta
    ensures Did(u, w, items)
  {
    var first, now := items[0], if items[0].Notifies() then [items[0].AsPacket()] else [];
    assert u.heard + now + Notifications(items[1..]) == u.heard + (now + Notifications(items[1..]));
    assert u.transparent + first.User() + Sent(items[1..]) == u.transparent + (first.User() + Sent(items[1..]));
  }

  lemma HeardMore(u: PathState, head: seq<byte>, items: seq<Item>, tail: seq<byte>, v: PathState)
    requires items != [] && Between(u) && ItemHeard(u, head, items[0]) && v == AbsorbAll(u, head)
    requires AllHeard(v, tail, items[1..])
    ensures AllHeard(u, head + tail, items)
  {
    DidMore(u, v, AbsorbAll(v, tail), items);
    AbsorbAppend(u, head, tail);
    SafeAbsorb(u, head, tail);
    AnsweredMore(u, head, tail);
  }

  lemma AnsweredMore(u: PathState, head: seq<byte>, tail: seq<byte>)
    requires u.parser.Valid()
    ensures Answered(u.parser, head + tail) <==> Answered(u.parser, head) || Answered(AbsorbAll(u, head).parser, tail)
  {
    AnsweredAppend(u.parser, head, tail);
    ParserOfAbsorbAll(u, head);
  }

  lemma {:induction false} AbsorbItems(u: PathState, items: seq<Item>)
    requires Between(u) && AllValid(items)
    ensures AllHeard(u, Wires(items), items)
    decreases |items|
  {
    if items == [] {
      assert u.heard + [] == u.heard && u.transparent + [] == u.transparent;
    } else {
      AbsorbItem(u, items[0]);
      AbsorbItems(AbsorbAll(u, items[0].Wire()), items[1..]);
      HeardMore(u, items[0].Wire(), items, Wires(items[1..]), AbsorbAll(u, items[0].Wire()));
    }
  }

  /** A wait takes the stream up to the last byte of the first response, whatever comes after it. */
  lemma WaitEndsAtResponse(u: PathState, before: seq<Item>, response: Item, later: seq<byte>)
    requires Between(u) && AllValid(before) && !SomeResponds(before) && response.Valid() && response.Responds()
    ensures var bs := Wires(before) + (response.Wire() + later);
            Answered(u.parser, bs) && Waited(u.parser, bs) == |Wires(before)| + |response.Wire()|
  {
    AbsorbItems(u, before);
    ParserOfAbsorbAll(u, Wires(before));
    AnsweredAppend(u.parser, Wires(before), response.Wire() + later);
    var v := AbsorbAll(u, Wires(before));
    AbsorbItem(v, response);
    AnsweredAppend(v.parser, response.Wire(), later);
  }

  /**
   The receive path loses, repeats and reorders nothing, however the stream is cut over its calls:
   once the rest of the stream is in, what callers were given, followed by what is still queued,
   is the user data that was sent, in order, and every notification has been handled once.
   */
  lemma Lossless(u: PathState, ops: seq<Op>, rest: seq<byte>, items: seq<Item>)
    requires Between(u) && u.rx == [] && u.transparent == [] && u.heard == []
    requires AllValid(items) && Arrived(ops) + rest == Wires(items)
    ensures var w := DoAll(World(u, []), ops);
            var end := Whole(w, rest);
            && Safe(w.u.parser, w.u.rx + rest)
            && end.heard == Notifications(items)
            && end.transparent == Sent(items)
            && end.sta == (if u.sta == BOOT && SomeReady(items) then READY else u.sta)
            && w.delivered + w.u.transparent <= Sent(items)
            && (rest == [] && w.u.rx == [] ==> w.delivered + w.u.transparent == Sent(items))
  {
    var w0 := World(u, []);
    WholeStream(u, items);
    OpsKeepWhole(w0, ops, rest);
    OpsKeepSafe(w0, ops, rest);
    DeliveredIsPrefix(DoAll(w0, ops), rest);
  }

  lemma WholeStream(u: PathState, items: seq<Item>)
    requires Between(u) && u.rx == [] && u.transparent == [] && u.heard == [] && AllValid(items)
    ensures var end := Whole(World(u, []), Wires(items));
            && end.heard == Notifications(items) && end.transparent == Sent(items)
            && end.sta == if u.sta == BOOT && SomeReady(items) then READY else u.sta
    ensures Safe(u.parser, u.rx + Wires(items))
  {
    AbsorbItems(u, items);
    assert [] + u.transparent == u.transparent && u.rx + Wires(items) == Wires(items);
    assert [] + Sent(items) == Sent(items) && [] + Notifications(items) == Notifications(items);
  }

  lemma DeliveredIsPrefix(w: World, rest: seq<byte>)
    requires w.u.parser.Valid()
    ensures w.delivered + w.u.transparent <= Whole(w, rest).transparent
    ensures rest == [] && w.u.rx == [] ==> w.delivered + w.u.transparent == Whole(w, rest).transparent
  {
    TransparentGrows(w.u.(rx := [], transparent := w.delivered + w.u.transparent), w.u.rx + rest);
  }

  lemma {:induction false} TransparentGrows(u: PathState, bs: seq<byte>)
    requires u.parser.Valid()
    ensures u.transparent <= AbsorbAll(u, bs).transparent
    decreases |bs|
  {
    if bs != [] {
      TransparentGrows(Absorb(u, bs[0]), bs[1..]);
    }
  }

  /** A read made when everything has arrived, by a device that is ready, completes the delivery. */
  lemma LastReadDelivers(u: PathState, ops: seq<Op>, a: seq<byte>, items: seq<Item>)
    requires Between(u) && u.sta == READY && u.rx == [] && u.transparent == [] && u.heard == []
    requires AllValid(items) && Arrived(ops) + a == Wires(items)
    ensures var w := Do(DoAll(World(u, []), ops), Take(a));
            w.delivered == Sent(items) && w.u.transparent == [] && w.u.rx == []
  {
    Lossless(u, ops, a, items);
    var w := DoAll(World(u, []), ops);
    TakeKeepsWhole(w, a, []);
    assert a + [] == a;
    StaysReadyAll(World(u, []), ops);
    StaysReady(w.u.(rx := []), w.u.rx + a);
    var r := Do(w, Take(a));
    assert r.u.rx + [] == [];
    assert r.delivered + r.u.transparent == r.delivered;
  }

  lemma {:induction false} StaysReady(u: PathState, bs: seq<byte>)
    requires u.parser.Valid() && u.sta == READY
    ensures AbsorbAll(u, bs).sta == READY
    decreases |bs|
  {
    if bs != [] {
      StaysReady(Absorb(u, bs[0]), bs[1..]);
    }
  }

  lemma {:induction false} StaysReadyAll(w: World, ops: seq<Op>)
    requires w.u.parser.Valid() && w.u.sta == READY
    ensures DoAll(w, ops).u.sta == READY
    decreases |ops|
  {
    if ops != [] {
      var all := w.u.rx + ops[0].arrived;
      StaysReady(w.u.(rx := []), all);
      StaysReady(w.u.(rx := all[Waited(w.u.parser, all)..]), all[..Waited(w.u.parser, all)]);
      StaysReadyAll(Do(w, ops[0]), ops[1..]);
    }
  }

  lemma {:induction false} DeliveredMeansReady(w: World, ops: seq<Op>)
    requires w.u.parser.Valid() && (w.delivered != [] ==> w.u.sta == READY)
    ensures DoAll(w, ops).delivered != [] ==> DoAll(w, ops).u.sta == READY
    decreases |ops|
  {
    if ops != [] {
      if w.u.sta == READY {
        StaysReadyAll(w, [ops[0]]);
        assert DoAll(w, [ops[0]]) == Do(w, ops[0]) by {
          assert [ops[0]][1..] == [];
        }
      }
      DeliveredMeansReady(Do(w, ops[0]), ops[1..]);
    }
  }

  /** A device that boots hands out nothing before it has reported that it is ready. */
  lemma NothingBeforeReady(u: PathState, ops: seq<Op>, rest: seq<byte>, items: seq<Item>)
    requires Between(u) && u.sta == BOOT && u.rx == [] && u.transparent == [] && u.heard == []
    requires AllValid(items) && !SomeReady(items) && Arrived(ops) + rest == Wires(items)
    ensures DoAll(World(u, []), ops).delivered == []
  {
    Lossless(u, ops, rest, items);
    DeliveredMeansReady(World(u, []), ops);
    var w := DoAll(World(u, []), ops);
    if w.u.sta == READY {
      StaysReady(w.u.(rx := [], transparent := w.delivered + w.u.transparent), w.u.rx + rest);
    }
  }
}
