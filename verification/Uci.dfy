/**
 UCI control packets: cutting a payload into segments of at most 1024 bytes, and putting it
 together again one received byte at a time.
 */
module Uci {
  import opened Bytes

  const HDR_SIZE := 4
  const MAX_PAYLOAD_LEN := 1024

  const MT_CMD: byte := 1
  const MT_RSP: byte := 2
  const MT_NTF: byte := 3

  predicate ValidMt(mt: int) { mt == MT_CMD || mt == MT_RSP || mt == MT_NTF }

  /** What a packet says about its message. */
  datatype Tag = Tag(mt: byte, gid: byte, oid: byte) {
    predicate Valid() { ValidMt(mt) && gid < 0x10 && oid < 0x40 }
  }

  // ---------- segmentation ----------

  /** The four header bytes; each field is masked to its width. */
  function Header(tag: Tag, more: bool, len: word): seq<byte> {
    [tag.mt % 8 * 0x20 + (if more then 0x10 else 0) + tag.gid % 0x10, tag.oid % 0x40, Hi(len), Lo(len)]
  }

  function SegmentLen(total: nat, offset: nat): word
    requires offset <= total
  {
    if total - offset > MAX_PAYLOAD_LEN then MAX_PAYLOAD_LEN else total - offset
  }

  predicate IsLast(total: nat, offset: nat)
    requires offset <= total
  {
    total - offset <= MAX_PAYLOAD_LEN
  }

  function Segment(tag: Tag, payload: seq<byte>, offset: nat): seq<byte>
    requires offset <= |payload|
  {
    var n := SegmentLen(|payload|, offset);
    Header(tag, !IsLast(|payload|, offset), n) + payload[offset..offset + n]
  }

  /** The offset kept for the next call: a 16-bit counter, cleared after the last segment. */
  function NextOffset(total: nat, offset: word): word
    requires offset <= total
  {
    if IsLast(total, offset) then 0 else (offset + MAX_PAYLOAD_LEN) % 0x1_0000
  }

  class PacketBuilder {
    var mt: byte
    var gid: byte
    var oid: byte
    var packet: seq<byte>
    var payloadOffset: word
    var sending: bool

    constructor (tag: Tag)
      ensures mt == tag.mt && gid == tag.gid && oid == tag.oid && payloadOffset == 0 && !sending && packet == []
    {
      mt, gid, oid, packet, payloadOffset, sending := tag.mt, tag.gid, tag.oid, [], 0, false;
    }

    method BuildPacket(totalPayload: seq<byte>) returns (last: bool)
      requires payloadOffset <= |totalPayload|
      modifies this
      ensures mt == old(mt) && gid == old(gid) && oid == old(oid)
      ensures last == IsLast(|totalPayload|, old(payloadOffset)) && sending == !last
      ensures packet == Segment(Tag(mt, gid, oid), totalPayload, old(payloadOffset))
      ensures payloadOffset == NextOffset(|totalPayload|, old(payloadOffset))
    {
      var residual := |totalPayload| - payloadOffset;
      sending := true;
      var len: word;
      if residual > MAX_PAYLOAD_LEN {
        len, last := MAX_PAYLOAD_LEN, false;
      } else {
        len, last := residual, true;
      }
      packet := Header(Tag(mt, gid, oid), !last, len);
      if len > 0 {
        packet := packet + totalPayload[payloadOffset..payloadOffset + len];
      }
      payloadOffset := (payloadOffset + len) % 0x1_0000;
      if last {
        payloadOffset := 0;
        sending := false;
      }
    }
  }

  /** The offset at which the `k`th call of `BuildPacket` on the same payload starts. */
  function Offset(total: nat, k: nat): (o: word)
    ensures o <= total
  {
    if k == 0 then 0 else NextOffset(total, Offset(total, k - 1))
  }

  /** The `k`th packet built from a payload, and all of the first `k`. */
  function Packets(tag: Tag, payload: seq<byte>, k: nat): seq<byte> {
    if k == 0 then [] else Packets(tag, payload, k - 1) + Segment(tag, payload, Offset(|payload|, k - 1))
  }

  /** The number of segments a payload needs; a payload of no bytes needs one. */
  function Segments(total: nat): nat {
    if total == 0 then 1 else (total + MAX_PAYLOAD_LEN - 1) / MAX_PAYLOAD_LEN
  }

  /** Up to 65536 bytes the offset never wraps: every segment but the last is full, and the last resets it. */
  lemma {:induction false} OffsetAt(total: nat, k: nat)
    requires total <= 0x1_0000
    ensures k < Segments(total) ==> Offset(total, k) == MAX_PAYLOAD_LEN * k <= total
    ensures k < Segments(total) ==> (IsLast(total, Offset(total, k)) <==> k == Segments(total) - 1)
    ensures k < Segments(total) - 1 ==> SegmentLen(total, Offset(total, k)) == MAX_PAYLOAD_LEN
    ensures k == Segments(total) ==> Offset(total, k) == 0
  {
    if k > 0 {
      OffsetAt(total, k - 1);
    }
  }

  lemma {:induction false} OffsetCycles(total: nat, k: nat)
    requires total > 0x1_0000
    ensures Offset(total, k) == MAX_PAYLOAD_LEN * (k % 64) && !IsLast(total, Offset(total, k))
  {
    if k > 0 {
      OffsetCycles(total, k - 1);
      var j := (k - 1) % 64;
      assert k % 64 == if j == 63 then 0 else j + 1;
      WrapsAt(j);
    }
  }

  lemma WrapsAt(j: nat)
    requires j < 64
    ensures (MAX_PAYLOAD_LEN * j + MAX_PAYLOAD_LEN) % 0x1_0000 == if j == 63 then 0 else MAX_PAYLOAD_LEN * (j + 1)
  {
  }

  /** Sending ends exactly for payloads of at most 65536 bytes: a longer one is repeated for ever. */
  lemma SendingEnds(total: nat)
    ensures (exists k: nat :: IsLast(total, Offset(total, k))) <==> total <= 0x1_0000
  {
    if total <= 0x1_0000 {
      OffsetAt(total, Segments(total) - 1);
      assert IsLast(total, Offset(total, Segments(total) - 1));
    } else {
      forall k: nat ensures !IsLast(total, Offset(total, k)) {
        OffsetCycles(total, k);
      }
    }
  }

  // ---------- reassembly ----------

  datatype Sta = ParseStart | MtPbfGid | Oid | Rfu | PayloadLen | PayloadBytes

  /** The parser's fields, with the payload vector its caller keeps for it. */
  datatype Parser = Parser(sta: Sta, tag: Tag, len: word, isLast: bool, received: word, recvPacket: bool,
                           payload: seq<byte>)
  {
    /** `len` is built with `|=`: the bits a byte is put into are clear. */
    ghost predicate Valid() {
      && (sta.Rfu? ==> len == 0)
      && (sta.PayloadLen? ==> len % 0x100 == 0)
      && (sta.PayloadBytes? ==> received < len)
    }

    /** What `flow_parse` returns after a byte. */
    predicate Fires() { isLast && recvPacket }
  }

  const FRESH := Parser(ParseStart, Tag(0, 0, 0), 0, true, 0, false, [])

  /** The effect of one byte. */
  function Feed(p: Parser, b: byte): (r: Parser)
    requires p.Valid()
    ensures r.Valid()
  {
    match p.sta
    case ParseStart => First(p.(recvPacket := false, payload := []), b)
    case MtPbfGid => First(p, b)
    case Oid => p.(tag := p.tag.(oid := b % 0x40), len := 0, sta := Rfu)
    case Rfu => p.(len := Word(0, b), sta := PayloadLen)
    case PayloadLen =>
      var n := p.len + b;
      if n > 0 then p.(len := n, received := 0, sta := PayloadBytes)
      else p.(len := 0, received := 0, sta := ParseStart, recvPacket := true)
    case PayloadBytes =>
      var q := p.(payload := p.payload + [b], received := p.received + 1);
      if q.received == q.len then q.(recvPacket := true, sta := if q.isLast then ParseStart else MtPbfGid) else q
  }

  /** The first header byte. */
  function First(p: Parser, b: byte): Parser {
    var q := p.(tag := p.tag.(mt := b / 0x20, gid := b % 0x10));
    if ValidMt(b / 0x20) then q.(isLast := b / 0x10 % 2 == 0, sta := Oid) else q.(sta := ParseStart)
  }

  class FlowParser {
    var sta: Sta
    var mt: byte
    var gid: byte
    var oid: byte
    var len: word
    var isLast: bool
    var received: word
    var recvPacket: bool
    var totalPayload: seq<byte>

    ghost function View(): Parser
      reads this
    {
      Parser(sta, Tag(mt, gid, oid), len, isLast, received, recvPacket, totalPayload)
    }

    constructor ()
      ensures View() == FRESH
    {
      sta, mt, gid, oid := ParseStart, 0, 0, 0;
      len, isLast, received, recvPacket, totalPayload := 0, true, 0, false, [];
    }

    method FlowParse(data: byte) returns (done: bool)
      requires View().Valid()
      modifies this
      ensures View() == Feed(old(View()), data)
      ensures done == View().Fires()
    {
      if sta == ParseStart {
        recvPacket := false;
        totalPayload := [];
        sta := MtPbfGid;
      }
      match sta {
      case MtPbfGid =>
        mt := data / 0x20;
        gid := data % 0x10;
        if mt != MT_CMD && mt != MT_RSP && mt != MT_NTF {
          sta := ParseStart;
        } else {
          isLast := data / 0x10 % 2 == 0;
          sta := Oid;
        }
      case Oid =>
        oid := data % 0x40;
        len := 0;
        sta := Rfu;
      case Rfu =>
        len := len + 0x100 * data as int;
        sta := PayloadLen;
      case PayloadLen =>
        len := len + data;
        received := 0;
        if len > 0 {
          sta := PayloadBytes;
        } else {
          recvPacket := true;
          sta := ParseStart;
        }
      case PayloadBytes =>
        totalPayload := totalPayload + [data];
        received := received + 1;
        if received == len {
          recvPacket := true;
          sta := if isLast then ParseStart else MtPbfGid;
        }
      case ParseStart =>
      }
      return isLast && recvPacket;
    }
  }

  function FeedAll(p: Parser, bs: seq<byte>): (r: Parser)
    requires p.Valid()
    ensures r.Valid()
    decreases |bs|
  {
    if bs == [] then p else FeedAll(Feed(p, bs[0]), bs[1..])
  }

  /** How many of the bytes make `flow_parse` return true. */
  function Firings(p: Parser, bs: seq<byte>): nat
    requires p.Valid()
    decreases |bs|
  {
    if bs == [] then 0
    else (if Feed(p, bs[0]).Fires() then 1 else 0) + Firings(Feed(p, bs[0]), bs[1..])
  }

  lemma {:induction false} FeedAllAppend(p: Parser, xs: seq<byte>, ys: seq<byte>)
    requires p.Valid()
    ensures FeedAll(p, xs + ys) == FeedAll(FeedAll(p, xs), ys)
    ensures Firings(p, xs + ys) == Firings(p, xs) + Firings(FeedAll(p, xs), ys)
    decreases |xs|
  {
    if xs == [] {
      assert xs + ys == ys;
    } else {
      assert (xs + ys)[0] == xs[0] && (xs + ys)[1..] == xs[1..] + ys;
      FeedAllAppend(Feed(p, xs[0]), xs[1..], ys);
    }
  }

  /** The parser after the header of a segment of `len` bytes. */
  function Headed(p: Parser, tag: Tag, more: bool, len: word): Parser {
    var q := if p.sta.ParseStart? then p.(recvPacket := false, payload := []) else p;
    var h := q.(tag := tag, isLast := !more, len := len, received := 0);
    if len > 0 then h.(sta := PayloadBytes) else h.(sta := ParseStart, recvPacket := true)
  }

  /** The bytes of a header say what it was built from. */
  ghost predicate Heads(h: seq<byte>, tag: Tag, more: bool, len: word) {
    && |h| == HDR_SIZE
    && h[0] / 0x20 == tag.mt && h[0] % 0x10 == tag.gid && (h[0] / 0x10 % 2 == 0 <==> !more)
    && h[1] % 0x40 == tag.oid && Word(h[3], h[2]) == len
  }

  lemma HeaderHeads(tag: Tag, more: bool, len: word)
    requires tag.Valid()
    ensures Heads(Header(tag, more, len), tag, more, len)
  {
  }

  lemma FeedCons(p: Parser, b: byte, bs: seq<byte>)
    requires p.Valid()
    ensures FeedAll(p, [b] + bs) == FeedAll(Feed(p, b), bs)
    ensures Firings(p, [b] + bs) == (if Feed(p, b).Fires() then 1 else 0) + Firings(Feed(p, b), bs)
  {
    assert ([b] + bs)[1..] == bs;
  }

  lemma FeedFour(p: Parser, h: seq<byte>)
    requires p.Valid() && |h| == HDR_SIZE
    ensures var p1 := Feed(p, h[0]);
            var p2 := Feed(p1, h[1]);
            var p3 := Feed(p2, h[2]);
            var p4 := Feed(p3, h[3]);
            && FeedAll(p, h) == p4
            && Firings(p, h) == (if p1.Fires() then 1 else 0) + (if p2.Fires() then 1 else 0)
                                + (if p3.Fires() then 1 else 0) + (if p4.Fires() then 1 else 0)
  {
    var p1 := Feed(p, h[0]);
    var p2 := Feed(p1, h[1]);
    var p3 := Feed(p2, h[2]);
    FeedCons(p3, h[3], []);
    FeedCons(p2, h[2], [h[3]]);
    FeedCons(p1, h[1], [h[2], h[3]]);
    FeedCons(p, h[0], [h[1], h[2], h[3]]);
    assert h == [h[0]] + [h[1], h[2], h[3]];
    assert [h[1]] + [h[2], h[3]] == [h[1], h[2], h[3]] && [h[2]] + [h[3]] == [h[2], h[3]] && [h[3]] + [] == [h[3]];
  }

  lemma FeedHeader(p: Parser, h: seq<byte>, tag: Tag, more: bool, len: word)
    requires p.Valid() && (p.sta.ParseStart? || p.sta.MtPbfGid?) && tag.Valid() && Heads(h, tag, more, len)
    ensures FeedAll(p, h) == Headed(p, tag, more, len)
    ensures Firings(p, h) == if !more && p.sta.MtPbfGid? && p.recvPacket then 4 else if !more && len == 0 then 1 else 0
  {
    FeedFour(p, h);
    var q := if p.sta.ParseStart? then p.(recvPacket := false, payload := []) else p;
    var p1 := q.(tag := Tag(tag.mt, tag.gid, p.tag.oid), isLast := !more, sta := Oid);
    var p2 := p1.(tag := tag, len := 0, sta := Rfu);
    var p3 := p2.(len := Word(0, h[2]), sta := PayloadLen);
    assert Feed(p, h[0]) == p1;
    assert Feed(p1, h[1]) == p2;
    assert Feed(p2, h[2]) == p3;
    assert Feed(p3, h[3]) == Headed(p, tag, more, len);
  }

  /** Bytes inside a payload are appended; only the byte that completes a segment can change the rest. */
  lemma {:induction false} FeedPayload(p: Parser, bs: seq<byte>)
    requires p.Valid() && p.sta.PayloadBytes? && |bs| <= p.len - p.received
    ensures var more := p.(payload := p.payload + bs, received := p.received + |bs|);
            FeedAll(p, bs) == if |bs| < p.len - p.received then more
                              else more.(recvPacket := true, sta := if p.isLast then ParseStart else MtPbfGid)
    ensures Firings(p, bs) == if p.Fires() then |bs| else if p.isLast && |bs| == p.len - p.received then 1 else 0
    decreases |bs|
  {
    if bs == [] {
      assert p.payload + bs == p.payload;
    } else {
      var q := Feed(p, bs[0]);
      if q.sta.PayloadBytes? {
        FeedPayload(q, bs[1..]);
      } else {
        assert bs[1..] == [];
      }
      assert p.payload + [bs[0]] + bs[1..] == p.payload + bs;
    }
  }

  /** `seg` is a header for `bs`, then `bs`. */
  ghost predicate IsSegment(seg: seq<byte>, tag: Tag, more: bool, bs: seq<byte>) {
    && |bs| < 0x1_0000 && (more ==> bs != [])
    && |seg| == HDR_SIZE + |bs| && Heads(seg[..HDR_SIZE], tag, more, |bs|) && seg[HDR_SIZE..] == bs
  }

  lemma JoinIsSegment(h: seq<byte>, tag: Tag, more: bool, bs: seq<byte>)
    requires |bs| < 0x1_0000 && (more ==> bs != []) && Heads(h, tag, more, |bs|)
    ensures IsSegment(h + bs, tag, more, bs)
  {
    assert (h + bs)[..HDR_SIZE] == h && (h + bs)[HDR_SIZE..] == bs;
  }

  lemma SegmentIs(tag: Tag, payload: seq<byte>, offset: nat, more: bool, bs: seq<byte>)
    requires tag.Valid() && offset <= |payload| && more == !IsLast(|payload|, offset)
    requires bs == payload[offset..offset + SegmentLen(|payload|, offset)]
    ensures IsSegment(Segment(tag, payload, offset), tag, more, bs)
  {
    HeaderHeads(tag, more, |bs|);
    SegmentFrom(Header(tag, more, |bs|), tag, payload, offset, more, bs);
  }

  lemma SegmentFrom(h: seq<byte>, tag: Tag, payload: seq<byte>, offset: nat, more: bool, bs: seq<byte>)
    requires offset <= |payload| && more == !IsLast(|payload|, offset)
    requires bs == payload[offset..offset + SegmentLen(|payload|, offset)]
    requires h == Header(tag, more, |bs|) && Heads(h, tag, more, |bs|)
    ensures IsSegment(Segment(tag, payload, offset), tag, more, bs)
  {
    var n := SegmentLen(|payload|, offset);
    assert n == |bs|;
    assert Segment(tag, payload, offset) == h + bs;
    assert IsSegment(h + bs, tag, more, bs) by {
      JoinIsSegment(h, tag, more, bs);
    }
  }

  /** A segment for `bs` takes the parser from `q` to `r`, and makes it report `fires` times. */
  ghost predicate Took(q: Parser, r: Parser, fires: nat, tag: Tag, more: bool, bs: seq<byte>) {
    && r.sta == (if more then MtPbfGid else ParseStart) && r.recvPacket && r.isLast == !more && r.tag == tag
    && r.payload == (if q.sta.ParseStart? then [] else q.payload) + bs
    && fires == if more then 0 else if q.sta.MtPbfGid? && q.recvPacket then HDR_SIZE + |bs| else 1
  }

  lemma FeedSegment(p: Parser, seg: seq<byte>, tag: Tag, more: bool, bs: seq<byte>)
    requires p.Valid() && (p.sta.ParseStart? || p.sta.MtPbfGid?) && tag.Valid() && IsSegment(seg, tag, more, bs)
    ensures Took(p, FeedAll(p, seg), Firings(p, seg), tag, more, bs)
  {
    var h := seg[..HDR_SIZE];
    assert seg == h + bs;
    FeedAllAppend(p, h, bs);
    FeedHeader(p, h, tag, more, |bs|);
    if bs != [] {
      FeedPayload(Headed(p, tag, more, |bs|), bs);
    }
  }

  lemma FeedSegmentAt(p: Parser, tag: Tag, payload: seq<byte>, offset: nat, more: bool, bs: seq<byte>)
    requires p.Valid() && (p.sta.ParseStart? || p.sta.MtPbfGid?) && tag.Valid()
    requires offset <= |payload| && more == !IsLast(|payload|, offset)
    requires bs == payload[offset..offset + SegmentLen(|payload|, offset)]
    ensures var seg := Segment(tag, payload, offset);
            Took(p, FeedAll(p, seg), Firings(p, seg), tag, more, bs)
  {
    SegmentIs(tag, payload, offset, more, bs);
    FeedSegment(p, Segment(tag, payload, offset), tag, more, bs);
  }

  /** The parser after some but not all segments: those of the first `o` bytes. */
  ghost predicate Partway(q: Parser, tag: Tag, payload: seq<byte>, o: nat) {
    q.sta.MtPbfGid? && q.recvPacket && q.tag == tag && o <= |payload| && q.payload == payload[..o]
  }

  /** Where the segment at offset `o` may begin. */
  ghost predicate ReadyFor(q: Parser, tag: Tag, payload: seq<byte>, o: nat) {
    q.Valid() && if o == 0 then q.sta.ParseStart? else Partway(q, tag, payload, o)
  }

  lemma TookNext(q: Parser, r: Parser, fires: nat, tag: Tag, payload: seq<byte>, o: nat)
    requires ReadyFor(q, tag, payload, o) && o + MAX_PAYLOAD_LEN <= |payload|
    requires Took(q, r, fires, tag, true, payload[o..o + MAX_PAYLOAD_LEN])
    ensures Partway(r, tag, payload, o + MAX_PAYLOAD_LEN) && fires == 0
  {
    assert payload[..o] + payload[o..o + MAX_PAYLOAD_LEN] == payload[..o + MAX_PAYLOAD_LEN];
    assert payload[..0] == [];
  }

  lemma TookLast(q: Parser, r: Parser, fires: nat, tag: Tag, payload: seq<byte>, o: nat)
    requires ReadyFor(q, tag, payload, o) && o <= |payload|
    requires Took(q, r, fires, tag, false, payload[o..])
    ensures Holds(r, tag, payload) && fires == if o == 0 then 1 else HDR_SIZE + |payload| - o
  {
    assert payload[..o] + payload[o..] == payload;
    assert payload[0..] == payload;
  }

  lemma PacketsNext(tag: Tag, payload: seq<byte>, k: nat)
    ensures Packets(tag, payload, k + 1) == Packets(tag, payload, k) + Segment(tag, payload, Offset(|payload|, k))
  {
  }

  /** All segments but the last. */
  lemma {:induction false} FeedPackets(p: Parser, tag: Tag, payload: seq<byte>, k: nat)
    requires p.Valid() && p.sta.ParseStart? && tag.Valid() && |payload| <= 0x1_0000 && k < Segments(|payload|)
    ensures ReadyFor(FeedAll(p, Packets(tag, payload, k)), tag, payload, Offset(|payload|, k))
    ensures Firings(p, Packets(tag, payload, k)) == 0
  {
    OffsetAt(|payload|, k);
    if k > 0 {
      OffsetAt(|payload|, k - 1);
      FeedPackets(p, tag, payload, k - 1);
      FeedNext(p, tag, payload, k - 1, Offset(|payload|, k - 1));
    }
  }

  lemma FeedNext(p: Parser, tag: Tag, payload: seq<byte>, k: nat, o: nat)
    requires p.Valid() && tag.Valid() && o == Offset(|payload|, k) && !IsLast(|payload|, o)
    requires ReadyFor(FeedAll(p, Packets(tag, payload, k)), tag, payload, o)
    requires Firings(p, Packets(tag, payload, k)) == 0
    ensures Partway(FeedAll(p, Packets(tag, payload, k + 1)), tag, payload, o + MAX_PAYLOAD_LEN)
    ensures Firings(p, Packets(tag, payload, k + 1)) == 0
  {
    var front, seg := Packets(tag, payload, k), Segment(tag, payload, o);
    var q := FeedAll(p, front);
    FeedSegmentAt(q, tag, payload, o, true, payload[o..o + MAX_PAYLOAD_LEN]);
    TookNext(q, FeedAll(q, seg), Firings(q, seg), tag, payload, o);
    FeedAllAppend(p, front, seg);
    PacketsNext(tag, payload, k);
  }

  /** The parser stands between packets, reporting exactly this message. */
  ghost predicate Holds(q: Parser, tag: Tag, payload: seq<byte>) {
    q.sta.ParseStart? && q.Fires() && q.tag == tag && q.payload == payload
  }

  lemma FeedLast(p: Parser, tag: Tag, payload: seq<byte>, k: nat, o: nat)
    requires p.Valid() && tag.Valid() && o == Offset(|payload|, k) && IsLast(|payload|, o)
    requires ReadyFor(FeedAll(p, Packets(tag, payload, k)), tag, payload, o)
    requires Firings(p, Packets(tag, payload, k)) == 0
    ensures Holds(FeedAll(p, Packets(tag, payload, k + 1)), tag, payload)
    ensures Firings(p, Packets(tag, payload, k + 1)) == if o == 0 then 1 else HDR_SIZE + |payload| - o
  {
    var front, seg := Packets(tag, payload, k), Segment(tag, payload, o);
    var q := FeedAll(p, front);
    FeedSegmentAt(q, tag, payload, o, false, payload[o..]);
    TookLast(q, FeedAll(q, seg), Firings(q, seg), tag, payload, o);
    FeedAllAppend(p, front, seg);
    PacketsNext(tag, payload, k);
  }

  /**
   Segmentation and reassembly undo each other, from any point between packets. The parser
   reports a one-segment message once, on its last byte; a longer one it reports on every byte
   of its last segment, because the mark left by an earlier segment is still set.
   */
  lemma SegmentsRoundTrip(p: Parser, tag: Tag, payload: seq<byte>)
    requires p.Valid() && p.sta.ParseStart? && tag.Valid() && |payload| <= 0x1_0000
    ensures Holds(FeedAll(p, Packets(tag, payload, Segments(|payload|))), tag, payload)
    ensures Firings(p, Packets(tag, payload, Segments(|payload|)))
         == if Segments(|payload|) == 1 then 1 else HDR_SIZE + |payload| - MAX_PAYLOAD_LEN * (Segments(|payload|) - 1)
  {
    var k: nat := Segments(|payload|) - 1;
    OffsetAt(|payload|, k);
    FeedPackets(p, tag, payload, k);
    FeedLast(p, tag, payload, k, Offset(|payload|, k));
    assert Segments(|payload|) == k + 1;
  }

  /** So a message is reported exactly once if and only if it fits one segment. */
  lemma ReportedOnce(p: Parser, tag: Tag, payload: seq<byte>)
    requires p.Valid() && p.sta.ParseStart? && tag.Valid() && |payload| <= 0x1_0000
    ensures Firings(p, Packets(tag, payload, Segments(|payload|))) == 1 <==> |payload| <= MAX_PAYLOAD_LEN
  {
    SegmentsRoundTrip(p, tag, payload);
  }
}
