/** The packet a tag sends: user data in six nested layers, each with its own length field. */
module TagPacket {
  import opened Bytes

  const UID_SIZE := 8
  const SHARED_SIZE := 12
  const MSG_ID_TAG2USER := 43
  const PACKET_ID_TAG2BACKEND := 2
  const SOF := 0xAA
  const UCI_HEADER := 0x23

  /** Appends a word, high byte first. */
  function Be16(w: word): seq<byte> { [Hi(w), Lo(w)] }

  function Sum(bs: seq<byte>): nat {
    if bs == [] then 0 else Sum(bs[..|bs| - 1]) + bs[|bs| - 1] as int
  }

  function HeaderChecksum(size: word): byte {
    (SOF + Lo(size) as int + Hi(size) as int) % 0x100
  }

  // The layers, innermost first. A length is cut to the width of its field: 12, 10, 10, 16 and 16 bits.

  function PayloadLayer(counter: dword, data: seq<byte>): seq<byte> {
    [counter % 0x100] + Be32(|data| % 0x1000) + data
  }

  function MsgLayer(body: seq<byte>): seq<byte> {
    Be16(MSG_ID_TAG2USER * 0x400 + |body| % 0x400) + body
  }

  function SharedLayer(uid: seq<byte>, counter: dword, msg: seq<byte>): seq<byte> {
    uid + Be32(counter) + msg
  }

  /** The message length is an unsigned difference: it wraps for shared data that is too short. */
  function PacketLayer(shared: seq<byte>): seq<byte> {
    [PACKET_ID_TAG2BACKEND] + Be16(SHARED_SIZE * 0x400 + (|shared| - SHARED_SIZE) % 0x400) + shared
  }

  /** What the frame checksum sums: the frame's header and its contents. */
  function Summed(packet: seq<byte>): seq<byte> {
    var n: word := |packet| % 0x1_0000;
    [SOF, Lo(n), Hi(n), HeaderChecksum(n)] + packet
  }

  function FrameLayer(packet: seq<byte>): seq<byte> {
    var sum: word := Sum(Summed(packet)) % 0x1_0000;
    Summed(packet) + [Lo(sum), Hi(sum)]
  }

  function UciLayer(frame: seq<byte>): seq<byte> {
    [UCI_HEADER, 0] + Be16(|frame| % 0x1_0000) + frame
  }

  function Build(uid: seq<byte>, counter: dword, data: seq<byte>): seq<byte> {
    UciLayer(FrameLayer(PacketLayer(SharedLayer(uid, counter, MsgLayer(PayloadLayer(counter, data))))))
  }

  class UWBPacketBuilder {
    const tagUid: seq<byte>
    var txCounter: dword
    var currentPacket: seq<byte>

    constructor (tagUid: seq<byte>)
      ensures this.tagUid == tagUid && txCounter == 0
    {
      this.tagUid := tagUid;
      txCounter := 0;
      currentPacket := [];
    }

    method BuildTag2BackendPacket(userData: seq<byte>) returns (r: seq<byte>)
      modifies this
      ensures txCounter as int == (old(txCounter) + 1) % 0x1_0000_0000
      ensures r == currentPacket == Build(tagUid, txCounter, userData)
    {
      txCounter := (txCounter + 1) % 0x1_0000_0000;
      currentPacket := PayloadLayer(txCounter, userData);
      currentPacket := MsgLayer(currentPacket);
      currentPacket := SharedLayer(tagUid, txCounter, currentPacket);
      currentPacket := PacketLayer(currentPacket);
      BuildFrame();
      currentPacket := UciLayer(currentPacket);
      r := currentPacket;
    }

    method BuildFrame()
      modifies this`currentPacket
      ensures currentPacket == FrameLayer(old(currentPacket))
    {
      var size: word := |currentPacket| % 0x1_0000;
      currentPacket := [SOF, Lo(size), Hi(size), HeaderChecksum(size)] + currentPacket;
      var checksum := CalculateFrameChecksum(currentPacket);
      currentPacket := currentPacket + [Lo(checksum)];
      currentPacket := currentPacket + [Hi(checksum)];
    }

    static method CalculateFrameChecksum(frameData: seq<byte>) returns (sum: word)
      ensures sum as int == Sum(frameData) % 0x1_0000
    {
      sum := 0;
      for i := 0 to |frameData|
        invariant sum as int == Sum(frameData[..i]) % 0x1_0000
      {
        assert frameData[..i + 1][..i] == frameData[..i];
        sum := (sum + frameData[i]) % 0x1_0000;
      }
      assert frameData[..|frameData|] == frameData;
    }
  }

  // ---------- decoding ----------

  datatype Envelope = Envelope(uid: seq<byte>, counter: dword, data: seq<byte>)

  /** The contents of a layer whose header of `header` bytes announces `size` bytes to follow. */
  function Enclosed(layer: seq<byte>, header: nat, size: int): Option<seq<byte>> {
    if header <= |layer| && size == |layer| - header then Some(layer[header..]) else None
  }

  function ReadBe16(bs: seq<byte>, at: nat): word
    requires at + 2 <= |bs|
  {
    Word(bs[at + 1], bs[at])
  }

  function OpenUci(p: seq<byte>): Option<seq<byte>> {
    if |p| < 4 || p[0] != UCI_HEADER || p[1] != 0 then None else Enclosed(p, 4, ReadBe16(p, 2))
  }

  /** Both checksums are recomputed. */
  function OpenFrame(f: seq<byte>): Option<seq<byte>> {
    if |f| < 6 || f[0] != SOF || f[3] != HeaderChecksum(Word(f[1], f[2])) then None
    else
      var body := f[..|f| - 2];
      if Word(f[|f| - 2], f[|f| - 1]) as int != Sum(body) % 0x1_0000 then None
      else Enclosed(body, 4, Word(f[1], f[2]))
  }

  function OpenPacket(p: seq<byte>): Option<seq<byte>> {
    if |p| < 3 || p[0] != PACKET_ID_TAG2BACKEND || ReadBe16(p, 1) / 0x400 != SHARED_SIZE then None
    else Enclosed(p, 3, SHARED_SIZE + ReadBe16(p, 1) % 0x400)
  }

  function OpenMsg(m: seq<byte>): Option<seq<byte>> {
    if |m| < 2 || ReadBe16(m, 0) / 0x400 != MSG_ID_TAG2USER then None else Enclosed(m, 2, ReadBe16(m, 0) % 0x400)
  }

  function OpenPayload(b: seq<byte>): Option<seq<byte>> {
    if |b| < 5 then None else Enclosed(b, 5, FromBe32(b[1..5]) % 0x1000)
  }

  function Open(p: seq<byte>): Option<Envelope> {
    match OpenUci(p) case None => None case Some(frame) =>
    match OpenFrame(frame) case None => None case Some(packet) =>
    match OpenPacket(packet) case None => None case Some(shared) =>
    if |shared| < SHARED_SIZE then None else
    match OpenMsg(shared[SHARED_SIZE..]) case None => None case Some(body) =>
    match OpenPayload(body) case None => None case Some(data) =>
      Some(Envelope(shared[..UID_SIZE], FromBe32(shared[UID_SIZE..SHARED_SIZE]), data))
  }

  lemma PayloadOpens(counter: dword, data: seq<byte>)
    ensures OpenPayload(PayloadLayer(counter, data)) == if |data| < 0x1000 then Some(data) else None
  {
    var layer := PayloadLayer(counter, data);
    Be32RoundTrip(|data| % 0x1000);
    assert layer[1..5] == Be32(|data| % 0x1000) && layer[5..] == data;
  }

  lemma MsgOpens(body: seq<byte>)
    ensures OpenMsg(MsgLayer(body)) == if |body| < 0x400 then Some(body) else None
  {
    var w: word := MSG_ID_TAG2USER * 0x400 + |body| % 0x400;
    assert MsgLayer(body)[2..] == body && ReadBe16(MsgLayer(body), 0) == w;
  }

  lemma PacketOpens(shared: seq<byte>)
    requires |shared| >= SHARED_SIZE
    ensures OpenPacket(PacketLayer(shared)) == if |shared| - SHARED_SIZE < 0x400 then Some(shared) else None
  {
    var w: word := SHARED_SIZE * 0x400 + (|shared| - SHARED_SIZE) % 0x400;
    assert PacketLayer(shared)[3..] == shared && ReadBe16(PacketLayer(shared), 1) == w;
  }

  lemma FrameEnds(body: seq<byte>, sum: word)
    ensures var f := body + [Lo(sum), Hi(sum)];
            |f| == |body| + 2 && f[..|f| - 2] == body && Word(f[|f| - 2], f[|f| - 1]) == sum
  {
  }

  lemma SummedHeads(packet: seq<byte>)
    ensures var body := Summed(packet);
            && |body| == 4 + |packet| && body[4..] == packet && body[0] == SOF
            && Word(body[1], body[2]) as int == |packet| % 0x1_0000
            && body[3] == HeaderChecksum(Word(body[1], body[2]))
  {
  }

  /** What `OpenFrame` makes of a frame with a good header for `n` bytes. */
  lemma FrameWithHeader(f: seq<byte>, body: seq<byte>, packet: seq<byte>, sum: word, n: word)
    requires |f| == |body| + 2 && f[..|f| - 2] == body && Word(f[|f| - 2], f[|f| - 1]) == sum
    requires |body| == 4 + |packet| && body[4..] == packet && body[0] == SOF
    requires Word(body[1], body[2]) == n && body[3] == HeaderChecksum(n)
    ensures OpenFrame(f)
         == if sum as int == Sum(body) % 0x1_0000 && n as int == |packet| then Some(packet) else None
  {
    assert f[0] == body[0] && f[1] == body[1] && f[2] == body[2] && f[3] == body[3];
  }

  lemma FrameOpens(packet: seq<byte>)
    ensures OpenFrame(FrameLayer(packet)) == if |packet| < 0x1_0000 then Some(packet) else None
  {
    var body := Summed(packet);
    FrameEnds(body, Sum(body) % 0x1_0000);
    SummedHeads(packet);
    CutLength(|packet|);
    FrameWithHeader(FrameLayer(packet), body, packet, Sum(body) % 0x1_0000, |packet| % 0x1_0000);
  }

  lemma UciHeads(frame: seq<byte>, n: word)
    ensures var p := [UCI_HEADER, 0] + Be16(n) + frame;
            |p| == 4 + |frame| && p[0] == UCI_HEADER && p[1] == 0 && ReadBe16(p, 2) == n && p[4..] == frame
  {
    var p := [UCI_HEADER, 0] + Be16(n) + frame;
    assert p[2] == Hi(n) && p[3] == Lo(n);
  }

  lemma UciOpens(frame: seq<byte>)
    ensures OpenUci(UciLayer(frame)) == if |frame| < 0x1_0000 then Some(frame) else None
  {
    UciWithHeader(UciLayer(frame), frame, |frame| % 0x1_0000);
  }

  /** What `OpenUci` makes of a packet with the header for `n` bytes. */
  lemma UciWithHeader(p: seq<byte>, frame: seq<byte>, n: word)
    requires p == [UCI_HEADER, 0] + Be16(n) + frame
    ensures OpenUci(p) == if n == |frame| then Some(frame) else None
  {
    UciHeads(frame, n);
  }

  /**
   A receiver that checks every length and both checksums recovers UID, counter and data exactly
   when the data has at most 1016 bytes: one more, and the ten-bit length of the message wraps.
   */
  lemma EnvelopeRoundTrip(uid: seq<byte>, counter: dword, data: seq<byte>)
    requires |uid| == UID_SIZE
    ensures Open(Build(uid, counter, data))
         == if |data| <= 1016 then Some(Envelope(uid, counter, data)) else None
  {
    var body := PayloadLayer(counter, data);
    var msg := MsgLayer(body);
    var shared := SharedLayer(uid, counter, msg);
    var packet := PacketLayer(shared);
    var frame := FrameLayer(packet);
    UciOpens(frame);
    FrameOpens(packet);
    PacketOpens(shared);
    MsgOpens(body);
    PayloadOpens(counter, data);
    Be32RoundTrip(counter);
    assert shared[SHARED_SIZE..] == msg && shared[..UID_SIZE] == uid;
    assert shared[UID_SIZE..SHARED_SIZE] == Be32(counter);
    assert |body| == 5 + |data| && |msg| == 2 + |body| && |shared| == SHARED_SIZE + |msg|;
  }

  lemma {:induction false} SumUpdate(bs: seq<byte>, i: nat, b: byte)
    requires i < |bs|
    ensures Sum(bs[i := b]) == Sum(bs) - bs[i] as int + b as int
  {
    var n := |bs| - 1;
    if i < n {
      SumUpdate(bs[..n], i, b);
      assert bs[i := b][..n] == bs[..n][i := b];
    } else {
      assert bs[i := b][..n] == bs[..n];
    }
  }

  /** One changed byte among those that are summed is always noticed. */
  lemma CorruptionDetected(packet: seq<byte>, i: nat, b: byte)
    requires i < |Summed(packet)| && b != FrameLayer(packet)[i]
    ensures OpenFrame(FrameLayer(packet)[i := b]) == None
  {
    var body := Summed(packet);
    CorruptBody(FrameLayer(packet), body, Sum(body) % 0x1_0000, i, b);
  }

  lemma CorruptBody(f: seq<byte>, body: seq<byte>, sum: word, i: nat, b: byte)
    requires f == body + [Lo(sum), Hi(sum)] && sum as int == Sum(body) % 0x1_0000 && i < |body| && b != body[i]
    ensures OpenFrame(f[i := b]) == None
  {
    var g, bad := f[i := b], body[i := b];
    FrameEnds(bad, sum);
    assert g == bad + [Lo(sum), Hi(sum)];
    SumUpdate(body, i, b);
    ByteMatters(Sum(body), body[i], b);
    BadChecksum(g, bad, sum);
  }

  lemma ByteMatters(sum: nat, x: byte, y: byte)
    requires x != y && sum - x as int + y as int >= 0
    ensures (sum - x as int + y as int) % 0x1_0000 != sum % 0x1_0000
  {
  }

  lemma BadChecksum(f: seq<byte>, body: seq<byte>, sum: word)
    requires |f| == |body| + 2 && f[..|f| - 2] == body && Word(f[|f| - 2], f[|f| - 1]) == sum
    requires sum as int != Sum(body) % 0x1_0000
    ensures OpenFrame(f) == None
  {
  }

  // ---------- the format on the air ----------

  lemma SumThree(a: byte, b: byte, c: byte)
    ensures Sum([a, b, c]) == a as int + b as int + c as int
  {
    assert [a, b, c][..2] == [a, b] && [a, b][..1] == [a] && [a][..0] == [];
    assert Sum([a]) == a as int;
    assert Sum([a, b]) == a as int + b as int;
  }

  lemma SummedFormat(packet: seq<byte>)
    requires |packet| <= 65535
    ensures var body := Summed(packet);
            && |body| == 4 + |packet| && body[0] == 0xAA && body[1] as int + 256 * body[2] as int == |packet|
            && body[3] as int == Sum(body[..3]) % 256 && body[4..] == packet
  {
    var body := Summed(packet);
    assert body[..3] == [body[0], body[1], body[2]];
    SumThree(body[0], body[1], body[2]);
  }

  /**
   The frame layer for any packet of at most 65535 bytes: start byte, length low byte first, the sum
   of those three modulo 256, the packet, and the sum of all that modulo 65536, low byte first.
   */
  lemma FrameFormat(packet: seq<byte>)
    requires |packet| <= 65535
    ensures var body := Summed(packet);
            && |body| == 4 + |packet| && body[0] == 0xAA && body[1] as int + 256 * body[2] as int == |packet|
            && body[3] as int == Sum(body[..3]) % 256 && body[4..] == packet
    ensures FrameLayer(packet) == Summed(packet) + SumBytes(packet)
    ensures SumBytes(packet)[0] as int + 256 * SumBytes(packet)[1] as int == Sum(Summed(packet)) % 65536
  {
    SummedFormat(packet);
    LowFirst(Sum(Summed(packet)) % 0x1_0000);
  }

  /** The last two bytes of a frame. */
  function SumBytes(packet: seq<byte>): (r: seq<byte>)
    ensures |r| == 2
  {
    var f := FrameLayer(packet);
    f[|f| - 2..]
  }

  lemma LowFirst(w: word)
    ensures Lo(w) as int + 256 * Hi(w) as int == w as int
  {
  }

  lemma PayloadFormat(counter: dword, data: seq<byte>)
    requires |data| < 4096
    ensures var p := PayloadLayer(counter, data);
            && |p| == 5 + |data| && p[0] as int == counter % 256 && p[1] == p[2] == 0
            && 256 * p[3] as int + p[4] as int == |data| && p[5..] == data
  {
  }

  lemma MsgFormat(body: seq<byte>)
    requires |body| < 1024
    ensures var p := MsgLayer(body);
            |p| == 2 + |body| && 256 * p[0] as int + p[1] as int == 43 * 1024 + |body| && p[2..] == body
  {
  }

  lemma SharedFormat(uid: seq<byte>, counter: dword, msg: seq<byte>)
    requires |uid| == 8
    ensures var p := SharedLayer(uid, counter, msg);
            && |p| == 12 + |msg| && p[..8] == uid && p[12..] == msg
            && 0x100_0000 * p[8] as int + 0x1_0000 * p[9] as int + 256 * p[10] as int + p[11] as int == counter as int
  {
    var p := SharedLayer(uid, counter, msg);
    BigEndian(counter);
    assert p[8] == Be32(counter)[0] && p[9] == Be32(counter)[1] && p[10] == Be32(counter)[2] && p[11] == Be32(counter)[3];
  }

  lemma PacketFormat(shared: seq<byte>)
    requires 12 <= |shared| < 12 + 1024
    ensures var p := PacketLayer(shared);
            && |p| == 3 + |shared| && p[0] == 2 && 256 * p[1] as int + p[2] as int == 12 * 1024 + (|shared| - 12)
            && p[3..] == shared
  {
  }

  lemma UciFormat(frame: seq<byte>)
    requires |frame| <= 65535
    ensures var p := UciLayer(frame);
            && |p| == 4 + |frame| && p[0] == 0x23 && p[1] == 0 && 256 * p[2] as int + p[3] as int == |frame|
            && p[4..] == frame
  {
  }

  lemma BigEndian(v: dword)
    ensures var b := Be32(v);
            0x100_0000 * b[0] as int + 0x1_0000 * b[1] as int + 256 * b[2] as int + b[3] as int == v as int
  {
  }
}
