/** Frames, packets and messages exchanged by backend, master and slaves. */
module Protocol {
  import opened Bytes

  // ---------- messages ----------

  /** A slave's configuration, nine bytes on the wire. */
  datatype Config = Config(id: dword, cond: byte, res: byte, clipMode: byte, clip: word)

  /** A slave's reset request, seven bytes on the wire. */
  datatype Reset = Reset(id: dword, lock: byte, clip: word)

  datatype Msg =
    // master to slave
    | Sync(mode: byte, timestamp: dword)
    | CondCfg(slot: byte, interval: byte, total: word, start: word, cond: word)
    | ResCfg(slot: byte, interval: byte, total: word, start: word, res: word)
    | ClipCfg(interval: byte, mode: byte, pin: word)
    | ReadCondData(reserve: byte)
    | ReadResData(reserve: byte)
    | ReadClipData(reserve: byte)
    | Rst(lock: byte, clipLed: word)
    // slave to master
    | CondAck(status: byte, slot: byte, interval: byte, total: word, start: word, cond: word)
    | ResAck(status: byte, slot: byte, interval: byte, total: word, start: word, res: word)
    | ClipAck(status: byte, interval: byte, mode: byte, pin: word)
    | RstAck(status: byte, lock: byte, clipLed: word)
    // backend to master
    | SlaveCfg(num: byte, configs: seq<Config>)
    | ModeCfg(mode: byte)
    | ResetAll(num: byte, resets: seq<Reset>)
    | Ctrl(running: byte)
    // master to backend
    | SlaveCfgRsp(status: byte, num: byte, configs: seq<Config>)
    | ModeRsp(status: byte, mode: byte)
    | ResetRsp(status: byte, num: byte, resets: seq<Reset>)
    | CtrlRsp(status: byte, running: byte)
    // slave to backend
    | CondData(length: word, data: seq<byte>)
    | ResData(length: word, data: seq<byte>)
    | ClipData(pin: word)

  const M2S: byte := 0
  const S2M: byte := 1
  const B2M: byte := 2
  const M2B: byte := 3
  const S2B: byte := 4

  function PacketType(m: Msg): byte {
    match m
    case Sync(_, _) => M2S case CondCfg(_, _, _, _, _) => M2S case ResCfg(_, _, _, _, _) => M2S
    case ClipCfg(_, _, _) => M2S case ReadCondData(_) => M2S case ReadResData(_) => M2S
    case ReadClipData(_) => M2S case Rst(_, _) => M2S
    case CondAck(_, _, _, _, _, _) => S2M case ResAck(_, _, _, _, _, _) => S2M
    case ClipAck(_, _, _, _) => S2M case RstAck(_, _, _) => S2M
    case SlaveCfg(_, _) => B2M case ModeCfg(_) => B2M case ResetAll(_, _) => B2M case Ctrl(_) => B2M
    case SlaveCfgRsp(_, _, _) => M2B case ModeRsp(_, _) => M2B case ResetRsp(_, _, _) => M2B case CtrlRsp(_, _) => M2B
    case CondData(_, _) => S2B case ResData(_, _) => S2B case ClipData(_) => S2B
  }

  function MessageId(m: Msg): byte {
    match m
    case Sync(_, _) => 0x00 case CondCfg(_, _, _, _, _) => 0x10 case ResCfg(_, _, _, _, _) => 0x11
    case ClipCfg(_, _, _) => 0x12 case ReadCondData(_) => 0x20 case ReadResData(_) => 0x21
    case ReadClipData(_) => 0x22 case Rst(_, _) => 0x30
    case CondAck(_, _, _, _, _, _) => 0x10 case ResAck(_, _, _, _, _, _) => 0x11
    case ClipAck(_, _, _, _) => 0x12 case RstAck(_, _, _) => 0x30
    case SlaveCfg(_, _) => 0x00 case ModeCfg(_) => 0x01 case ResetAll(_, _) => 0x02 case Ctrl(_) => 0x03
    case SlaveCfgRsp(_, _, _) => 0x00 case ModeRsp(_, _) => 0x01 case ResetRsp(_, _, _) => 0x02
    case CtrlRsp(_, _) => 0x03
    case CondData(_, _) => 0x00 case ResData(_, _) => 0x01 case ClipData(_) => 0x02
  }

  function Le16(w: word): seq<byte> { [Lo(w), Hi(w)] }

  function ConfigBytes(c: Config): (r: seq<byte>)
    ensures |r| == CONFIG_SIZE
  {
    Le32(c.id) + [c.cond, c.res, c.clipMode, Lo(c.clip), Hi(c.clip)]
  }

  function ResetBytes(c: Reset): (r: seq<byte>)
    ensures |r| == RESET_SIZE
  {
    Le32(c.id) + [c.lock, Lo(c.clip), Hi(c.clip)]
  }

  const CONFIG_SIZE := 9
  const RESET_SIZE := 7

  function ConfigOf(d: seq<byte>): Config
    requires |d| == CONFIG_SIZE
  {
    Config(FromLe32(d[..4]), d[4], d[5], d[6], Word(d[7], d[8]))
  }

  function ResetOf(d: seq<byte>): Reset
    requires |d| == RESET_SIZE
  {
    Reset(FromLe32(d[..4]), d[4], Word(d[5], d[6]))
  }

  function ConfigsBytes(cs: seq<Config>): seq<byte> {
    if cs == [] then [] else ConfigBytes(cs[0]) + ConfigsBytes(cs[1..])
  }

  function ResetsBytes(cs: seq<Reset>): seq<byte> {
    if cs == [] then [] else ResetBytes(cs[0]) + ResetsBytes(cs[1..])
  }

  /** `serialize`. The reply to a resistance configuration puts its three counters high byte first. */
  function Payload(m: Msg): seq<byte> {
    match m
    case Sync(mode, timestamp) => [mode] + Le32(timestamp)
    case CondCfg(slot, interval, total, start, cond) =>
      [slot, interval, Lo(total), Hi(total), Lo(start), Hi(start), Lo(cond), Hi(cond)]
    case ResCfg(slot, interval, total, start, res) =>
      [slot, interval, Lo(total), Hi(total), Lo(start), Hi(start), Lo(res), Hi(res)]
    case ClipCfg(interval, mode, pin) => [interval, mode, Lo(pin), Hi(pin)]
    case ReadCondData(reserve) => [reserve]
    case ReadResData(reserve) => [reserve]
    case ReadClipData(reserve) => [reserve]
    case Rst(lock, clipLed) => [lock, Lo(clipLed), Hi(clipLed)]
    case CondAck(status, slot, interval, total, start, cond) =>
      [status, slot, interval, Lo(total), Hi(total), Lo(start), Hi(start), Lo(cond), Hi(cond)]
    case ResAck(status, slot, interval, total, start, res) =>
      [status, slot, interval, Hi(total), Lo(total), Hi(start), Lo(start), Hi(res), Lo(res)]
    case ClipAck(status, interval, mode, pin) => [status, interval, mode, Lo(pin), Hi(pin)]
    case RstAck(status, lock, clipLed) => [status, lock, Lo(clipLed), Hi(clipLed)]
    case SlaveCfg(num, configs) => [num] + ConfigsBytes(configs)
    case ModeCfg(mode) => [mode]
    case ResetAll(num, resets) => [num] + ResetsBytes(resets)
    case Ctrl(running) => [running]
    case SlaveCfgRsp(status, num, configs) => [status, num] + ConfigsBytes(configs)
    case ModeRsp(status, mode) => [status, mode]
    case ResetRsp(status, num, resets) => [status, num] + ResetsBytes(resets)
    case CtrlRsp(status, running) => [status, running]
    case CondData(length, data) => Le16(length) + data
    case ResData(length, data) => Le16(length) + data
    case ClipData(pin) => Le16(pin)
  }

  // ---------- record lists ----------

  /** The records a list of configurations is decoded to. */
  function ConfigsAt(d: seq<byte>, offset: nat, n: nat): (r: seq<Config>)
    decreases n
  {
    if n == 0 || offset + CONFIG_SIZE > |d| then []
    else [ConfigOf(d[offset..offset + CONFIG_SIZE])] + ConfigsAt(d, offset + CONFIG_SIZE, n - 1)
  }

  function ResetsAt(d: seq<byte>, offset: nat, n: nat): (r: seq<Reset>)
    decreases n
  {
    if n == 0 || offset + RESET_SIZE > |d| then []
    else [ResetOf(d[offset..offset + RESET_SIZE])] + ResetsAt(d, offset + RESET_SIZE, n - 1)
  }

  lemma NextConfig(configs: seq<Config>, i: nat)
    requires i < |configs|
    ensures ConfigsBytes(configs[i..]) == ConfigBytes(configs[i]) + ConfigsBytes(configs[i + 1..])
  {
    assert configs[i..][1..] == configs[i + 1..];
  }

  method SerializeConfigs(configs: seq<Config>) returns (data: seq<byte>)
    ensures data == ConfigsBytes(configs)
  {
    data := [];
    for i := 0 to |configs|
      invariant data + ConfigsBytes(configs[i..]) == ConfigsBytes(configs)
    {
      NextConfig(configs, i);
      ghost var before := data;
      data := data + Le32(configs[i].id);
      data := data + [configs[i].cond] + [configs[i].res] + [configs[i].clipMode];
      data := data + [Lo(configs[i].clip)] + [Hi(configs[i].clip)];
      assert data == before + ConfigBytes(configs[i]);
    }
  }

  /** The list loop of both slave configuration messages; every index is inside the data. */
  method DeserializeConfigs(data: seq<byte>, start: nat, slaveNum: byte) returns (configs: seq<Config>)
    ensures configs == ConfigsAt(data, start, slaveNum)
  {
    configs := [];
    var offset, i := start, 0;
    while i < slaveNum
      invariant 0 <= i <= slaveNum && 0 <= offset
      invariant configs + ConfigsAt(data, offset, slaveNum - i) == ConfigsAt(data, start, slaveNum)
    {
      if offset + 8 >= |data| {
        break;
      }
      assert data[offset..offset + CONFIG_SIZE][..4] == data[offset..offset + 4];
      var id := FromLe32(data[offset..offset + 4]);
      offset := offset + 4;
      var cond, res, clipMode := data[offset], data[offset + 1], data[offset + 2];
      offset := offset + 3;
      var clip := Word(data[offset], data[offset + 1]);
      offset := offset + 2;
      configs := configs + [Config(id, cond, res, clipMode, clip)];
      i := i + 1;
    }
  }

  method DeserializeResets(data: seq<byte>, start: nat, slaveNum: byte) returns (resets: seq<Reset>)
    ensures resets == ResetsAt(data, start, slaveNum)
  {
    resets := [];
    var offset, i := start, 0;
    while i < slaveNum
      invariant 0 <= i <= slaveNum && 0 <= offset
      invariant resets + ResetsAt(data, offset, slaveNum - i) == ResetsAt(data, start, slaveNum)
    {
      if offset + 6 >= |data| {
        break;
      }
      assert data[offset..offset + RESET_SIZE][..4] == data[offset..offset + 4];
      var id := FromLe32(data[offset..offset + 4]);
      offset := offset + 4;
      var lock := data[offset];
      offset := offset + 1;
      var clip := Word(data[offset], data[offset + 1]);
      offset := offset + 2;
      resets := resets + [Reset(id, lock, clip)];
      i := i + 1;
    }
  }

  lemma {:induction false} ConfigsCount(d: seq<byte>, offset: nat, n: nat)
    requires offset <= |d| && (|d| - offset) % CONFIG_SIZE == 0
    ensures |ConfigsAt(d, offset, n)| == if n <= (|d| - offset) / CONFIG_SIZE then n else (|d| - offset) / CONFIG_SIZE
    decreases n
  {
    if n > 0 && offset + CONFIG_SIZE <= |d| {
      ConfigsCount(d, offset + CONFIG_SIZE, n - 1);
    }
  }

  lemma {:induction false} ResetsCount(d: seq<byte>, offset: nat, n: nat)
    requires offset <= |d| && (|d| - offset) % RESET_SIZE == 0
    ensures |ResetsAt(d, offset, n)| == if n <= (|d| - offset) / RESET_SIZE then n else (|d| - offset) / RESET_SIZE
    decreases n
  {
    if n > 0 && offset + RESET_SIZE <= |d| {
      ResetsCount(d, offset + RESET_SIZE, n - 1);
    }
  }

  function Min(a: nat, b: nat): nat { if a <= b then a else b }

  lemma ConfigRoundTrip(c: Config)
    ensures ConfigOf(ConfigBytes(c)) == c
  {
    Le32RoundTrip(c.id);
    assert ConfigBytes(c)[..4] == Le32(c.id);
  }

  lemma ResetRoundTrip(c: Reset)
    ensures ResetOf(ResetBytes(c)) == c
  {
    Le32RoundTrip(c.id);
    assert ResetBytes(c)[..4] == Le32(c.id);
  }

  lemma {:induction false} ConfigsRoundTrip(pre: seq<byte>, cs: seq<Config>, n: nat)
    ensures ConfigsAt(pre + ConfigsBytes(cs), |pre|, n) == cs[..Min(n, |cs|)]
    ensures |ConfigsBytes(cs)| == CONFIG_SIZE * |cs|
    decreases |cs|, n
  {
    var d := pre + ConfigsBytes(cs);
    if cs != [] {
      var head, tail := ConfigBytes(cs[0]), ConfigsBytes(cs[1..]);
      ConfigsRoundTrip(pre + head, cs[1..], if n > 0 then n - 1 else 0);
      assert d == (pre + head) + tail;
      assert d[|pre|..|pre| + CONFIG_SIZE] == head;
      ConfigRoundTrip(cs[0]);
      if n > 0 {
        assert cs[..Min(n, |cs|)] == [cs[0]] + cs[1..][..Min(n - 1, |cs| - 1)];
      }
    }
  }

  lemma {:induction false} ResetsRoundTrip(pre: seq<byte>, cs: seq<Reset>, n: nat)
    ensures ResetsAt(pre + ResetsBytes(cs), |pre|, n) == cs[..Min(n, |cs|)]
    ensures |ResetsBytes(cs)| == RESET_SIZE * |cs|
    decreases |cs|, n
  {
    var d := pre + ResetsBytes(cs);
    if cs != [] {
      var head, tail := ResetBytes(cs[0]), ResetsBytes(cs[1..]);
      ResetsRoundTrip(pre + head, cs[1..], if n > 0 then n - 1 else 0);
      assert d == (pre + head) + tail;
      assert d[|pre|..|pre| + RESET_SIZE] == head;
      ResetRoundTrip(cs[0]);
      if n > 0 {
        assert cs[..Min(n, |cs|)] == [cs[0]] + cs[1..][..Min(n - 1, |cs| - 1)];
      }
    }
  }

  // ---------- decoding ----------

  /**
   What comes of a packet. `Stale` is a message of the right kind whose payload has the wrong size:
   the object is handed on all the same, with the values an earlier message left in its fields.
   `Wild` is a read past the end of the payload.
   */
  datatype Outcome = Rejected | Stale(kind: byte, id: byte) | Wild | Decoded(msg: Msg)

  /** A read that the code does not guard: there may be no such byte. */
  function Get(d: seq<byte>, i: nat): Option<byte> { if i < |d| then Some(d[i]) else None }

  /** The sync decoder reports a payload of the wrong size and reads all the same. */
  function DecodeSync(d: seq<byte>): Outcome {
    match (Get(d, 0), Get(d, 1), Get(d, 2), Get(d, 3), Get(d, 4))
    case (Some(mode), Some(a), Some(b), Some(c), Some(e)) => Decoded(Sync(mode, FromLe32([a, b, c, e])))
    case _ => Wild
  }

  /** So does the decoder of a reset. */
  function DecodeRst(d: seq<byte>): Outcome {
    match (Get(d, 0), Get(d, 1), Get(d, 2))
    case (Some(lock), Some(lo), Some(hi)) => Decoded(Rst(lock, Word(lo, hi)))
    case _ => Wild
  }

  function DecodeM2S(id: byte, d: seq<byte>): Outcome {
    if id == 0x00 then DecodeSync(d)
    else if id == 0x10 then
      if |d| != 8 then Stale(M2S, id)
      else Decoded(CondCfg(d[0], d[1], Word(d[2], d[3]), Word(d[4], d[5]), Word(d[6], d[7])))
    else if id == 0x11 then
      if |d| != 8 then Stale(M2S, id)
      else Decoded(ResCfg(d[0], d[1], Word(d[2], d[3]), Word(d[4], d[5]), Word(d[6], d[7])))
    else if id == 0x12 then
      if |d| != 4 then Stale(M2S, id) else Decoded(ClipCfg(d[0], d[1], Word(d[2], d[3])))
    else if id == 0x20 then if |d| != 1 then Stale(M2S, id) else Decoded(ReadCondData(d[0]))
    else if id == 0x21 then if |d| != 1 then Stale(M2S, id) else Decoded(ReadResData(d[0]))
    else if id == 0x22 then if |d| != 1 then Stale(M2S, id) else Decoded(ReadClipData(d[0]))
    else if id == 0x30 then DecodeRst(d)
    else Rejected
  }

  function DecodeS2M(id: byte, d: seq<byte>): Outcome {
    if id == 0x10 then
      if |d| != 9 then Stale(S2M, id)
      else Decoded(CondAck(d[0], d[1], d[2], Word(d[3], d[4]), Word(d[5], d[6]), Word(d[7], d[8])))
    else if id == 0x11 then
      if |d| != 9 then Stale(S2M, id)
      else Decoded(ResAck(d[0], d[1], d[2], Word(d[3], d[4]), Word(d[5], d[6]), Word(d[7], d[8])))
    else if id == 0x12 then
      if |d| != 5 then Stale(S2M, id) else Decoded(ClipAck(d[0], d[1], d[2], Word(d[3], d[4])))
    else if id == 0x30 then
      if |d| != 4 then Stale(S2M, id) else Decoded(RstAck(d[0], d[1], Word(d[2], d[3])))
    else Rejected
  }

  function DecodeB2M(id: byte, d: seq<byte>): Outcome {
    if id == 0x00 then
      if |d| < 1 || (|d| - 1) % CONFIG_SIZE != 0 then Stale(B2M, id)
      else Decoded(SlaveCfg(d[0], ConfigsAt(d, 1, d[0])))
    else if id == 0x01 then if |d| != 1 then Stale(B2M, id) else Decoded(ModeCfg(d[0]))
    else if id == 0x02 then
      if |d| < 1 || (|d| - 1) % RESET_SIZE != 0 then Stale(B2M, id)
      else Decoded(ResetAll(d[0], ResetsAt(d, 1, d[0])))
    else if id == 0x03 then if |d| != 1 then Stale(B2M, id) else Decoded(Ctrl(d[0]))
    else Rejected
  }

  function DecodeM2B(id: byte, d: seq<byte>): Outcome {
    if id == 0x00 then
      if |d| < 2 || (|d| - 2) % CONFIG_SIZE != 0 then Stale(M2B, id)
      else Decoded(SlaveCfgRsp(d[0], d[1], ConfigsAt(d, 2, d[1])))
    else if id == 0x01 then if |d| != 2 then Stale(M2B, id) else Decoded(ModeRsp(d[0], d[1]))
    else if id == 0x02 then
      if |d| < 2 || (|d| - 2) % RESET_SIZE != 0 then Stale(M2B, id)
      else Decoded(ResetRsp(d[0], d[1], ResetsAt(d, 2, d[1])))
    else if id == 0x03 then if |d| != 2 then Stale(M2B, id) else Decoded(CtrlRsp(d[0], d[1]))
    else Rejected
  }

  function DecodeS2B(id: byte, d: seq<byte>): Outcome {
    if id == 0x00 then
      if |d| < 2 || |d| != 2 + Word(d[0], d[1]) as int then Stale(S2B, id)
      else Decoded(CondData(Word(d[0], d[1]), d[2..]))
    else if id == 0x01 then
      if |d| < 2 || |d| != 2 + Word(d[0], d[1]) as int then Stale(S2B, id)
      else Decoded(ResData(Word(d[0], d[1]), d[2..]))
    else if id == 0x02 then if |d| != 2 then Stale(S2B, id) else Decoded(ClipData(Word(d[0], d[1])))
    else Rejected
  }

  function Decode(kind: byte, id: byte, d: seq<byte>): Outcome {
    if kind == M2S then DecodeM2S(id, d)
    else if kind == S2M then DecodeS2M(id, d)
    else if kind == B2M then DecodeB2M(id, d)
    else if kind == M2B then DecodeM2B(id, d)
    else if kind == S2B then DecodeS2B(id, d)
    else Rejected
  }

  /** The bytes of a counter the other way round. */
  function Swapped(w: word): word { Word(Hi(w), Lo(w)) }

  /** What a receiver makes of `m`. */
  function Received(m: Msg): Outcome {
    match m
    case ResAck(status, slot, interval, total, start, res) =>
      Decoded(ResAck(status, slot, interval, Swapped(total), Swapped(start), Swapped(res)))
    case SlaveCfg(num, configs) => Decoded(SlaveCfg(num, configs[..Min(num, |configs|)]))
    case ResetAll(num, resets) => Decoded(ResetAll(num, resets[..Min(num, |resets|)]))
    case SlaveCfgRsp(status, num, configs) => Decoded(SlaveCfgRsp(status, num, configs[..Min(num, |configs|)]))
    case ResetRsp(status, num, resets) => Decoded(ResetRsp(status, num, resets[..Min(num, |resets|)]))
    case CondData(length, data) => if length as int == |data| then Decoded(m) else Stale(S2B, 0x00)
    case ResData(length, data) => if length as int == |data| then Decoded(m) else Stale(S2B, 0x01)
    case _ => Decoded(m)
  }

  lemma WordRoundTrip(w: word)
    ensures Word(Lo(w), Hi(w)) == w && Word(Hi(w), Lo(w)) == Swapped(w)
  {
  }

  lemma DecodeM2SPayload(m: Msg)
    requires PacketType(m) == M2S
    ensures Decode(M2S, MessageId(m), Payload(m)) == Decoded(m)
  {
    match m
    case Sync(mode, timestamp) =>
      Le32RoundTrip(timestamp);
      assert Payload(m)[1..5] == Le32(timestamp);
      var d := Payload(m);
      assert [d[1], d[2], d[3], d[4]] == Le32(timestamp);
    case CondCfg(_, _, total, start, n) =>
      WordRoundTrip(total);
      WordRoundTrip(start);
      WordRoundTrip(n);
    case ResCfg(_, _, total, start, n) =>
      WordRoundTrip(total);
      WordRoundTrip(start);
      WordRoundTrip(n);
    case ClipCfg(_, _, pin) => WordRoundTrip(pin);
    case Rst(_, clipLed) => WordRoundTrip(clipLed);
    case _ =>
  }

  lemma DecodeS2MPayload(m: Msg)
    requires PacketType(m) == S2M
    ensures Decode(S2M, MessageId(m), Payload(m)) == Received(m)
  {
    match m
    case CondAck(_, _, _, total, start, n) =>
      WordRoundTrip(total);
      WordRoundTrip(start);
      WordRoundTrip(n);
    case ResAck(_, _, _, total, start, n) =>
      WordRoundTrip(total);
      WordRoundTrip(start);
      WordRoundTrip(n);
    case ClipAck(_, _, _, pin) => WordRoundTrip(pin);
    case RstAck(_, _, clipLed) => WordRoundTrip(clipLed);
  }

  lemma WholeRecords(n: nat)
    ensures CONFIG_SIZE * n % CONFIG_SIZE == 0 && RESET_SIZE * n % RESET_SIZE == 0
  {
  }

  lemma DecodeLists(d: seq<byte>, n: nat)
    ensures |d| == 1 + CONFIG_SIZE * n ==> DecodeB2M(0x00, d) == Decoded(SlaveCfg(d[0], ConfigsAt(d, 1, d[0])))
    ensures |d| == 2 + CONFIG_SIZE * n ==>
              DecodeM2B(0x00, d) == Decoded(SlaveCfgRsp(d[0], d[1], ConfigsAt(d, 2, d[1])))
    ensures |d| == 1 + RESET_SIZE * n ==> DecodeB2M(0x02, d) == Decoded(ResetAll(d[0], ResetsAt(d, 1, d[0])))
    ensures |d| == 2 + RESET_SIZE * n ==>
              DecodeM2B(0x02, d) == Decoded(ResetRsp(d[0], d[1], ResetsAt(d, 2, d[1])))
  {
    WholeRecords(n);
  }

  lemma DecodeConfigs(num: byte, configs: seq<Config>, status: byte)
    ensures DecodeB2M(0x00, [num] + ConfigsBytes(configs))
         == Decoded(SlaveCfg(num, configs[..Min(num, |configs|)]))
    ensures DecodeM2B(0x00, [status, num] + ConfigsBytes(configs))
         == Decoded(SlaveCfgRsp(status, num, configs[..Min(num, |configs|)]))
  {
    var pre1, pre2, body := [num], [status, num], ConfigsBytes(configs);
    ConfigsRoundTrip(pre1, configs, num);
    ConfigsRoundTrip(pre2, configs, num);
    DecodeLists(pre1 + body, |configs|);
    DecodeLists(pre2 + body, |configs|);
  }

  lemma DecodeResets(num: byte, resets: seq<Reset>, status: byte)
    ensures DecodeB2M(0x02, [num] + ResetsBytes(resets))
         == Decoded(ResetAll(num, resets[..Min(num, |resets|)]))
    ensures DecodeM2B(0x02, [status, num] + ResetsBytes(resets))
         == Decoded(ResetRsp(status, num, resets[..Min(num, |resets|)]))
  {
    var pre1, pre2, body := [num], [status, num], ResetsBytes(resets);
    ResetsRoundTrip(pre1, resets, num);
    ResetsRoundTrip(pre2, resets, num);
    DecodeLists(pre1 + body, |resets|);
    DecodeLists(pre2 + body, |resets|);
  }

  lemma DataParts(length: word, data: seq<byte>)
    ensures var d := Le16(length) + data;
            |d| == 2 + |data| && Word(d[0], d[1]) == length && d[2..] == data
  {
    WordRoundTrip(length);
  }

  lemma DecodeData(d: seq<byte>, length: word, data: seq<byte>)
    requires |d| == 2 + |data| && Word(d[0], d[1]) == length && d[2..] == data
    ensures DecodeS2B(0x00, d) == if length as int == |data| then Decoded(CondData(length, data)) else Stale(S2B, 0x00)
    ensures DecodeS2B(0x01, d) == if length as int == |data| then Decoded(ResData(length, data)) else Stale(S2B, 0x01)
  {
  }

  lemma DecodeS2BPayload(m: Msg)
    requires PacketType(m) == S2B
    ensures Decode(S2B, MessageId(m), Payload(m)) == Received(m)
  {
    match m
    case CondData(length, data) =>
      DataParts(length, data);
      DecodeData(Payload(m), length, data);
    case ResData(length, data) =>
      DataParts(length, data);
      DecodeData(Payload(m), length, data);
    case ClipData(pin) => WordRoundTrip(pin);
  }

  lemma DecodePayload(m: Msg)
    ensures Decode(PacketType(m), MessageId(m), Payload(m)) == Received(m)
  {
    if PacketType(m) == M2S {
      DecodeM2SPayload(m);
    } else if PacketType(m) == S2M {
      DecodeS2MPayload(m);
    } else if PacketType(m) == S2B {
      DecodeS2BPayload(m);
    } else {
      match m
      case SlaveCfg(num, configs) => DecodeConfigs(num, configs, 0);
      case SlaveCfgRsp(status, num, configs) => DecodeConfigs(num, configs, status);
      case ResetAll(num, resets) => DecodeResets(num, resets, 0);
      case ResetRsp(status, num, resets) => DecodeResets(num, resets, status);
      case _ =>
    }
  }

  /** The messages that survive the trip: lists no longer than announced, data as long as announced. */
  predicate WellFormed(m: Msg) {
    match m
    case ResAck(_, _, _, total, start, res) => Lo(total) == Hi(total) && Lo(start) == Hi(start) && Lo(res) == Hi(res)
    case SlaveCfg(num, configs) => |configs| <= num
    case ResetAll(num, resets) => |resets| <= num
    case SlaveCfgRsp(_, num, configs) => |configs| <= num
    case ResetRsp(_, num, resets) => |resets| <= num
    case CondData(length, data) => length as int == |data|
    case ResData(length, data) => length as int == |data|
    case _ => true
  }

  lemma SwappedSame(w: word)
    ensures Swapped(w) == w <==> Lo(w) == Hi(w)
  {
  }

  /** A message is recovered if and only if it is well formed. */
  lemma MessageRoundTrip(m: Msg)
    ensures Decode(PacketType(m), MessageId(m), Payload(m)) == Decoded(m) <==> WellFormed(m)
  {
    DecodePayload(m);
    match m
    case ResAck(status, slot, interval, total, start, res) =>
      SwappedSame(total);
      SwappedSame(start);
      SwappedSame(res);
    case SlaveCfg(num, configs) => assert configs[..Min(num, |configs|)] == configs <==> |configs| <= num;
    case SlaveCfgRsp(_, num, configs) => assert configs[..Min(num, |configs|)] == configs <==> |configs| <= num;
    case ResetAll(num, resets) => assert resets[..Min(num, |resets|)] == resets <==> |resets| <= num;
    case ResetRsp(_, num, resets) => assert resets[..Min(num, |resets|)] == resets <==> |resets| <= num;
    case _ =>
  }

  // ---------- nothing else is decoded ----------

  lemma Le32Back(d: seq<byte>)
    requires |d| == 4
    ensures Le32(FromLe32(d)) == d
  {
    FourBytesBack(d[0], d[1], d[2], d[3]);
  }

  lemma FourBytesBack(a: byte, b: byte, c: byte, d: byte)
    ensures Le32(a as int + 0x100 * b as int + 0x1_0000 * c as int + 0x100_0000 * d as int) == [a, b, c, d]
  {
    var v := a as int + 0x100 * b as int + 0x1_0000 * c as int + 0x100_0000 * d as int;
    assert v / 0x100 == b as int + 0x100 * c as int + 0x1_0000 * d as int;
    assert v / 0x1_0000 == c as int + 0x100 * d as int;
    assert v / 0x100_0000 == d;
  }

  lemma WordBack(lo: byte, hi: byte)
    ensures Lo(Word(lo, hi)) == lo && Hi(Word(lo, hi)) == hi
  {
  }

  lemma ConfigBack(d: seq<byte>)
    requires |d| == CONFIG_SIZE
    ensures ConfigBytes(ConfigOf(d)) == d
  {
    Le32Back(d[..4]);
    WordBack(d[7], d[8]);
  }

  lemma ResetBack(d: seq<byte>)
    requires |d| == RESET_SIZE
    ensures ResetBytes(ResetOf(d)) == d
  {
    Le32Back(d[..4]);
    WordBack(d[5], d[6]);
  }

  lemma {:induction false} ConfigsBack(d: seq<byte>, offset: nat, n: nat)
    requires offset <= |d|
    ensures var bs := ConfigsBytes(ConfigsAt(d, offset, n));
            offset + |bs| <= |d| && bs == d[offset..offset + |bs|]
    decreases n
  {
    if n > 0 && offset + CONFIG_SIZE <= |d| {
      var head := d[offset..offset + CONFIG_SIZE];
      var tail := ConfigsAt(d, offset + CONFIG_SIZE, n - 1);
      ConfigBack(head);
      ConfigsBack(d, offset + CONFIG_SIZE, n - 1);
      assert ([ConfigOf(head)] + tail)[1..] == tail;
    }
  }

  lemma {:induction false} ResetsBack(d: seq<byte>, offset: nat, n: nat)
    requires offset <= |d|
    ensures var bs := ResetsBytes(ResetsAt(d, offset, n));
            offset + |bs| <= |d| && bs == d[offset..offset + |bs|]
    decreases n
  {
    if n > 0 && offset + RESET_SIZE <= |d| {
      var head := d[offset..offset + RESET_SIZE];
      var tail := ResetsAt(d, offset + RESET_SIZE, n - 1);
      ResetBack(head);
      ResetsBack(d, offset + RESET_SIZE, n - 1);
      assert ([ResetOf(head)] + tail)[1..] == tail;
    }
  }

  /** A message that was sent so: the resistance reply with its counters swapped back. */
  function SentAs(m: Msg): Msg {
    match m
    case ResAck(status, slot, interval, total, start, res) =>
      ResAck(status, slot, interval, Swapped(total), Swapped(start), Swapped(res))
    case _ => m
  }

  /** The messages of which a longer payload is decoded as well. */
  predicate Open(m: Msg) {
    m.Sync? || m.Rst? || m.SlaveCfg? || m.ResetAll? || m.SlaveCfgRsp? || m.ResetRsp?
  }

  /** The payload is the message's own, or begins with it for those of which more is ignored. */
  predicate Explains(m: Msg, d: seq<byte>) {
    if Open(m) then Payload(SentAs(m)) <= d else Payload(SentAs(m)) == d
  }

  lemma DecodedM2S(id: byte, d: seq<byte>, m: Msg)
    requires Decode(M2S, id, d) == Decoded(m)
    ensures PacketType(m) == M2S && MessageId(m) == id && Explains(m, d)
  {
    if id == 0x00 {
      Le32Back([d[1], d[2], d[3], d[4]]);
      assert Payload(m) == [d[0]] + [d[1], d[2], d[3], d[4]];
    } else if id == 0x10 || id == 0x11 {
      WordBack(d[2], d[3]);
      WordBack(d[4], d[5]);
      WordBack(d[6], d[7]);
    } else if id == 0x12 {
      WordBack(d[2], d[3]);
    } else if id == 0x30 {
      WordBack(d[1], d[2]);
    }
  }

  lemma DecodedS2M(id: byte, d: seq<byte>, m: Msg)
    requires Decode(S2M, id, d) == Decoded(m)
    ensures PacketType(m) == S2M && MessageId(m) == id && Explains(m, d)
  {
    if id == 0x10 || id == 0x11 {
      WordBack(d[3], d[4]);
      WordBack(d[5], d[6]);
      WordBack(d[7], d[8]);
      SwapBack(d[3], d[4]);
      SwapBack(d[5], d[6]);
      SwapBack(d[7], d[8]);
    } else if id == 0x12 {
      WordBack(d[3], d[4]);
    } else if id == 0x30 {
      WordBack(d[2], d[3]);
    }
  }

  lemma SwapBack(a: byte, b: byte)
    ensures Hi(Swapped(Word(a, b))) == a && Lo(Swapped(Word(a, b))) == b
  {
    WordBack(a, b);
    WordBack(b, a);
  }

  lemma PrefixJoin(d: seq<byte>, head: seq<byte>, bs: seq<byte>)
    requires head <= d && |head| + |bs| <= |d| && bs == d[|head|..|head| + |bs|]
    ensures head + bs <= d
  {
    assert head == d[..|head|];
  }

  lemma ConfigsArePrefix(d: seq<byte>, head: seq<byte>, n: nat)
    requires head <= d
    ensures head + ConfigsBytes(ConfigsAt(d, |head|, n)) <= d
  {
    ConfigsBack(d, |head|, n);
    PrefixJoin(d, head, ConfigsBytes(ConfigsAt(d, |head|, n)));
  }

  lemma ResetsArePrefix(d: seq<byte>, head: seq<byte>, n: nat)
    requires head <= d
    ensures head + ResetsBytes(ResetsAt(d, |head|, n)) <= d
  {
    ResetsBack(d, |head|, n);
    PrefixJoin(d, head, ResetsBytes(ResetsAt(d, |head|, n)));
  }

  lemma DecodedB2M(id: byte, d: seq<byte>, m: Msg)
    requires Decode(B2M, id, d) == Decoded(m)
    ensures PacketType(m) == B2M && MessageId(m) == id && Explains(m, d)
  {
    if id == 0x00 {
      ConfigsArePrefix(d, [d[0]], d[0]);
      assert m == SlaveCfg(d[0], ConfigsAt(d, 1, d[0]));
    } else if id == 0x02 {
      ResetsArePrefix(d, [d[0]], d[0]);
      assert m == ResetAll(d[0], ResetsAt(d, 1, d[0]));
    }
  }

  lemma DecodedM2B(id: byte, d: seq<byte>, m: Msg)
    requires Decode(M2B, id, d) == Decoded(m)
    ensures PacketType(m) == M2B && MessageId(m) == id && Explains(m, d)
  {
    if id == 0x00 {
      ConfigsArePrefix(d, [d[0], d[1]], d[1]);
      assert m == SlaveCfgRsp(d[0], d[1], ConfigsAt(d, 2, d[1]));
    } else if id == 0x02 {
      ResetsArePrefix(d, [d[0], d[1]], d[1]);
      assert m == ResetRsp(d[0], d[1], ResetsAt(d, 2, d[1]));
    }
  }

  lemma DataBack(d: seq<byte>, lo: byte, hi: byte)
    requires |d| >= 2 && d[0] == lo && d[1] == hi
    ensures Le16(Word(lo, hi)) + d[2..] == d
  {
    WordBack(lo, hi);
    assert Le16(Word(lo, hi)) == [lo, hi];
    assert d == [lo, hi] + d[2..];
  }

  /** `m` is the report `id` whose payload begins with the word `w`. */
  ghost predicate IsReport(id: byte, m: Msg, w: word, rest: seq<byte>) {
    || (id == 0x00 && m == CondData(w, rest)) || (id == 0x01 && m == ResData(w, rest))
    || (id == 0x02 && rest == [] && m == ClipData(w))
  }

  lemma ReportIs(id: byte, d: seq<byte>, m: Msg)
    requires DecodeS2B(id, d) == Decoded(m)
    ensures |d| >= 2 && IsReport(id, m, Word(d[0], d[1]), d[2..])
  {
  }

  lemma ReportExplains(id: byte, m: Msg, w: word, rest: seq<byte>)
    requires IsReport(id, m, w, rest)
    ensures PacketType(m) == S2B && MessageId(m) == id && Explains(m, Le16(w) + rest)
  {
    if m.ClipData? {
      assert Le16(w) + rest == Le16(w);
    }
  }

  lemma DecodedS2B(id: byte, d: seq<byte>, m: Msg, lo: byte, hi: byte)
    requires |d| >= 2 && d[0] == lo && d[1] == hi && IsReport(id, m, Word(lo, hi), d[2..])
    ensures PacketType(m) == S2B && MessageId(m) == id && Explains(m, d)
  {
    DataBack(d, lo, hi);
    ReportExplains(id, m, Word(lo, hi), d[2..]);
  }

  /**
   The other direction of the round trip: whatever is decoded is the payload of just that message,
   or for six kinds begins with it.
   */
  lemma DecodedIsPayload(kind: byte, id: byte, d: seq<byte>, m: Msg)
    requires Decode(kind, id, d) == Decoded(m)
    ensures PacketType(m) == kind && MessageId(m) == id && Explains(m, d)
  {
    if kind == M2S {
      DecodedM2S(id, d, m);
    } else if kind == S2M {
      DecodedS2M(id, d, m);
    } else if kind == S2B {
      ReportIs(id, d, m);
      DecodedS2B(id, d, m, d[0], d[1]);
    } else if kind == B2M {
      DecodedB2M(id, d, m);
    } else {
      DecodedM2B(id, d, m);
    }
  }

  /** Every other decoder returns before it reads; these two read past a payload that is too short. */
  lemma ReadsPastEnd(kind: byte, id: byte, d: seq<byte>)
    ensures Decode(kind, id, d) == Wild <==> kind == M2S && ((id == 0x00 && |d| < 5) || (id == 0x30 && |d| < 3))
  {
  }

  // ---------- packets and frames ----------

  const HEADER_SIZE := 7
  const BROADCAST: dword := 0xFFFF_FFFF

  /** The address and the device status a packet carries besides its message, where it has them. */
  datatype Route = Route(address: dword, status: word)

  function PacketBytes(m: Msg, route: Route): seq<byte> {
    [MessageId(m)]
    + (if PacketType(m) == B2M || PacketType(m) == M2B then [] else Le32(route.address))
    + (if PacketType(m) == S2B then Le16(route.status) else [])
    + Payload(m)
  }

  function PrefixSize(kind: byte): nat {
    if kind == B2M || kind == M2B then 1 else if kind == S2B then 7 else 5
  }

  /** The length field holds 16 bits of the packet's length. */
  function Frame(kind: byte, packet: seq<byte>, fragment: byte, more: byte): seq<byte> {
    [0xAB, 0xCD, kind, fragment, more] + Le16(|packet| % 0x1_0000) + packet
  }

  function Unframe(raw: seq<byte>): Option<(byte, seq<byte>)> {
    if |raw| < HEADER_SIZE || raw[0] != 0xAB || raw[1] != 0xCD then None
    else if |raw| != HEADER_SIZE + Word(raw[5], raw[6]) as int then None
    else Some((raw[2], raw[HEADER_SIZE..]))
  }

  datatype Role = MASTER | SLAVE(uid: dword) | BACKEND

  predicate Parses(role: Role, kind: byte) {
    match role
    case MASTER => kind == S2M || kind == B2M || kind == S2B
    case SLAVE(_) => kind == M2S
    case BACKEND => kind == M2B
  }

  /** `FrameParser::parse` as built for a role. */
  function Parse(role: Role, raw: seq<byte>): Outcome {
    match Unframe(raw)
    case None => Rejected
    case Some((kind, packet)) =>
      if !Parses(role, kind) || |packet| < PrefixSize(kind) then Rejected
      else if role.SLAVE? && FromLe32(packet[1..5]) != BROADCAST && FromLe32(packet[1..5]) != role.uid then Rejected
      else Decode(kind, packet[0], packet[PrefixSize(kind)..])
  }

  lemma FrameHeads(kind: byte, packet: seq<byte>, fragment: byte, more: byte, n: word)
    ensures var raw := [0xAB, 0xCD, kind, fragment, more] + Le16(n) + packet;
            && |raw| == HEADER_SIZE + |packet| && raw[0] == 0xAB && raw[1] == 0xCD && raw[2] == kind
            && Word(raw[5], raw[6]) == n && raw[HEADER_SIZE..] == packet
  {
    var raw := [0xAB, 0xCD, kind, fragment, more] + Le16(n) + packet;
    assert raw[5] == Lo(n) && raw[6] == Hi(n);
  }

  lemma UnframeHeaded(raw: seq<byte>, kind: byte, packet: seq<byte>, fragment: byte, more: byte, n: word)
    requires raw == [0xAB, 0xCD, kind, fragment, more] + Le16(n) + packet
    requires n as int == |packet| % 0x1_0000
    ensures Unframe(raw) == if |packet| < 0x1_0000 then Some((kind, packet)) else None
  {
    FrameHeads(kind, packet, fragment, more, n);
    CutLength(|packet|);
  }

  /** A frame is opened again exactly when the length of its packet fits the length field. */
  lemma FrameRoundTrip(kind: byte, packet: seq<byte>, fragment: byte, more: byte)
    ensures Unframe(Frame(kind, packet, fragment, more))
         == if |packet| < 0x1_0000 then Some((kind, packet)) else None
  {
    var n: word := |packet| % 0x1_0000;
    var raw := Frame(kind, packet, fragment, more);
    UnframeHeaded(raw, kind, packet, fragment, more, n);
  }

  /** Just the frames are opened: delimiter, length and contents fit each other. */
  lemma OnlyFramesOpen(raw: seq<byte>, kind: byte, packet: seq<byte>)
    ensures Unframe(raw) == Some((kind, packet))
       <==> |packet| < 0x1_0000 && exists fragment: byte, more: byte :: raw == Frame(kind, packet, fragment, more)
  {
    if Unframe(raw) == Some((kind, packet)) {
      WordBack(raw[5], raw[6]);
      FrameFrom(raw, kind, packet, |packet|);
    }
    if fragment: byte, more: byte :| raw == Frame(kind, packet, fragment, more) {
      FrameRoundTrip(kind, packet, fragment, more);
    }
  }

  lemma FrameFrom(raw: seq<byte>, kind: byte, packet: seq<byte>, n: word)
    requires |raw| == HEADER_SIZE + |packet| && |packet| == n as int && packet == raw[HEADER_SIZE..]
    requires raw[0] == 0xAB && raw[1] == 0xCD && raw[2] == kind && Lo(n) == raw[5] && Hi(n) == raw[6]
    ensures raw == Frame(kind, packet, raw[3], raw[4])
  {
    assert raw == raw[..HEADER_SIZE] + raw[HEADER_SIZE..];
    assert raw[..HEADER_SIZE] == [0xAB, 0xCD, kind, raw[3], raw[4]] + Le16(n);
  }

  lemma PacketParts(m: Msg, route: Route)
    ensures var p, k := PacketBytes(m, route), PrefixSize(PacketType(m));
            && k <= |p| == k + |Payload(m)| && p[0] == MessageId(m) && p[k..] == Payload(m)
            && (PacketType(m) == M2S ==> FromLe32(p[1..5]) == route.address)
  {
    var p := PacketBytes(m, route);
    if PacketType(m) != B2M && PacketType(m) != M2B {
      assert p[1..5] == Le32(route.address);
      Le32RoundTrip(route.address);
    }
  }

  /**
   The whole trip: a frame of at most 65535 bytes reaches each role that parses its kind, and a
   slave it is addressed to, as the message `Received`; everything else is rejected.
   */
  lemma ParseRoundTrip(role: Role, m: Msg, route: Route, fragment: byte, more: byte)
    ensures Parse(role, Frame(PacketType(m), PacketBytes(m, route), fragment, more))
         == if |PacketBytes(m, route)| < 0x1_0000 && Parses(role, PacketType(m))
               && (role.SLAVE? ==> route.address == BROADCAST || route.address == role.uid)
            then Received(m) else Rejected
  {
    FrameRoundTrip(PacketType(m), PacketBytes(m, route), fragment, more);
    PacketParts(m, route);
    DecodePayload(m);
  }

  /** The reports and answers of slaves, and the commands of the backend. */
  predicate ForMaster(m: Msg) {
    || m.SlaveCfg? || m.ModeCfg? || m.ResetAll? || m.Ctrl?
    || m.CondAck? || m.ResAck? || m.ClipAck? || m.RstAck?
    || m.CondData? || m.ResData? || m.ClipData?
  }

  predicate ForSlave(m: Msg) {
    || m.Sync? || m.CondCfg? || m.ResCfg? || m.ClipCfg?
    || m.ReadCondData? || m.ReadResData? || m.ReadClipData? || m.Rst?
  }

  predicate ForBackend(m: Msg) { m.SlaveCfgRsp? || m.ModeRsp? || m.ResetRsp? || m.CtrlRsp? }

  lemma KindsMeant(m: Msg)
    ensures Parses(MASTER, PacketType(m)) <==> ForMaster(m)
    ensures Parses(BACKEND, PacketType(m)) <==> ForBackend(m)
    ensures forall uid: dword :: Parses(SLAVE(uid), PacketType(m)) <==> ForSlave(m)
    ensures ForMaster(m) || ForSlave(m) || ForBackend(m)
  {
  }

  /** Who receives what: every message reaches the one role it is meant for, if it fits a frame. */
  lemma Delivered(m: Msg, route: Route, fragment: byte, more: byte, uid: dword)
    ensures ForMaster(m) || ForSlave(m) || ForBackend(m)
    ensures var raw := Frame(PacketType(m), PacketBytes(m, route), fragment, more);
            var fits := |PacketBytes(m, route)| <= 65535;
            && Parse(MASTER, raw) == (if fits && ForMaster(m) then Received(m) else Rejected)
            && Parse(BACKEND, raw) == (if fits && ForBackend(m) then Received(m) else Rejected)
            && Parse(SLAVE(uid), raw)
               == if fits && ForSlave(m) && (route.address == 0xFFFF_FFFF || route.address == uid) then Received(m)
                  else Rejected
  {
    KindsMeant(m);
    ParseRoundTrip(MASTER, m, route, fragment, more);
    ParseRoundTrip(BACKEND, m, route, fragment, more);
    ParseRoundTrip(SLAVE(uid), m, route, fragment, more);
  }

  /** A sync without a payload, and a reset without one, broadcast to all slaves. */
  const SHORT_SYNC: seq<byte> := [0xAB, 0xCD, M2S, 0, 0, 5, 0, 0x00, 0xFF, 0xFF, 0xFF, 0xFF]
  const SHORT_RESET: seq<byte> := [0xAB, 0xCD, M2S, 0, 0, 5, 0, 0x30, 0xFF, 0xFF, 0xFF, 0xFF]

  /** A whole frame for the slave `uid` whose sync or reset is too short. */
  predicate TooShort(uid: dword, raw: seq<byte>) {
    match Unframe(raw)
    case None => false
    case Some((kind, packet)) =>
      && kind == M2S && |packet| >= PrefixSize(M2S)
      && (FromLe32(packet[1..5]) == BROADCAST || FromLe32(packet[1..5]) == uid)
      && ((packet[0] == 0x00 && |packet| < 10) || (packet[0] == 0x30 && |packet| < 8))
  }

  /** Of all received bytes exactly such frames make a receiver read past the end, and only a slave. */
  lemma FramesReadPastEnd(role: Role, raw: seq<byte>)
    ensures Parse(role, raw) == Wild <==> role.SLAVE? && TooShort(role.uid, raw)
  {
    match Unframe(raw)
    case None =>
    case Some((kind, packet)) =>
      if |packet| >= PrefixSize(kind) {
        ReadsPastEnd(kind, packet[0], packet[PrefixSize(kind)..]);
      }
  }

  lemma ShortFramesReadPastEnd(uid: dword)
    ensures Parse(SLAVE(uid), SHORT_SYNC) == Wild && Parse(SLAVE(uid), SHORT_RESET) == Wild
  {
    ShortFrame(SHORT_SYNC);
    ShortFrame(SHORT_RESET);
    FramesReadPastEnd(SLAVE(uid), SHORT_SYNC);
    FramesReadPastEnd(SLAVE(uid), SHORT_RESET);
  }

  lemma ShortFrame(raw: seq<byte>)
    requires |raw| == HEADER_SIZE + 5 && raw[..HEADER_SIZE] == [0xAB, 0xCD, M2S, 0, 0, 5, 0]
    requires raw[8..] == [0xFF, 0xFF, 0xFF, 0xFF]
    ensures Unframe(raw) == Some((M2S, raw[HEADER_SIZE..])) && FromLe32(raw[HEADER_SIZE..][1..5]) == BROADCAST
  {
    assert raw[..HEADER_SIZE][0] == raw[0] && raw[..HEADER_SIZE][1] == raw[1] && raw[..HEADER_SIZE][2] == raw[2]
           && raw[..HEADER_SIZE][5] == raw[5] && raw[..HEADER_SIZE][6] == raw[6];
    assert raw[HEADER_SIZE..][1..5] == raw[8..];
  }

  // ---------- the format on the wire ----------

  /** A frame as it is sent, unfragmented. */
  function Sent(m: Msg, address: dword, status: word): seq<byte> {
    Frame(PacketType(m), PacketBytes(m, Route(address, status)), 0, 0)
  }

  lemma FrameOf(m: Msg, address: dword, status: word, prefix: seq<byte>, payload: seq<byte>, n: byte)
    requires Payload(m) == payload && 1 + |prefix| + |payload| == n as int
    requires prefix == if PacketType(m) == B2M || PacketType(m) == M2B then []
                       else if PacketType(m) == S2B then Le32(address) + Le16(status) else Le32(address)
    ensures Sent(m, address, status)
         == [0xAB, 0xCD, PacketType(m), 0, 0, n, 0] + [MessageId(m)] + prefix + payload
  {
    PacketOf(m, address, status, prefix, payload);
    FrameHead(PacketType(m), [MessageId(m)] + prefix + payload, n);
    var head := [0xAB, 0xCD, PacketType(m), 0, 0, n, 0];
    assert head + ([MessageId(m)] + prefix + payload) == head + [MessageId(m)] + prefix + payload;
  }

  lemma PacketOf(m: Msg, address: dword, status: word, prefix: seq<byte>, payload: seq<byte>)
    requires Payload(m) == payload
    requires prefix == if PacketType(m) == B2M || PacketType(m) == M2B then []
                       else if PacketType(m) == S2B then Le32(address) + Le16(status) else Le32(address)
    ensures PacketBytes(m, Route(address, status)) == [MessageId(m)] + prefix + payload
  {
  }

  lemma FrameHead(kind: byte, packet: seq<byte>, n: byte)
    requires |packet| == n as int
    ensures Frame(kind, packet, 0, 0) == [0xAB, 0xCD, kind, 0, 0, n, 0] + packet
  {
    assert Le16(n) == [n, 0];
  }

  const ID: dword := 0x5B48_3237
  const OTHER: dword := 0x5548_3237
  const ID_BYTES: seq<byte> := [0x37, 0x32, 0x48, 0x5B]
  const ID_AND_STATUS: seq<byte> := [0x37, 0x32, 0x48, 0x5B, 0x55, 0xFF]

  lemma KnownPrefixes()
    ensures Le32(ID) == ID_BYTES && Le32(ID) + Le16(0xFF55) == ID_AND_STATUS
  {
  }

  /** Known frames of the master, for each of its messages to a slave. */
  lemma KnownSlaveFrames()
    ensures Sent(Sync(2, 0x7856_3412), ID, 0)
         == [0xAB, 0xCD, 0, 0, 0, 10, 0] + [0x00] + ID_BYTES + [2, 0x12, 0x34, 0x56, 0x78]
    ensures Sent(CondCfg(1, 10, 0x304, 0x506, 0x708), ID, 0)
         == [0xAB, 0xCD, 0, 0, 0, 13, 0] + [0x10] + ID_BYTES + [1, 10, 4, 3, 6, 5, 8, 7]
    ensures Sent(ResCfg(1, 10, 0x304, 0x506, 0x708), ID, 0)
         == [0xAB, 0xCD, 0, 0, 0, 13, 0] + [0x11] + ID_BYTES + [1, 10, 4, 3, 6, 5, 8, 7]
    ensures Sent(ClipCfg(10, 1, 0x203), ID, 0)
         == [0xAB, 0xCD, 0, 0, 0, 9, 0] + [0x12] + ID_BYTES + [10, 1, 3, 2]
    ensures Sent(ReadCondData(7), ID, 0)
         == [0xAB, 0xCD, 0, 0, 0, 6, 0] + [0x20] + ID_BYTES + [7]
    ensures Sent(ReadResData(7), ID, 0)
         == [0xAB, 0xCD, 0, 0, 0, 6, 0] + [0x21] + ID_BYTES + [7]
    ensures Sent(ReadClipData(7), ID, 0)
         == [0xAB, 0xCD, 0, 0, 0, 6, 0] + [0x22] + ID_BYTES + [7]
    ensures Sent(Rst(1, 0xF02), ID, 0)
         == [0xAB, 0xCD, 0, 0, 0, 8, 0] + [0x30] + ID_BYTES + [1, 2, 15]
  {
    KnownPrefixes();
    FrameOf(Sync(2, 0x7856_3412), ID, 0, ID_BYTES, [2, 0x12, 0x34, 0x56, 0x78], 10);
    FrameOf(CondCfg(1, 10, 0x304, 0x506, 0x708), ID, 0, ID_BYTES, [1, 10, 4, 3, 6, 5, 8, 7], 13);
    FrameOf(ResCfg(1, 10, 0x304, 0x506, 0x708), ID, 0, ID_BYTES, [1, 10, 4, 3, 6, 5, 8, 7], 13);
    FrameOf(ClipCfg(10, 1, 0x203), ID, 0, ID_BYTES, [10, 1, 3, 2], 9);
    FrameOf(ReadCondData(7), ID, 0, ID_BYTES, [7], 6);
    FrameOf(ReadResData(7), ID, 0, ID_BYTES, [7], 6);
    FrameOf(ReadClipData(7), ID, 0, ID_BYTES, [7], 6);
    FrameOf(Rst(1, 0xF02), ID, 0, ID_BYTES, [1, 2, 15], 8);
  }

  /** Known frames of a slave's four answers to the master. */
  lemma KnownAnswerFrames()
    ensures Sent(CondAck(0, 1, 10, 0x304, 0x506, 0x708), ID, 0)
         == [0xAB, 0xCD, 1, 0, 0, 14, 0] + [0x10] + ID_BYTES + [0, 1, 10, 4, 3, 6, 5, 8, 7]
    ensures Sent(ResAck(0, 1, 10, 0x304, 0x506, 0x708), ID, 0)
         == [0xAB, 0xCD, 1, 0, 0, 14, 0] + [0x11] + ID_BYTES + [0, 1, 10, 3, 4, 5, 6, 7, 8]
    ensures Sent(ClipAck(0, 10, 1, 0x203), ID, 0)
         == [0xAB, 0xCD, 1, 0, 0, 10, 0] + [0x12] + ID_BYTES + [0, 10, 1, 3, 2]
    ensures Sent(RstAck(0, 1, 0x203), ID, 0)
         == [0xAB, 0xCD, 1, 0, 0, 9, 0] + [0x30] + ID_BYTES + [0, 1, 3, 2]
  {
    KnownPrefixes();
    FrameOf(CondAck(0, 1, 10, 0x304, 0x506, 0x708), ID, 0, ID_BYTES, [0, 1, 10, 4, 3, 6, 5, 8, 7], 14);
    FrameOf(ResAck(0, 1, 10, 0x304, 0x506, 0x708), ID, 0, ID_BYTES, [0, 1, 10, 3, 4, 5, 6, 7, 8], 14);
    FrameOf(ClipAck(0, 10, 1, 0x203), ID, 0, ID_BYTES, [0, 10, 1, 3, 2], 10);
    FrameOf(RstAck(0, 1, 0x203), ID, 0, ID_BYTES, [0, 1, 3, 2], 9);
  }

  /** Known frames of its three reports, with the device status 0xFF55. */
  lemma KnownReportFrames()
    ensures Sent(CondData(2, [0x24, 0x25]), ID, 0xFF55)
         == [0xAB, 0xCD, 4, 0, 0, 11, 0] + [0x00] + ID_AND_STATUS + [2, 0, 0x24, 0x25]
    ensures Sent(ResData(2, [0x24, 0x25]), ID, 0xFF55)
         == [0xAB, 0xCD, 4, 0, 0, 11, 0] + [0x01] + ID_AND_STATUS + [2, 0, 0x24, 0x25]
    ensures Sent(ClipData(0x9078), ID, 0xFF55)
         == [0xAB, 0xCD, 4, 0, 0, 9, 0] + [0x02] + ID_AND_STATUS + [0x78, 0x90]
  {
    KnownPrefixes();
    FrameOf(CondData(2, [0x24, 0x25]), ID, 0xFF55, ID_AND_STATUS, [2, 0, 0x24, 0x25], 11);
    FrameOf(ResData(2, [0x24, 0x25]), ID, 0xFF55, ID_AND_STATUS, [2, 0, 0x24, 0x25], 11);
    FrameOf(ClipData(0x9078), ID, 0xFF55, ID_AND_STATUS, [0x78, 0x90], 9);
  }

  lemma TwoConfigs(c: Config, d: Config)
    ensures ConfigsBytes([c, d]) == ConfigBytes(c) + ConfigBytes(d)
  {
    assert [c, d][1..] == [d] && [d][1..] == [];
    assert ConfigsBytes([d]) == ConfigBytes(d);
  }

  lemma TwoResets(c: Reset, d: Reset)
    ensures ResetsBytes([c, d]) == ResetBytes(c) + ResetBytes(d)
  {
    assert [c, d][1..] == [d] && [d][1..] == [];
    assert ResetsBytes([d]) == ResetBytes(d);
  }

  const CONFIGS := [Config(ID, 2, 3, 1, 0x405), Config(OTHER, 6, 0, 0, 0)]
  const RESETS := [Reset(ID, 1, 0x3412), Reset(OTHER, 0, 0x3412)]

  const CONFIG_RECORDS: seq<byte> := [0x37, 0x32, 0x48, 0x5B, 2, 3, 1, 5, 4, 0x37, 0x32, 0x48, 0x55, 6, 0, 0, 0, 0]
  const RESET_RECORDS: seq<byte> := [0x37, 0x32, 0x48, 0x5B, 1, 0x12, 0x34, 0x37, 0x32, 0x48, 0x55, 0, 0x12, 0x34]

  lemma KnownRecords()
    ensures ConfigsBytes(CONFIGS) == CONFIG_RECORDS
    ensures ResetsBytes(RESETS) == RESET_RECORDS
  {
    TwoConfigs(CONFIGS[0], CONFIGS[1]);
    TwoResets(RESETS[0], RESETS[1]);
  }

  /** Known frames between backend and master: lists of two records, and the other commands and replies. */
  lemma KnownListFrames()
    ensures Sent(SlaveCfg(2, CONFIGS), 0, 0)
         == [0xAB, 0xCD, 2, 0, 0, 20, 0] + [0x00] + [] + ([2] + CONFIG_RECORDS)
    ensures Sent(ResetAll(2, RESETS), 0, 0)
         == [0xAB, 0xCD, 2, 0, 0, 16, 0] + [0x02] + [] + ([2] + RESET_RECORDS)
    ensures Sent(SlaveCfgRsp(0, 2, CONFIGS), 0, 0)
         == [0xAB, 0xCD, 3, 0, 0, 21, 0] + [0x00] + [] + ([0, 2] + CONFIG_RECORDS)
    ensures Sent(ResetRsp(0, 2, RESETS), 0, 0)
         == [0xAB, 0xCD, 3, 0, 0, 17, 0] + [0x02] + [] + ([0, 2] + RESET_RECORDS)
  {
    KnownRecords();
    FrameOf(SlaveCfg(2, CONFIGS), 0, 0, [], ([2] + CONFIG_RECORDS), 20);
    FrameOf(ResetAll(2, RESETS), 0, 0, [], ([2] + RESET_RECORDS), 16);
    FrameOf(SlaveCfgRsp(0, 2, CONFIGS), 0, 0, [], ([0, 2] + CONFIG_RECORDS), 21);
    FrameOf(ResetRsp(0, 2, RESETS), 0, 0, [], ([0, 2] + RESET_RECORDS), 17);
  }

  lemma KnownCommandFrames()
    ensures Sent(ModeCfg(1), 0, 0)
         == [0xAB, 0xCD, 2, 0, 0, 2, 0] + [0x01] + [] + [1]
    ensures Sent(Ctrl(1), 0, 0)
         == [0xAB, 0xCD, 2, 0, 0, 2, 0] + [0x03] + [] + [1]
    ensures Sent(ModeRsp(0, 1), 0, 0)
         == [0xAB, 0xCD, 3, 0, 0, 3, 0] + [0x01] + [] + [0, 1]
    ensures Sent(CtrlRsp(0, 1), 0, 0)
         == [0xAB, 0xCD, 3, 0, 0, 3, 0] + [0x03] + [] + [0, 1]
  {
    FrameOf(ModeCfg(1), 0, 0, [], [1], 2);
    FrameOf(Ctrl(1), 0, 0, [], [1], 2);
    FrameOf(ModeRsp(0, 1), 0, 0, [], [0, 1], 3);
    FrameOf(CtrlRsp(0, 1), 0, 0, [], [0, 1], 3);
  }
}
