/** How the master sends a configuration until a slave has echoed it. */
module Acknowledge {
  import opened Bytes
  import opened Protocol
  import Partition

  const TX_RETRY_TIMES := 3
  const COND_ACK_ID: byte := 0x10
  const COND_DATA_ID: byte := 0x00
  const CONDUCTION_TEST_INTERVAL: byte := 20

  /** The five fields of a conduction configuration. */
  datatype Fields = Fields(slot: byte, interval: byte, total: word, start: word, cond: word)

  /** What a configuration command asks of the slave in a time slot. */
  function Asked(cmd: Partition.CfgCmd, timeSlot: byte): Fields {
    Fields(timeSlot, CONDUCTION_TEST_INTERVAL, cmd.total, cmd.start, cmd.cond)
  }

  function Request(f: Fields): Msg { CondCfg(f.slot, f.interval, f.total, f.start, f.cond) }

  function Echo(status: byte, f: Fields): Msg { CondAck(status, f.slot, f.interval, f.total, f.start, f.cond) }

  function AckFields(m: Msg): Fields
    requires m.CondAck?
  {
    Fields(m.slot, m.interval, m.total, m.start, m.cond)
  }

  /** What the world does with one transmission. */
  datatype Attempt = NotSent | NoReply | Reply(raw: seq<byte>)

  /** What the master makes of one transmission. */
  datatype Heard = Unsent | Silence | Heard(outcome: Outcome)

  function Hear(a: Attempt): Heard {
    match a case NotSent => Unsent case NoReply => Silence case Reply(raw) => Heard(Parse(MASTER, raw))
  }

  function HearAll(attempts: seq<Attempt>): seq<Heard> {
    seq(|attempts|, i requires 0 <= i < |attempts| => Hear(attempts[i]))
  }

  /** The fields that the decoder's static reply object holds afterwards. */
  function HeldAfter(held: Fields, o: Outcome): Fields {
    if o.Decoded? && o.msg.CondAck? then AckFields(o.msg) else held
  }

  /**
   `msg->process()` at the master: a reply counts when its kind is the expected one and, for a
   configuration reply, all fields of the static object equal the request. A reply of the wrong
   size leaves that object as it was, and is compared all the same.
   */
  predicate Accepts(expected: byte, wanted: Fields, held: Fields, o: Outcome) {
    match o
    case Decoded(m) =>
      || (m.CondAck? && expected == COND_ACK_ID && AckFields(m) == wanted)
      || (m.CondData? && expected == COND_DATA_ID)
    case Stale(kind, id) =>
      || (kind == S2M && id == COND_ACK_ID && expected == COND_ACK_ID && held == wanted)
      || (kind == S2B && id == COND_DATA_ID && expected == COND_DATA_ID)
    case _ => false
  }

  /** The outcome of sending from transmission `i` on: success, and how many were made in all. */
  function Sends(expected: byte, wanted: Fields, held: Fields, heard: seq<Heard>, i: nat): (r: (bool, nat))
    requires i <= TX_RETRY_TIMES + 1 == |heard|
    ensures i <= r.1 <= TX_RETRY_TIMES + 1 && (i < |heard| ==> i < r.1)
    decreases TX_RETRY_TIMES + 1 - i
  {
    if i == TX_RETRY_TIMES + 1 then (false, i)
    else match heard[i]
      case Unsent => (false, i + 1)
      case Silence => Sends(expected, wanted, held, heard, i + 1)
      case Heard(o) =>
        if Accepts(expected, wanted, held, o) then (true, i + 1)
        else Sends(expected, wanted, HeldAfter(held, o), heard, i + 1)
  }

  class ProcessBase {
    var rspParsed: bool
    var expectedRspMsgId: byte
    var request: Fields
    var reply: Fields

    constructor ()
    {
      rspParsed, expectedRspMsgId := false, 0;
      request, reply := Fields(0, 0, 0, 0, 0), Fields(0, 0, 0, 0, 0);
    }

    /** `Slave2Master::CondCfgMsg::process`. */
    method ProcessCondAck()
      modifies this`rspParsed
      ensures rspParsed == (expectedRspMsgId == COND_ACK_ID && reply == request)
    {
      rspParsed := true;
      if expectedRspMsgId != COND_ACK_ID {
        rspParsed := false;
        return;
      }
      if reply.slot != request.slot {
        rspParsed := false;
      }
      if reply.interval != request.interval {
        rspParsed := false;
      }
      if reply.total != request.total {
        rspParsed := false;
      }
      if reply.start != request.start {
        rspParsed := false;
      }
      if reply.cond != request.cond {
        rspParsed := false;
      }
    }

    method RspProcess(raw: seq<byte>) returns (ok: bool)
      modifies this`rspParsed, this`reply
      ensures ok == Accepts(expectedRspMsgId, request, old(reply), Parse(MASTER, raw))
      ensures reply == HeldAfter(old(reply), Parse(MASTER, raw))
    {
      rspParsed := false;
      var outcome := Parse(MASTER, raw);
      match outcome {
        case Decoded(m) =>
          if m.CondAck? {
            reply := AckFields(m);
            ProcessCondAck();
          } else if m.CondData? {
            rspParsed := expectedRspMsgId == COND_DATA_ID;
          }
        case Stale(kind, id) =>
          if kind == S2M && id == COND_ACK_ID {
            ProcessCondAck();
          } else if kind == S2B && id == COND_DATA_ID {
            rspParsed := expectedRspMsgId == COND_DATA_ID;
          }
        case _ =>
      }
      ok := rspParsed;
    }

    /** `send_frame`; `attempts` is what becomes of each transmission. A broadcast waits for no answer. */
    method SendFrame(attempts: seq<Attempt>, rsp: bool) returns (ok: bool, sent: nat)
      requires |attempts| == TX_RETRY_TIMES + 1
      modifies this`rspParsed, this`reply
      ensures rsp ==> (ok, sent) == Sends(expectedRspMsgId, request, old(reply), HearAll(attempts), 0)
      ensures !rsp ==> ok == (attempts[0] != NotSent) && sent == 1 && reply == old(reply)
    {
      var sendCnd := 0;
      while sendCnd < TX_RETRY_TIMES + 1
        invariant 0 <= sendCnd <= TX_RETRY_TIMES + 1 && (!rsp ==> sendCnd == 0 && reply == old(reply))
        invariant Sends(expectedRspMsgId, request, old(reply), HearAll(attempts), 0)
               == Sends(expectedRspMsgId, request, reply, HearAll(attempts), sendCnd)
      {
        if attempts[sendCnd] == NotSent {
          return false, sendCnd + 1;
        }
        if !rsp {
          return true, sendCnd + 1;
        }
        if attempts[sendCnd].Reply? {
          var done := RspProcess(attempts[sendCnd].raw);
          if done {
            return true, sendCnd + 1;
          }
        }
        sendCnd := sendCnd + 1;
      }
      return false, sendCnd;
    }

    /** `__cond_config`: the request, its frame, and what comes of sending it. */
    method CondConfig(cmd: Partition.CfgCmd, timeSlot: byte, attempts: seq<Attempt>)
      returns (ok: bool, sent: nat, frame: seq<byte>)
      requires |attempts| == TX_RETRY_TIMES + 1
      modifies this
      ensures request == Asked(cmd, timeSlot) && frame == RequestFrame(cmd.id, request)
      ensures (ok, sent) == Sends(COND_ACK_ID, request, old(reply), HearAll(attempts), 0)
    {
      request := Fields(timeSlot, CONDUCTION_TEST_INTERVAL, cmd.total, cmd.start, cmd.cond);
      var packet := PacketBytes(Request(request), Route(cmd.id, 0));
      frame := Frame(M2S, packet, 0, 0);
      expectedRspMsgId := COND_ACK_ID;
      ok, sent := SendFrame(attempts, true);
    }
  }

  /** A whole reply that carries `f`. */
  ghost predicate Echoes(h: Heard, f: Fields) {
    exists status :: h == Heard(Decoded(Echo(status, f)))
  }

  ghost predicate Echoed(heard: seq<Heard>, i: nat, f: Fields) {
    i < |heard| && Echoes(heard[i], f)
  }

  ghost predicate Malformed(heard: seq<Heard>, i: nat) {
    i < |heard| && heard[i] == Heard(Stale(S2M, COND_ACK_ID))
  }

  /** What makes a reply acceptable, and what a reply that is not acceptable leaves behind. */
  lemma ReplyCases(f: Fields, held: Fields, o: Outcome)
    ensures Accepts(COND_ACK_ID, f, held, o) ==>
              (exists status :: o == Decoded(Echo(status, f))) || (held == f && o == Stale(S2M, COND_ACK_ID))
    ensures !Accepts(COND_ACK_ID, f, held, o) && HeldAfter(held, o) == f ==> held == f
    ensures Accepts(COND_ACK_ID, f, held, o) ==> HeldAfter(held, o) == f
  {
    if o.Decoded? && o.msg.CondAck? && AckFields(o.msg) == f {
      assert o == Decoded(Echo(o.msg.status, f));
    }
  }

  /**
   A configuration reported as done was echoed, field for field, by the last reply; the one other
   way is a malformed reply while the reply object still holds an echo of the same fields from an
   earlier command.
   */
  lemma {:induction false} DoneMeansEchoed(f: Fields, held: Fields, heard: seq<Heard>, i: nat)
    requires i <= TX_RETRY_TIMES + 1 == |heard| && Sends(COND_ACK_ID, f, held, heard, i).0
    ensures var last := Sends(COND_ACK_ID, f, held, heard, i).1 - 1;
            i <= last && (Echoed(heard, last, f) || (held == f && Malformed(heard, last)))
    decreases TX_RETRY_TIMES + 1 - i
  {
    match heard[i]
    case Silence => DoneMeansEchoed(f, held, heard, i + 1);
    case Unsent =>
    case Heard(o) =>
      ReplyCases(f, held, o);
      if !Accepts(COND_ACK_ID, f, held, o) {
        DoneMeansEchoed(f, HeldAfter(held, o), heard, i + 1);
      }
  }

  // ---------- how often it is sent ----------

  /** What the reply object holds when the `i`th transmission is made. */
  function HeldBefore(held: Fields, heard: seq<Heard>, i: nat): Fields
    requires i <= |heard|
  {
    if i == 0 then held
    else match heard[i - 1]
      case Heard(o) => HeldAfter(HeldBefore(held, heard, i - 1), o)
      case _ => HeldBefore(held, heard, i - 1)
  }

  /** The `i`th transmission is answered acceptably. */
  predicate Answered(expected: byte, wanted: Fields, held: Fields, heard: seq<Heard>, i: nat)
    requires i < |heard|
  {
    heard[i].Heard? && Accepts(expected, wanted, HeldBefore(held, heard, i), heard[i].outcome)
  }

  /** Only a good answer and a failure to send keep the frame from being sent again. */
  predicate Settled(expected: byte, wanted: Fields, held: Fields, heard: seq<Heard>, i: nat)
    requires i < |heard|
  {
    heard[i] == Unsent || Answered(expected, wanted, held, heard, i)
  }

  lemma {:induction false} SendsUntilSettled(expected: byte, wanted: Fields, held: Fields, heard: seq<Heard>, i: nat, k: nat)
    requires i <= k <= TX_RETRY_TIMES + 1 == |heard|
    requires forall j :: i <= j < k ==> !Settled(expected, wanted, held, heard, j)
    requires k < |heard| ==> Settled(expected, wanted, held, heard, k)
    ensures Sends(expected, wanted, HeldBefore(held, heard, i), heard, i)
         == if k == |heard| then (false, k) else (heard[k] != Unsent, k + 1)
    decreases k - i
  {
    if i < k {
      assert !Settled(expected, wanted, held, heard, i);
      SendsUntilSettled(expected, wanted, held, heard, i + 1, k);
    } else if k < |heard| {
      assert Settled(expected, wanted, held, heard, k);
    }
  }

  function FirstSettled(expected: byte, wanted: Fields, held: Fields, heard: seq<Heard>, i: nat): (k: nat)
    requires i <= |heard|
    ensures i <= k <= |heard| && (k < |heard| ==> Settled(expected, wanted, held, heard, k))
    ensures forall j :: i <= j < k ==> !Settled(expected, wanted, held, heard, j)
    decreases |heard| - i
  {
    if i == |heard| || Settled(expected, wanted, held, heard, i) then i
    else FirstSettled(expected, wanted, held, heard, i + 1)
  }

  /**
   A frame is sent until it is answered, cannot be sent, or has been sent four times; it succeeds
   if and only if some transmission is answered before any fails to go out.
   */
  lemma SentUntilAnswered(expected: byte, wanted: Fields, held: Fields, heard: seq<Heard>)
    requires |heard| == TX_RETRY_TIMES + 1
    ensures var r := Sends(expected, wanted, held, heard, 0);
            && (r.0 <==> exists i :: 0 <= i < 4 && Answered(expected, wanted, held, heard, i)
                                     && forall j :: 0 <= j <= i ==> heard[j] != Unsent)
            && (forall j :: 0 <= j < r.1 - 1 ==> !Settled(expected, wanted, held, heard, j))
            && 1 <= r.1 <= 4 && (r.1 == 4 || Settled(expected, wanted, held, heard, r.1 - 1))
            && (r.0 ==> Answered(expected, wanted, held, heard, r.1 - 1))
  {
    var k := FirstSettled(expected, wanted, held, heard, 0);
    SendsUntilSettled(expected, wanted, held, heard, 0, k);
    if i :| 0 <= i < 4 && Answered(expected, wanted, held, heard, i) && forall j :: 0 <= j <= i ==> heard[j] != Unsent {
      assert Settled(expected, wanted, held, heard, i) && k <= i;
    }
  }

  /** A configuration reply with an empty payload, as the bytes of a frame. */
  const SHORT_ACK: seq<byte> := [0xAB, 0xCD, S2M, 0, 0, 5, 0, COND_ACK_ID, 1, 2, 3, 4]

  lemma ShortAckIsMalformed()
    ensures Parse(MASTER, SHORT_ACK) == Stale(S2M, COND_ACK_ID)
  {
    assert SHORT_ACK[HEADER_SIZE..] == [COND_ACK_ID, 1, 2, 3, 4];
  }

  /** Whatever becomes of the transmissions, success means that the last one was echoed. */
  ghost predicate DoneOnlyIfEchoed(f: Fields, held: Fields) {
    forall attempts: seq<Attempt> | |attempts| == TX_RETRY_TIMES + 1 ::
      var r := Sends(COND_ACK_ID, f, held, HearAll(attempts), 0);
      r.0 ==> Echoed(HearAll(attempts), r.1 - 1, f)
  }

  /**
   That a configuration reported as done was echoed is true of a command exactly when the reply
   object does not already hold its fields. It does when the same command is sent again and no
   other reply has come in between, as for a list of one slave that the backend sends twice.
   */
  lemma DoneMeansEchoedExactly(f: Fields, held: Fields)
    ensures DoneOnlyIfEchoed(f, held) <==> held != f
  {
    if held == f {
      var a := Reply(SHORT_ACK);
      var attempts := [a, a, a, a];
      ShortAckIsMalformed();
      assert HearAll(attempts)[0] == Heard(Stale(S2M, COND_ACK_ID));
      assert Sends(COND_ACK_ID, f, held, HearAll(attempts), 0) == (true, 1);
      assert !Echoed(HearAll(attempts), 0, f);
    } else {
      forall attempts: seq<Attempt> | |attempts| == TX_RETRY_TIMES + 1
        && Sends(COND_ACK_ID, f, held, HearAll(attempts), 0).0
        ensures Echoed(HearAll(attempts), Sends(COND_ACK_ID, f, held, HearAll(attempts), 0).1 - 1, f)
      {
        DoneMeansEchoed(f, held, HearAll(attempts), 0);
      }
    }
  }

  // ---------- the slave ----------

  /** `CondCfgMsg::process` at a slave: what it stores, and the frame it answers with. */
  function SlaveStores(uid: dword, raw: seq<byte>): Option<Fields> {
    match Parse(SLAVE(uid), raw)
    case Decoded(m) => if m.CondCfg? then Some(Fields(m.slot, m.interval, m.total, m.start, m.cond)) else None
    case _ => None
  }

  function SlaveAnswers(uid: dword, status: byte, stored: Fields): seq<byte> {
    Frame(S2M, PacketBytes(Echo(status, stored), Route(uid, 0)), 0, 0)
  }

  function RequestFrame(uid: dword, f: Fields): seq<byte> {
    Frame(M2S, PacketBytes(Request(f), Route(uid, 0)), 0, 0)
  }

  /** A slave stores what it was sent, its answer is accepted, and no answer to another request is. */
  lemma AcknowledgedIsApplied(uid: dword, f: Fields, status: byte, held: Fields, stored: Fields)
    ensures SlaveStores(uid, RequestFrame(uid, f)) == Some(f)
    ensures Accepts(COND_ACK_ID, f, held, Parse(MASTER, SlaveAnswers(uid, status, stored))) <==> stored == f
  {
    ParseRoundTrip(SLAVE(uid), Request(f), Route(uid, 0), 0, 0);
    ParseRoundTrip(MASTER, Echo(status, stored), Route(uid, 0), 0, 0);
  }

  /** Only the slave the request is addressed to, or every slave for a broadcast, stores it. */
  lemma OthersStoreNothing(uid: dword, other: dword, f: Fields)
    requires other != uid && uid != BROADCAST
    ensures SlaveStores(other, RequestFrame(uid, f)) == None
  {
    ParseRoundTrip(SLAVE(other), Request(f), Route(uid, 0), 0, 0);
  }

  /** The answer of some slave that has stored these fields. */
  ghost predicate AnswerOf(a: Attempt, stored: Fields) {
    exists uid: dword, status: byte :: a == Reply(SlaveAnswers(uid, status, stored))
  }

  ghost predicate FromSlaves(attempts: seq<Attempt>) {
    forall i :: 0 <= i < |attempts| && attempts[i].Reply? ==> exists stored :: AnswerOf(attempts[i], stored)
  }

  lemma AnswerEchoes(a: Attempt, stored: Fields)
    requires AnswerOf(a, stored)
    ensures Echoes(Hear(a), stored)
  {
    var uid, status :| a == Reply(SlaveAnswers(uid, status, stored));
    ParseRoundTrip(MASTER, Echo(status, stored), Route(uid, 0), 0, 0);
    assert Hear(a) == Heard(Decoded(Echo(status, stored)));
  }

  lemma EchoesOne(h: Heard, f: Fields, f': Fields)
    requires Echoes(h, f) && Echoes(h, f')
    ensures f == f' && h.Heard?
  {
  }

  /**
   Acknowledged is applied: when all that is heard comes from slaves, a command reported as done
   was last answered by a slave that has stored exactly what was asked, slot included.
   */
  lemma DoneMeansApplied(f: Fields, held: Fields, attempts: seq<Attempt>, heard: seq<Heard>)
    requires |attempts| == TX_RETRY_TIMES + 1 && FromSlaves(attempts) && heard == HearAll(attempts)
    requires Sends(COND_ACK_ID, f, held, heard, 0).0
    ensures AnswerOf(attempts[Sends(COND_ACK_ID, f, held, heard, 0).1 - 1], f)
  {
    var last := Sends(COND_ACK_ID, f, held, heard, 0).1 - 1;
    DoneMeansEchoed(f, held, heard, 0);
    assert heard[last] == Hear(attempts[last]);
    AppliedAt(f, attempts, heard[last], last);
  }

  lemma AppliedAt(f: Fields, attempts: seq<Attempt>, h: Heard, i: nat)
    requires i < |attempts| && FromSlaves(attempts) && h == Hear(attempts[i])
    requires Echoes(h, f) || h == Heard(Stale(S2M, COND_ACK_ID))
    ensures AnswerOf(attempts[i], f)
  {
    assert attempts[i].Reply?;
    var stored :| AnswerOf(attempts[i], stored);
    AnswerEchoes(attempts[i], stored);
    if Echoes(h, f) {
      EchoesOne(h, f, stored);
    } else {
      assert false;
    }
  }

  /** Nothing has been heard, or a slave that has stored something else. */
  ghost predicate Unhelpful(a: Attempt, f: Fields) {
    a == NoReply || exists stored :: stored != f && AnswerOf(a, stored)
  }

  lemma UnhelpfulIsRefused(a: Attempt, f: Fields, held: Fields)
    requires Unhelpful(a, f)
    ensures Hear(a) != Unsent && (Hear(a).Heard? ==> !Accepts(COND_ACK_ID, f, held, Hear(a).outcome))
  {
    if a != NoReply {
      var stored :| stored != f && AnswerOf(a, stored);
      AnswerEchoes(a, stored);
    }
  }

  lemma UnhelpfulUnsettled(f: Fields, held: Fields, attempts: seq<Attempt>, heard: seq<Heard>, i: nat)
    requires i < |attempts| && heard == HearAll(attempts) && Unhelpful(attempts[i], f)
    ensures !Settled(COND_ACK_ID, f, held, heard, i)
  {
    assert heard[i] == Hear(attempts[i]);
    UnhelpfulIsRefused(attempts[i], f, HeldBefore(held, heard, i));
  }

  lemma HelpfulSettles(f: Fields, held: Fields, attempts: seq<Attempt>, heard: seq<Heard>, i: nat)
    requires i < |attempts| && heard == HearAll(attempts) && AnswerOf(attempts[i], f)
    ensures heard[i] != Unsent && Settled(COND_ACK_ID, f, held, heard, i)
  {
    assert heard[i] == Hear(attempts[i]);
    AnswerEchoes(attempts[i], f);
  }

  /** Through silences and answers of other slaves the command is repeated, until its slave is heard. */
  lemma RepeatedUntilHeard(f: Fields, held: Fields, attempts: seq<Attempt>, heard: seq<Heard>, i: nat)
    requires |attempts| == TX_RETRY_TIMES + 1 && heard == HearAll(attempts) && i <= |attempts|
    requires forall j :: 0 <= j < i ==> Unhelpful(attempts[j], f)
    requires i < |attempts| ==> AnswerOf(attempts[i], f)
    ensures Sends(COND_ACK_ID, f, held, heard, 0) == if i < 4 then (true, i + 1) else (false, 4)
  {
    forall j | 0 <= j < i ensures !Settled(COND_ACK_ID, f, held, heard, j) {
      UnhelpfulUnsettled(f, held, attempts, heard, j);
    }
    if i < |attempts| {
      HelpfulSettles(f, held, attempts, heard, i);
    }
    SendsUntilSettled(COND_ACK_ID, f, held, heard, 0, i);
  }

  /** A read is answered by data alone, and a configuration by nothing of the sort. */
  lemma ReadAnsweredByData(wanted: Fields, held: Fields, m: Msg, uid: dword, status: word)
    requires |PacketBytes(m, Route(uid, status))| <= 65535
    ensures var o := Parse(MASTER, Frame(PacketType(m), PacketBytes(m, Route(uid, status)), 0, 0));
            && (Accepts(COND_DATA_ID, wanted, held, o) <==> m.CondData?)
            && (m.CondData? ==> !Accepts(COND_ACK_ID, wanted, held, o))
  {
    Delivered(m, Route(uid, status), 0, 0, 0);
    ReceivedKind(wanted, held, m);
  }

  lemma ReceivedKind(wanted: Fields, held: Fields, m: Msg)
    ensures Accepts(COND_DATA_ID, wanted, held, Received(m)) <==> m.CondData?
    ensures m.CondData? ==> !Accepts(COND_ACK_ID, wanted, held, Received(m))
    ensures !Accepts(COND_DATA_ID, wanted, held, Rejected)
  {
  }
}
