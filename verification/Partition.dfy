/** The configuration command of the backend: the master deals the wires of the harness out to its slaves. */
module Partition {
  import opened Bytes
  import opened Protocol

  /** What the master tells itself to send to one slave. */
  datatype CfgCmd = CfgCmd(id: dword, cond: word, total: word, start: word, devNum: word, isLast: bool)

  /** What became of one forwarded command: whether the queue took it in time, and its result event. */
  datatype Forwarded = Forwarded(inTime: bool, success: bool)

  /** The wires of the first `k` slaves. */
  function Wires(slaves: seq<Config>, k: nat): nat
    requires k <= |slaves|
  {
    if k == 0 then 0 else Wires(slaves, k - 1) + slaves[k - 1].cond
  }

  function Total(slaves: seq<Config>): nat { Wires(slaves, |slaves|) }

  function Command(slaves: seq<Config>, k: nat): CfgCmd
    requires k < |slaves|
  {
    CfgCmd(slaves[k].id, slaves[k].cond, Total(slaves) % 0x1_0000, Wires(slaves, k) % 0x1_0000,
           |slaves| % 0x1_0000, k + 1 == |slaves|)
  }

  predicate SomeFailed(outcomes: seq<Forwarded>) {
    exists k :: 0 <= k < |outcomes| && outcomes[k].inTime && !outcomes[k].success
  }

  lemma NextStart(slaves: seq<Config>, k: nat, start: word, cond: byte)
    requires k < |slaves| && start as int == Wires(slaves, k) % 0x1_0000 && cond == slaves[k].cond
    ensures (start + cond) % 0x1_0000 == Wires(slaves, k + 1) % 0x1_0000
  {
  }

  /** `SlaveConfig::forward`. A command that times out does not count as a failure. */
  method Forward(slaves: seq<Config>, outcomes: seq<Forwarded>) returns (cmds: seq<CfgCmd>, reply: Msg)
    requires |outcomes| == |slaves| < 0x1_0000
    ensures |cmds| == |slaves| && forall k :: 0 <= k < |slaves| ==> cmds[k] == Command(slaves, k)
    ensures reply.SlaveCfgRsp? && reply.num as int == |slaves| % 0x100 && reply.configs == slaves
    ensures reply.status == 0 || reply.status == 1
    ensures reply.status == 0 <==> forall k :: 0 <= k < |slaves| && outcomes[k].inTime ==> outcomes[k].success
  {
    var totalHarnessNum: word := 0;
    for i := 0 to |slaves|
      invariant totalHarnessNum as int == Wires(slaves, i) % 0x1_0000
    {
      NextStart(slaves, i, totalHarnessNum, slaves[i].cond);
      totalHarnessNum := (totalHarnessNum + slaves[i].cond) % 0x1_0000;
    }
    var isSuccess := true;
    var startHarnessNum: word, cond: byte := 0, 0;
    var rspSlaves: seq<Config> := [];
    cmds := [];
    for i := 0 to |slaves|
      invariant (startHarnessNum + cond) % 0x1_0000 == Wires(slaves, i) % 0x1_0000
      invariant rspSlaves == slaves[..i]
      invariant isSuccess == !SomeFailed(outcomes[..i])
      invariant |cmds| == i && forall k :: 0 <= k < i ==> cmds[k] == Command(slaves, k)
    {
      startHarnessNum := (startHarnessNum + cond) % 0x1_0000;
      cond := slaves[i].cond;
      NextStart(slaves, i, startHarnessNum, cond);
      var cmd := CfgCmd(slaves[i].id, cond, totalHarnessNum, startHarnessNum, |slaves|, i + 1 == |slaves|);
      assert cmd == Command(slaves, i);
      cmds := cmds + [cmd];
      rspSlaves := rspSlaves + [slaves[i]];
      FailedSoFar(outcomes, i);
      if outcomes[i].inTime {
        if !outcomes[i].success {
          isSuccess := false;
        }
      }
    }
    assert rspSlaves == slaves && outcomes[..|slaves|] == outcomes;
    reply := SlaveCfgRsp(if isSuccess then 0 else 1, |slaves| % 0x100, rspSlaves);
  }

  lemma FailedSoFar(outcomes: seq<Forwarded>, i: nat)
    requires i < |outcomes|
    ensures SomeFailed(outcomes[..i + 1])
       <==> SomeFailed(outcomes[..i]) || (outcomes[i].inTime && !outcomes[i].success)
  {
    var now, next := outcomes[..i], outcomes[..i + 1];
    assert next == now + [outcomes[i]];
    if SomeFailed(now) {
      var k :| 0 <= k < |now| && now[k].inTime && !now[k].success;
      assert next[k].inTime && !next[k].success;
    }
    if outcomes[i].inTime && !outcomes[i].success {
      assert next[i].inTime && !next[i].success;
    }
  }

  /** The range of wires a command gives its slave. */
  predicate Owns(c: CfgCmd, wire: nat) { c.start <= wire < c.start + c.cond }

  lemma {:induction false} WiresGrow(slaves: seq<Config>, j: nat, k: nat)
    requires j <= k <= |slaves|
    ensures Wires(slaves, j) <= Wires(slaves, k) <= Wires(slaves, j) + 255 * (k - j)
  {
    if j < k {
      WiresGrow(slaves, j, k - 1);
    }
  }

  /** A decoded list has at most 255 slaves, so that no counter of the loop wraps. */
  lemma DecodedListIsShort(kind: byte, id: byte, d: seq<byte>, num: byte, slaves: seq<Config>)
    requires Decode(kind, id, d) == Decoded(SlaveCfg(num, slaves))
    ensures |slaves| <= 255 && Total(slaves) <= 65025
    ensures forall k :: 0 <= k < |slaves| ==>
              Command(slaves, k).total as int == Total(slaves) && Command(slaves, k).start as int == Wires(slaves, k)
  {
    ConfigsCount(d, 1, d[0]);
    NothingWraps(slaves);
  }

  lemma NothingWraps(slaves: seq<Config>)
    requires |slaves| <= 255
    ensures Total(slaves) <= 65025
    ensures forall k :: 0 <= k < |slaves| ==>
              Command(slaves, k).total as int == Total(slaves) && Command(slaves, k).start as int == Wires(slaves, k)
  {
    WiresGrow(slaves, 0, |slaves|);
    forall k | 0 <= k < |slaves| ensures Command(slaves, k).start as int == Wires(slaves, k) {
      WiresGrow(slaves, k, |slaves|);
    }
  }

  function Owner(slaves: seq<Config>, wire: nat, k: nat): (r: nat)
    requires k <= |slaves| && wire < Wires(slaves, k)
    ensures r < k && Wires(slaves, r) <= wire < Wires(slaves, r) + slaves[r].cond
  {
    if wire < Wires(slaves, k - 1) then Owner(slaves, wire, k - 1) else k - 1
  }

  /** The ranges partition the wires: every wire below the total has exactly one owner, others none. */
  lemma RangesPartition(slaves: seq<Config>, wire: nat)
    requires |slaves| <= 255
    ensures wire < Total(slaves) <==> exists k :: 0 <= k < |slaves| && Owns(Command(slaves, k), wire)
    ensures forall j, k | 0 <= j < |slaves| && 0 <= k < |slaves| ::
              Owns(Command(slaves, j), wire) && Owns(Command(slaves, k), wire) ==> j == k
  {
    NothingWraps(slaves);
    if wire < Total(slaves) {
      assert Owns(Command(slaves, Owner(slaves, wire, |slaves|)), wire);
    }
    forall j, k | 0 <= j <= k < |slaves| && Owns(Command(slaves, j), wire) && Owns(Command(slaves, k), wire)
      ensures j == k
    {
      if j < k {
        WiresGrow(slaves, j + 1, k);
      }
    }
    forall k | 0 <= k < |slaves| && Owns(Command(slaves, k), wire) ensures wire < Total(slaves) {
      WiresGrow(slaves, k + 1, |slaves|);
    }
  }
}
