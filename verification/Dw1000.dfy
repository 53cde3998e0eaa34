/** Temperature compensation of the DW1000: the bandwidth search and the rebalancing of transmit power. */
module Dw1000 {
  import opened Bytes

  type int8 = x: int | -0x80 <= x < 0x80

  /** The conversion of a wider integer to `int8`. */
  function ToInt8(x: int): int8 { (x + 0x80) % 0x100 - 0x80 }

  function Abs(x: int): nat { if x < 0 then -x else x }

  // ---------- dwt_calcbandwidthtempadj ----------

  /** The pulse-generator counts the chip measures, one for each setting of PG_DELAY. */
  type Counts = byte -> word

  const FIRST := 0x81
  const LAST := 0xFF
  const TOLERANCE := 300

  ghost predicate NonIncreasing(count: Counts) {
    forall x: byte, y: byte :: FIRST <= x <= y ==> count(y) <= count(x)
  }

  function Delta(count: Counts, target: word, bw: byte): nat {
    Abs(count(bw) as int - target as int)
  }

  /** `bw` is as near the target as any setting, and inside the tolerance; 0 when none is inside it. */
  ghost predicate Optimal(count: Counts, target: word, bw: byte) {
    if exists x: byte :: FIRST <= x && Delta(count, target, x) < TOLERANCE
    then FIRST <= bw && forall x: byte :: FIRST <= x ==> Delta(count, target, bw) <= Delta(count, target, x)
    else bw == 0
  }

  /** `kept` is the last setting whose count was too high, and the next one up was rejected. */
  predicate Brackets(count: Counts, target: word, kept: int) {
    && FIRST - 1 <= kept <= LAST
    && (kept >= FIRST ==> count(kept) > target)
    && (kept < LAST ==> count(kept + 1) <= target)
  }

  /** Between two neighbouring settings that bracket the target, one of the two is nearest. */
  lemma NearestIsNeighbour(count: Counts, target: word, kept: int, x: byte)
    requires NonIncreasing(count) && Brackets(count, target, kept) && FIRST <= x
    ensures x <= kept ==> Delta(count, target, kept) <= Delta(count, target, x)
    ensures x > kept ==> Delta(count, target, kept + 1) <= Delta(count, target, x)
  {
  }

  /** After `i` shifts the bit is `b`, and `bw` is `q` times it: `bw` has no lower bit. */
  predicate Probe(i: int, b: int, bw: int, q: int) {
    && (i == 0 ==> b == 0x80 && bw == 0x80 * q) && (i == 1 ==> b == 0x40 && bw == 0x40 * q)
    && (i == 2 ==> b == 0x20 && bw == 0x20 * q) && (i == 3 ==> b == 0x10 && bw == 0x10 * q)
    && (i == 4 ==> b == 8 && bw == 8 * q) && (i == 5 ==> b == 4 && bw == 4 * q)
    && (i == 6 ==> b == 2 && bw == 2 * q) && (i == 7 ==> b == 1 && bw == q)
  }

  lemma ProbeNext(i: int, b: int, bw: int, q: int)
    requires 0 <= i < 7 && Probe(i, b, bw, q)
    ensures Probe(i + 1, b / 2, bw + b / 2, 2 * q + 1) && Probe(i + 1, b / 2, bw, 2 * q)
    ensures b == 2 * (b / 2) > 0
  {
  }

  lemma NearestOfAll(count: Counts, target: word, kept: int, lowest: nat)
    requires NonIncreasing(count) && Brackets(count, target, kept)
    requires kept >= FIRST ==> lowest <= Delta(count, target, kept)
    requires kept < LAST ==> lowest <= Delta(count, target, kept + 1)
    ensures forall x: byte :: FIRST <= x ==> lowest <= Delta(count, target, x)
  {
    forall x: byte | FIRST <= x ensures lowest <= Delta(count, target, x) {
      NearestIsNeighbour(count, target, kept, x);
    }
  }

  /** Seven probes. A bit set by `|` is clear before, and one cleared by `& ~` is set: `+` and `-` here. */
  method CalcBandwidthTempAdj(target: word, count: Counts) returns (bestBw: byte, ghost kept: int)
    ensures Brackets(count, target, kept)
    ensures bestBw == 0 || (FIRST <= bestBw && Delta(count, target, bestBw) < TOLERANCE)
    ensures NonIncreasing(count) ==> Optimal(count, target, bestBw)
  {
    var currBw: byte, bitField: byte := 0x80, 0x80;
    var deltaLowest: nat := TOLERANCE;
    bestBw := 0;
    ghost var q := 1;
    var i := 0;
    while i < 7
      invariant 0 <= i <= 7 && Probe(i, bitField, currBw, q)
      invariant 0x80 <= currBw && currBw + bitField <= 0x100
      invariant if bestBw == 0 then deltaLowest == TOLERANCE
                else FIRST <= bestBw && deltaLowest == Delta(count, target, bestBw) < TOLERANCE
      invariant currBw >= FIRST ==> count(currBw) > target && deltaLowest <= Delta(count, target, currBw)
      invariant currBw + bitField <= LAST ==>
                  count(currBw + bitField) <= target && deltaLowest <= Delta(count, target, currBw + bitField)
    {
      ProbeNext(i, bitField, currBw, q);
      bitField := bitField / 2;
      currBw, q := currBw + bitField, 2 * q + 1;
      var rawCount := count(currBw);
      var deltaCount := Abs(rawCount as int - target as int);
      if deltaCount < deltaLowest {
        deltaLowest := deltaCount;
        bestBw := currBw;
      }
      if rawCount <= target {
        currBw, q := currBw - bitField, q - 1;
      }
      i := i + 1;
    }
    kept := currBw;
    if NonIncreasing(count) {
      NearestOfAll(count, target, kept, deltaLowest);
    }
  }

  // ---------- _dwt_computetxpowersetting ----------

  const MIX_DA_FACTOR := 5
  const MIN_GAIN := 4
  const MAX_GAIN := 20
  const MAX_ATTN := 7

  function Gain(lane: byte): nat { lane % 0x20 }

  function Attn(lane: byte): nat { lane / 0x20 }

  /** The power a lane stands for, in half decibels: one step of attenuation is worth five of gain. */
  function Level(lane: byte): int { Gain(lane) - MIX_DA_FACTOR * Attn(lane) }

  predicate InBand(gain: int) { MIN_GAIN <= gain <= MAX_GAIN }

  /** The gain after the adjustment and `da` steps of attenuation that make up for each other. */
  function Mixed(g: int, adj: int, da: int): int { g + adj + MIX_DA_FACTOR * da }

  /**
   `da` steps of attenuation bring the gain `g + adj` into its best band, and no smaller change
   does; at most seven steps are added, and then the gain may stay below the band.
   */
  ghost predicate Rebalances(g: int, adj: int, da: int) {
    && da <= MAX_ATTN
    && (InBand(Mixed(g, adj, da)) || (da == MAX_ATTN && Mixed(g, adj, da) < MIN_GAIN))
    && (forall d :: da < d <= 0 ==> Mixed(g, adj, d) > MAX_GAIN)
    && (forall d :: 0 <= d < da ==> Mixed(g, adj, d) < MIN_GAIN)
  }

  function LaneByte(lane: byte, adj: int, da: int): byte {
    (Attn(lane) + da) % 8 * 0x20 + Mixed(Gain(lane), adj, da) % 0x20
  }

  lemma RebalancesUnique(g: int, adj: int, da: int, da': int)
    requires Rebalances(g, adj, da) && Rebalances(g, adj, da')
    ensures da == da'
  {
    assert Mixed(g, adj, 0) == g + adj;
  }

  /** Byte `i` of a register. */
  function LaneOf(reg: dword, i: nat): byte
    requires i < 4
  {
    Le32(reg)[i]
  }

  /** Every lane of `r` is the lane of `ref` in the same place, rebalanced for the adjustment. */
  ghost predicate Adjusted(ref: dword, adj: int8, r: dword) {
    forall i :: 0 <= i < 4 ==> LaneAdjusted(LaneOf(ref, i), adj, LaneOf(r, i))
  }

  ghost predicate LaneAdjusted(lane: byte, adj: int8, r: byte) {
    exists da :: Rebalances(Gain(lane), adj, da) && r == LaneByte(lane, adj, da)
  }

  /** One lane's loop; the mixer change less five times the attenuation change is always the adjustment. */
  method AdjustLane(lane: byte, adj: int8) returns (r: byte)
    ensures LaneAdjusted(lane, adj, r)
  {
    var daAttnChange: int8, mixerGainChange: int8 := 0, adj;
    var currentDaAttn, currentMixerGain := lane / 0x20, lane % 0x20;
    while currentMixerGain + mixerGainChange < MIN_GAIN || currentMixerGain + mixerGainChange > MAX_GAIN
      invariant mixerGainChange - MIX_DA_FACTOR * daAttnChange == adj
      invariant forall d :: daAttnChange < d <= 0 ==> Mixed(currentMixerGain, adj, d) > MAX_GAIN
      invariant forall d :: 0 <= d < daAttnChange ==> Mixed(currentMixerGain, adj, d) < MIN_GAIN
      invariant daAttnChange < 0 ==> currentMixerGain + mixerGainChange > MAX_GAIN - MIX_DA_FACTOR
      invariant daAttnChange > 0 ==> currentMixerGain + mixerGainChange < MIN_GAIN + MIX_DA_FACTOR
      invariant daAttnChange <= MAX_ATTN
      decreases if currentMixerGain + mixerGainChange > MAX_GAIN then currentMixerGain + mixerGainChange
                else MIN_GAIN + MIX_DA_FACTOR - (currentMixerGain + mixerGainChange)
    {
      if currentMixerGain + mixerGainChange > MAX_GAIN {
        daAttnChange := daAttnChange - 1;
        if daAttnChange == 0 {
          assert false;  // the attenuation is never raised before it is lowered
          break;
        }
        mixerGainChange := mixerGainChange - MIX_DA_FACTOR;
      } else {
        daAttnChange := daAttnChange + 1;
        if daAttnChange == 8 {
          daAttnChange := 7;
          break;
        }
        mixerGainChange := mixerGainChange + MIX_DA_FACTOR;
      }
    }
    var newDaAttn := (currentDaAttn + daAttnChange) % 8;
    var newMixerGain := (currentMixerGain + mixerGainChange) % 0x20;
    r := newDaAttn * 0x20 + newMixerGain;
    assert Rebalances(Gain(lane), adj, daAttnChange);
  }

  /** `lane << (8 * i)`. */
  function Placed(lane: byte, i: nat): nat {
    if i == 0 then lane else if i == 1 then 0x100 * lane else if i == 2 then 0x1_0000 * lane else 0x100_0000 * lane
  }

  function At(lanes: seq<byte>, i: nat): byte { if i < |lanes| then lanes[i] else 0 }

  /** The register made of the lanes so far, lowest first. */
  function Joined(lanes: seq<byte>): (r: nat)
    ensures r < 0x1_0000_0000
  {
    At(lanes, 0) as int + 0x100 * At(lanes, 1) as int + 0x1_0000 * At(lanes, 2) as int + 0x100_0000 * At(lanes, 3) as int
  }

  lemma LanesOfJoined(lanes: seq<byte>, reg: dword)
    requires |lanes| == 4 && reg as int == Joined(lanes)
    ensures Le32(reg) == lanes
  {
    FourBytes(reg, lanes[0], lanes[1], lanes[2], lanes[3]);
  }

  lemma FourBytes(reg: dword, a: byte, b: byte, c: byte, d: byte)
    requires reg as int == a as int + 0x100 * b as int + 0x1_0000 * c as int + 0x100_0000 * d as int
    ensures Le32(reg) == [a, b, c, d]
  {
    assert reg / 0x100 == b as int + 0x100 * c as int + 0x1_0000 * d as int;
    assert reg / 0x1_0000 == c as int + 0x100 * d as int;
    assert reg / 0x100_0000 == d;
  }

  /** The lanes so far are those of the register, rebalanced. */
  ghost predicate AdjustedSoFar(ref: dword, adj: int8, lanes: seq<byte>) {
    |lanes| <= 4 && forall k :: 0 <= k < |lanes| ==> LaneAdjusted(LaneOf(ref, k), adj, lanes[k])
  }

  lemma JoinNext(lanes: seq<byte>, lane: byte)
    requires |lanes| < 4
    ensures Joined(lanes + [lane]) == Joined(lanes) + Placed(lane, |lanes|)
  {
  }

  lemma AdjustedAll(ref: dword, adj: int8, lanes: seq<byte>, r: dword)
    requires |lanes| == 4 && AdjustedSoFar(ref, adj, lanes) && r as int == Joined(lanes)
    ensures Adjusted(ref, adj, r)
  {
    LanesOfJoined(lanes, r);
    forall i | 0 <= i < 4 ensures LaneAdjusted(LaneOf(ref, i), adj, LaneOf(r, i)) {
      assert LaneOf(r, i) == lanes[i];
    }
  }

  /** Each new byte is shifted into its place and or-ed in, lowest lane first. */
  method ComputeTxPowerSetting(refPowerReg: dword, powerAdj: int) returns (newRegval: dword)
    ensures Adjusted(refPowerReg, ToInt8(powerAdj), newRegval)
  {
    newRegval := 0;
    var adj := ToInt8(powerAdj);
    ghost var lanes: seq<byte> := [];
    for i := 0 to 4
      invariant |lanes| == i && newRegval as int == Joined(lanes)
      invariant AdjustedSoFar(refPowerReg, adj, lanes)
    {
      var lane := AdjustLane(LaneOf(refPowerReg, i), adj);
      JoinNext(lanes, lane);
      newRegval := newRegval + Placed(lane, i);
      lanes := lanes + [lane];
    }
    AdjustedAll(refPowerReg, adj, lanes, newRegval);
  }

  /** A rebalanced lane is determined by that lane and the adjustment alone. */
  lemma LaneDetermined(lane: byte, adj: int8, r: byte, r': byte)
    requires LaneAdjusted(lane, adj, r) && LaneAdjusted(lane, adj, r')
    ensures r == r'
  {
    var da :| Rebalances(Gain(lane), adj, da) && r == LaneByte(lane, adj, da);
    var da' :| Rebalances(Gain(lane), adj, da') && r' == LaneByte(lane, adj, da');
    RebalancesUnique(Gain(lane), adj, da, da');
  }

  /** The adjusted power can be written in a lane: there is attenuation to take away, or room to add it. */
  predicate Representable(lane: byte, adj: int8) {
    && Gain(lane) + adj <= MAX_GAIN + MIX_DA_FACTOR * Attn(lane)
    && Gain(lane) + adj >= if Attn(lane) == 0 then -MIX_DA_FACTOR * MAX_ATTN
                           else MIN_GAIN - MIX_DA_FACTOR * (MAX_ATTN - Attn(lane))
  }

  /**
   Rebalancing gives the power that was asked for exactly when it is representable. Otherwise the
   attenuation or the gain wraps around in its field, and the lane stands for some other power.
   */
  lemma PowerConserved(lane: byte, adj: int8, r: byte)
    requires LaneAdjusted(lane, adj, r)
    ensures Level(r) == Level(lane) + adj <==> Representable(lane, adj)
  {
    var da :| Rebalances(Gain(lane), adj, da) && r == LaneByte(lane, adj, da);
    var mix, attn := Mixed(Gain(lane), adj, da), Attn(lane) + da;
    LaneFields(mix, attn, r);
    RebalancesWhere(Gain(lane), Attn(lane), adj, da);
    FieldsFit(mix, attn);
    assert Level(lane) + adj == mix - MIX_DA_FACTOR * attn;
  }

  lemma LaneFields(mix: int, attn: int, r: byte)
    requires r == attn % 8 * 0x20 + mix % 0x20
    ensures Gain(r) == mix % 0x20 && Attn(r) == attn % 8
  {
  }

  lemma RebalancesWhere(g: nat, a: nat, adj: int8, da: int)
    requires g < 0x20 && a < 8 && Rebalances(g, adj, da)
    ensures -0x80 <= Mixed(g, adj, da) < 0x20 && a + da < 0x10 && (Mixed(g, adj, da) < 0 ==> da == MAX_ATTN)
    ensures 0 <= a + da < 8 && Mixed(g, adj, da) >= 0 <==>
              && g + adj <= MAX_GAIN + MIX_DA_FACTOR * a
              && g + adj >= if a == 0 then -MIX_DA_FACTOR * MAX_ATTN else MIN_GAIN - MIX_DA_FACTOR * (MAX_ATTN - a)
  {
    if da < 0 {
      assert Mixed(g, adj, da + 1) > MAX_GAIN;
      assert Mixed(g, adj, 0) > MAX_GAIN || da + 1 > 0;
    } else if da > 0 {
      assert Mixed(g, adj, da - 1) < MIN_GAIN;
    }
  }

  /** Masking to five and three bits keeps the power only when nothing is cut off. */
  lemma FieldsFit(mix: int, attn: int)
    requires mix < 0x20 && (mix < 0 ==> 0 <= attn < 0x10)
    ensures mix % 0x20 - MIX_DA_FACTOR * (attn % 8) == mix - MIX_DA_FACTOR * attn <==> mix >= 0 && 0 <= attn < 8
  {
  }

  // ---------- dwt_calcpowertempadj ----------

  const TEMP_COMP_FACTOR_CH2 := 327
  const TEMP_COMP_FACTOR_CH5 := 607

  function Factor(channel: byte): nat {
    if channel == 5 then TEMP_COMP_FACTOR_CH5 else if channel == 2 then TEMP_COMP_FACTOR_CH2 else 0
  }

  /** Half decibels lost over a temperature difference, rounded toward zero, in an `int8`. */
  function DeltaPower(channel: byte, deltaTemp: int): int8 {
    var size := ToInt8(Abs(deltaTemp) * Factor(channel) / 0x1000);
    if deltaTemp < 0 then ToInt8(-(size as int)) else size
  }

  lemma Int8Stays(x: int8)
    ensures ToInt8(x) == x
  {
  }

  method CalcPowerTempAdj(channel: byte, refPowerReg: dword, deltaTemp: int) returns (r: dword)
    ensures DeltaPower(channel, deltaTemp) == 0 ==> r == refPowerReg
    ensures DeltaPower(channel, deltaTemp) != 0 ==> Adjusted(refPowerReg, DeltaPower(channel, deltaTemp), r)
  {
    var negative, temp, deltaPower: int8 := false, deltaTemp, 0;
    if temp < 0 {
      negative, temp := true, -temp;
    }
    if channel == 5 {
      deltaPower := ToInt8(temp * TEMP_COMP_FACTOR_CH5 / 0x1000);
    } else if channel == 2 {
      deltaPower := ToInt8(temp * TEMP_COMP_FACTOR_CH2 / 0x1000);
    }
    assert deltaPower == ToInt8(Abs(deltaTemp) * Factor(channel) / 0x1000);
    if negative {
      deltaPower := ToInt8(-(deltaPower as int));
    }
    assert deltaPower == DeltaPower(channel, deltaTemp);
    Int8Stays(deltaPower);
    if deltaPower == 0 {
      return refPowerReg;
    }
    r := ComputeTxPowerSetting(refPowerReg, deltaPower);
  }

  /**
   The adjustment has the sign of the temperature difference, and its size is the difference times
   607/4096 half decibels on channel 5 and 327/4096 on channel 2, rounded down: a warmer chip is
   given more power. This is so exactly as far as the size fits a signed byte.
   */
  lemma WarmerMeansMore(channel: byte, deltaTemp: int)
    requires channel == 5 || channel == 2
    ensures var factor := if channel == 5 then 607 else 327;
            var d := DeltaPower(channel, deltaTemp) as int;
            (if deltaTemp >= 0 then 4096 * d <= deltaTemp * factor < 4096 * (d + 1)
             else 4096 * (d - 1) < deltaTemp * factor <= 4096 * d)
            <==> -129 * 4096 < deltaTemp * factor < 128 * 4096
  {
    var factor := if channel == 5 then 607 else 327;
    var x := if deltaTemp >= 0 then deltaTemp * factor else (-deltaTemp) * factor;
    assert Abs(deltaTemp) * Factor(channel) == x;
    SizeAndSign(x, deltaTemp >= 0);
    assert deltaTemp < 0 ==> deltaTemp * factor == -(x as int);
  }

  lemma SizeAndSign(x: nat, positive: bool)
    ensures var d: int := if positive then ToInt8(x / 4096) else ToInt8(-(ToInt8(x / 4096) as int));
            if positive then 4096 * d <= x < 4096 * (d + 1) <==> x < 128 * 4096
            else 4096 * (d - 1) < -(x as int) <= 4096 * d <==> x < 129 * 4096
  {
    var q := x / 4096;
    var d: int := if positive then ToInt8(q) else ToInt8(-(ToInt8(q) as int));
    Truncated(q);
    Between(x, q, if positive then d else -d);
  }

  lemma Truncated(q: nat)
    ensures ToInt8(q) as int == q <==> q < 128
    ensures ToInt8(-(ToInt8(q) as int)) as int == -(q as int) <==> q < 129
  {
  }

  lemma Between(x: nat, q: nat, d: int)
    requires q == x / 4096
    ensures 4096 * d <= x < 4096 * (d + 1) <==> d == q
    ensures x < 128 * 4096 <==> q < 128
    ensures x < 129 * 4096 <==> q < 129
  {
  }

  lemma OtherChannels(channel: byte, deltaTemp: int)
    requires channel != 5 && channel != 2
    ensures DeltaPower(channel, deltaTemp) == 0
  {
  }
}
