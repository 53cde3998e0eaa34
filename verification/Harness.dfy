/** Conduction scans: one slave's timer callbacks, and all slaves of a harness scanning in lock-step. */
module Scan {
  import opened Bytes
  import opened Matrix
  import opened Protocol
  import opened Partition
  import Acknowledge

  /** A pin is an input, or an output driven high or low. */
  datatype Pin = Pin(output: bool, high: bool)

  const INPUT := Pin(false, false)
  const DRIVEN := Pin(true, true)

  /** What a slave is told: its number of pins, the total number of rows, and its first wire. */
  datatype Cfg = Cfg(cond: byte, total: word, start: word)

  /** The trigger counter and the timer that drives it. */
  datatype Trigger = Trigger(count: int, max: int, running: bool)

  /** `startWithCount`. */
  function Started(g: Trigger, count: int): Trigger { if count > 0 then Trigger(0, count, true) else g }

  /** What a callback does to the counter: the one that finds it at its maximum stops the timer. */
  function Triggered(g: Trigger): Trigger { Trigger(g.count + 1, g.max, g.running && g.count < g.max) }

  /** The slave's changing state. */
  datatype State = State(pins: seq<Pin>, rows: seq<seq<int>>, rowIndex: int, trigger: Trigger)

  ghost predicate Fits(cfg: Cfg, s: State) {
    |s.pins| == cfg.cond && |s.rows| == cfg.total && Rectangular(s.rows, cfg.cond)
  }

  function Zeros(rows: nat, cols: nat): seq<seq<int>> { seq(rows, _ => seq(cols, _ => 0)) }

  function Inputs(n: nat): seq<Pin> { seq(n, _ => INPUT) }

  /** The pins after the switching part of `run`: the pin of the row before is released, this row's is driven. */
  function Switched(cfg: Cfg, pins: seq<Pin>, row: int): (r: seq<Pin>)
    requires |pins| == cfg.cond
    ensures |r| == cfg.cond
  {
    var last, now := row - cfg.start - 1, row - cfg.start;
    var released := if 0 <= last < cfg.cond then pins[last := INPUT] else pins;
    if 0 <= now < cfg.cond then released[now := DRIVEN] else released
  }

  /** A callback of the timer before the last row has been sampled. */
  function RowDone(cfg: Cfg, s: State, levels: seq<int>): State
    requires Fits(cfg, s) && 0 <= s.rowIndex < cfg.total && |levels| == cfg.cond
  {
    s.(pins := Switched(cfg, s.pins, s.rowIndex), rows := s.rows[s.rowIndex := levels],
       rowIndex := s.rowIndex + 1, trigger := Triggered(s.trigger))
  }

  /** `reload` indexes the pin of the row before; that is one of the slave's pins only in one case. */
  predicate ReloadInBounds(cfg: Cfg, row: int) { 0 <= row - cfg.start - 1 < cfg.cond }

  function Reloaded(cfg: Cfg, s: State): State
    requires |s.pins| == cfg.cond && ReloadInBounds(cfg, s.rowIndex)
  {
    s.(pins := s.pins[s.rowIndex - cfg.start - 1 := INPUT], rowIndex := 0)
  }

  /** A row of which the first `i` cells have been sampled. */
  function Mixed(levels: seq<int>, row: seq<int>, i: nat): seq<int>
    requires i <= |levels| == |row|
  {
    levels[..i] + row[i..]
  }

  lemma MixedNext(levels: seq<int>, row: seq<int>, i: nat)
    requires i < |levels| == |row|
    ensures Mixed(levels, row, i)[i := levels[i]] == Mixed(levels, row, i + 1)
  {
  }

  class Harness {
    const data: BinaryMatrix
    var pins: seq<Pin>
    var rowIndex: int
    var triggerCount: int
    var maxTriggerCount: int
    var timerOn: bool
    var conductionNum: byte
    var totalConductionNum: word
    var startConductionNum: word

    ghost predicate Valid()
      reads this, data
    {
      data.Valid() && data.rows == totalConductionNum && data.cols == conductionNum && |pins| == conductionNum
    }

    ghost function View(): State
      reads this, data
    {
      State(pins, data.matrix, rowIndex, Trigger(triggerCount, maxTriggerCount, timerOn))
    }

    ghost function Config(): Cfg
      reads this
    {
      Cfg(conductionNum, totalConductionNum, startConductionNum)
    }

    constructor ()
      ensures fresh(data) && Valid() && View() == State([], [], 0, Trigger(0, 0, false)) && Config() == Cfg(0, 0, 0)
    {
      data := new BinaryMatrix();
      pins, rowIndex, triggerCount, maxTriggerCount, timerOn := [], 0, 0, 0, false;
      conductionNum, totalConductionNum, startConductionNum := 0, 0, 0;
    }

    /**
     Pins are appended, and old cells kept: a slave that is configured again without `deinit` ends
     with more pins than it was told, and only one that had none has just its own.
     */
    method Init(cond: byte, total: word, start: word)
      requires data.Valid()
      modifies this, data
      ensures data.Valid() && data.rows == total && data.cols == cond && Config() == Cfg(cond, total, start)
      ensures pins == old(pins) + Inputs(cond) && (Valid() <==> old(pins) == [])
      ensures forall r, c :: 0 <= r < total && 0 <= c < cond ==>
                data.matrix[r][c] == if r < |old(data.matrix)| && c < |old(data.matrix)[r]| then old(data.matrix)[r][c] else 0
      ensures rowIndex == old(rowIndex) && View().trigger == old(View().trigger)
      ensures old(data.matrix) == [] ==> data.matrix == Zeros(total, cond)
    {
      conductionNum, totalConductionNum, startConductionNum := cond, total, start;
      data.Resize(total, cond);
      ghost var cells := data.matrix;
      assert old(data.matrix) == [] ==> cells == Zeros(total, cond) by {
        if old(data.matrix) == [] {
          assert forall r :: 0 <= r < total ==> cells[r] == Zeros(total, cond)[r];
        }
      }
      assert old(pins) + Inputs(0) == old(pins);
      for i := 0 to cond
        invariant pins == old(pins) + Inputs(i) && data.matrix == cells && data.rows == total && data.cols == cond
        invariant Config() == Cfg(cond, total, start)
        invariant rowIndex == old(rowIndex) && View().trigger == old(View().trigger)
      {
        assert Inputs(i + 1) == Inputs(i) + [INPUT];
        pins := pins + [INPUT];
      }
    }

    method StartWithCount(count: int)
      modifies this
      ensures View() == old(View()).(trigger := Started(old(View()).trigger, count))
      ensures Config() == old(Config())
    {
      if count > 0 {
        triggerCount := 0;
        maxTriggerCount := count;
        timerOn := true;
      }
    }

    /** `levels` are the pin inputs after the switching and the settling delay. */
    method Run(levels: seq<int>)
      requires Valid() && 0 <= rowIndex < totalConductionNum && |levels| == conductionNum
      modifies this`pins, data
      ensures Valid() && Config() == old(Config())
      ensures View() == old(View().(pins := Switched(Config(), pins, rowIndex),
                                    rows := data.matrix[rowIndex := levels]))
    {
      var lastIndex := rowIndex - startConductionNum - 1;
      if lastIndex >= 0 && lastIndex < conductionNum {
        pins := pins[lastIndex := INPUT];
      }
      if rowIndex >= startConductionNum && rowIndex < startConductionNum + conductionNum {
        var index := rowIndex - startConductionNum;
        if index < conductionNum {
          pins := pins[index := DRIVEN];
        }
      }
      SampleRow(levels);
    }

    /** The sampling loop of `run`. */
    method SampleRow(levels: seq<int>)
      requires data.Valid() && 0 <= rowIndex < data.rows && |levels| == data.cols
      modifies data`matrix
      ensures data.Valid() && data.matrix == old(data.matrix)[rowIndex := levels]
    {
      ghost var before := data.matrix;
      var i := 0;
      assert Mixed(levels, before[rowIndex], 0) == before[rowIndex];
      assert before == before[rowIndex := before[rowIndex]];
      while i < data.cols
        invariant 0 <= i <= data.cols && data.Valid()
        invariant data.matrix == before[rowIndex := Mixed(levels, before[rowIndex], i)]
      {
        MixedNext(levels, before[rowIndex], i);
        data.SetValue(rowIndex, i, levels[i]);
        i := i + 1;
      }
      assert Mixed(levels, before[rowIndex], i) == levels;
    }

    method Reload()
      requires Valid() && ReloadInBounds(Config(), rowIndex)
      modifies this
      ensures Valid() && Config() == old(Config()) && View() == old(Reloaded(Config(), View()))
    {
      var lastIndex := rowIndex - startConductionNum - 1;
      pins := pins[lastIndex := INPUT];
      rowIndex := 0;
    }

    method TimerCallback(levels: seq<int>)
      requires Valid() && maxTriggerCount > 0
      requires if triggerCount < maxTriggerCount
               then 0 <= rowIndex < totalConductionNum && |levels| == conductionNum
               else ReloadInBounds(Config(), rowIndex)
      modifies this, data
      ensures Valid() && Config() == old(Config())
      ensures View() == old(if triggerCount < maxTriggerCount then RowDone(Config(), View(), levels)
                            else Reloaded(Config(), View()).(trigger := Triggered(View().trigger)))
    {
      if maxTriggerCount > 0 {
        triggerCount := triggerCount + 1;
        if triggerCount - 1 >= maxTriggerCount {
          timerOn := false;
          Reload();
          return;
        }
      }
      Run(levels);
      rowIndex := rowIndex + 1;
    }
  }

  // ---------- one slave ----------

  /** A slave that has been configured once, told to start, and has had no callback yet. */
  ghost predicate AtStart(cfg: Cfg, s: State) {
    Fits(cfg, s) && s.pins == Inputs(cfg.cond) && s.rowIndex == 0
    && s.trigger == Trigger(0, cfg.total, true)
  }

  /** The levels that each callback finds. */
  type Levels = nat -> seq<int>

  /** The state after `k` callbacks, none of them the last. */
  ghost function Callbacks(cfg: Cfg, s: State, k: nat, levels: Levels): (r: State)
    requires AtStart(cfg, s) && k <= cfg.total && forall i :: 0 <= i < k ==> |levels(i)| == cfg.cond
    ensures Fits(cfg, r) && r.rowIndex == k && r.trigger == Trigger(k, cfg.total, true)
  {
    if k == 0 then s else RowDone(cfg, Callbacks(cfg, s, k - 1, levels), levels(k - 1))
  }

  /** Which of a slave's pins drives its wire after `k` callbacks. */
  predicate Drives(cfg: Cfg, k: int, i: int) { 0 <= i < cfg.cond && cfg.start + i == k - 1 }

  /** Each of the first `total` callbacks samples the next row, once; only the pin of that row is driven. */
  lemma {:induction false} ScanProgress(cfg: Cfg, s: State, k: nat, levels: Levels)
    requires AtStart(cfg, s) && k <= cfg.total && forall i :: 0 <= i < k ==> |levels(i)| == cfg.cond
    ensures var r := Callbacks(cfg, s, k, levels);
            && (forall i :: 0 <= i < cfg.cond ==>
                  r.pins[i] == if cfg.start + i == k - 1 then Pin(true, true) else Pin(false, false))
            && (forall j :: 0 <= j < cfg.total ==> r.rows[j] == if j < k then levels(j) else s.rows[j])
  {
    if k > 0 {
      ScanProgress(cfg, s, k - 1, levels);
    }
  }

  /**
   At the callback after the last row, `reload` stays inside the pins exactly for the slave whose
   range ends at the last wire; there it releases the one pin still driven, and the slave is
   ready for the next scan.
   */
  lemma ReloadAfterScan(cfg: Cfg, s: State, levels: Levels)
    requires AtStart(cfg, s) && cfg.start + cfg.cond <= cfg.total
    requires forall i :: 0 <= i < cfg.total ==> |levels(i)| == cfg.cond
    ensures ReloadInBounds(cfg, cfg.total) <==> cfg.cond > 0 && cfg.start + cfg.cond == cfg.total
    ensures var g := Callbacks(cfg, s, cfg.total, levels).trigger;
            g.running && !Triggered(g).running
    ensures var r := Callbacks(cfg, s, cfg.total, levels);
            if ReloadInBounds(cfg, cfg.total)
            then r.pins == Inputs(cfg.cond)[cfg.cond as int - 1 := DRIVEN]
                 && Reloaded(cfg, r).pins == Inputs(cfg.cond) && Reloaded(cfg, r).rowIndex == 0
            else r.pins == Inputs(cfg.cond)
  {
    ScanProgress(cfg, s, cfg.total, levels);
  }

  /** A sync starts a scan at a slave that has its pins and waits at the first row. */
  lemma SyncStartsScan(cfg: Cfg, s: State)
    requires Fits(cfg, s) && s.pins == Inputs(cfg.cond) && s.rowIndex == 0 && cfg.total > 0
    ensures AtStart(cfg, s.(trigger := Started(s.trigger, cfg.total)))
  {
  }

  /** So the slave that owns the last wire can scan again after every scan. */
  lemma ScansAgain(cfg: Cfg, s: State, levels: Levels)
    requires AtStart(cfg, s) && cfg.cond > 0 && cfg.start + cfg.cond == cfg.total
    requires forall i :: 0 <= i < cfg.total ==> |levels(i)| == cfg.cond
    ensures var r := Callbacks(cfg, s, cfg.total, levels);
            var done := Reloaded(cfg, r).(trigger := Triggered(r.trigger));
            !done.trigger.running && AtStart(cfg, done.(trigger := Started(done.trigger, cfg.total)))
  {
    ReloadAfterScan(cfg, s, levels);
    var r := Callbacks(cfg, s, cfg.total, levels);
    SyncStartsScan(cfg, Reloaded(cfg, r).(trigger := Triggered(r.trigger)));
  }

  // ---------- the whole harness ----------

  /** Whether two wires of the harness conduct. */
  type Wiring = (nat, nat) -> bool

  /** The configuration the master sends to slave `k`. */
  function CfgOf(slaves: seq<Config>, k: nat): Cfg
    requires k < |slaves|
  {
    var c := Command(slaves, k);
    Cfg(c.cond, c.total, c.start)
  }

  /** What a slave stores of the request made for it is just this, with its place in the list as its slot. */
  lemma ConfiguredAsDealt(slaves: seq<Config>, k: nat)
    requires k < |slaves| <= 255
    ensures var f := Acknowledge.Asked(Command(slaves, k), k);
            && Acknowledge.SlaveStores(slaves[k].id, Acknowledge.RequestFrame(slaves[k].id, f)) == Some(f)
            && CfgOf(slaves, k) == Cfg(slaves[k].cond, f.total, f.start) && f.slot == k && f.interval == 20
            && f.cond as int == slaves[k].cond as int && f.total as int == Total(slaves) && f.start as int == Wires(slaves, k)
  {
    NothingWraps(slaves);
    var f := Acknowledge.Asked(Command(slaves, k), k);
    Acknowledge.AcknowledgedIsApplied(slaves[k].id, f, 0, f, f);
  }

  ghost predicate AllFit(slaves: seq<Config>, sys: seq<State>) {
    |sys| == |slaves| && forall k :: 0 <= k < |slaves| ==> Fits(CfgOf(slaves, k), sys[k])
  }

  /** Pin `i` of slave `k` is an output. */
  predicate Output(sys: seq<State>, k: nat, i: nat)
    requires k < |sys|
  {
    i < |sys[k].pins| && sys[k].pins[i].output
  }

  /** ... and drives its wire high. */
  predicate High(sys: seq<State>, k: nat, i: nat)
    requires k < |sys|
  {
    Output(sys, k, i) && sys[k].pins[i].high
  }

  /** What a pin at wire `wire` reads: whether some driven wire conducts to it. */
  ghost function Level(slaves: seq<Config>, sys: seq<State>, w: Wiring, wire: nat): int
    requires |sys| == |slaves|
  {
    if exists k, i :: 0 <= k < |slaves| && 0 <= i && High(sys, k, i) && w(CfgOf(slaves, k).start + i, wire) then 1 else 0
  }

  ghost function LevelsAt(slaves: seq<Config>, sys: seq<State>, w: Wiring, k: nat): seq<int>
    requires |sys| == |slaves| && k < |slaves|
  {
    var cfg := CfgOf(slaves, k);
    seq(cfg.cond as int, i requires 0 <= i < cfg.cond as int => Level(slaves, sys, w, cfg.start + i))
  }

  /** All slaves switch their pins; then, after the settling delay, all of them sample. */
  ghost function SwitchAll(slaves: seq<Config>, sys: seq<State>): (r: seq<State>)
    requires AllFit(slaves, sys)
    ensures AllFit(slaves, r)
  {
    seq(|slaves|, k requires 0 <= k < |slaves| =>
      sys[k].(pins := Switched(CfgOf(slaves, k), sys[k].pins, sys[k].rowIndex)))
  }

  ghost predicate AllAt(slaves: seq<Config>, sys: seq<State>, row: nat) {
    AllFit(slaves, sys) && forall k :: 0 <= k < |slaves| ==> sys[k].rowIndex == row
  }

  ghost function LockStep(slaves: seq<Config>, sys: seq<State>, w: Wiring, row: nat): (r: seq<State>)
    requires |slaves| <= 255 && row < Total(slaves) && AllAt(slaves, sys, row)
    ensures AllAt(slaves, r, row + 1)
  {
    NothingWraps(slaves);
    var mid := SwitchAll(slaves, sys);
    seq(|slaves|, k requires 0 <= k < |slaves| =>
      RowDone(CfgOf(slaves, k), sys[k], LevelsAt(slaves, mid, w, k)))
  }

  ghost predicate AllAtStart(slaves: seq<Config>, sys: seq<State>) {
    |sys| == |slaves| && forall k :: 0 <= k < |slaves| ==> AtStart(CfgOf(slaves, k), sys[k])
  }

  ghost function Rows(slaves: seq<Config>, sys: seq<State>, w: Wiring, n: nat): (r: seq<State>)
    requires |slaves| <= 255 && n <= Total(slaves) && AllAtStart(slaves, sys)
    ensures AllAt(slaves, r, n)
  {
    if n == 0 then sys else LockStep(slaves, Rows(slaves, sys, w, n - 1), w, n - 1)
  }

  /** Slave `k` after `n` rows: one pin at most is driven, and the rows so far are the wiring. */
  ghost predicate Sampled(cfg: Cfg, s: State, w: Wiring, n: nat) {
    && Fits(cfg, s)
    && (forall i :: 0 <= i < cfg.cond ==> s.pins[i] == if Drives(cfg, n, i) then DRIVEN else INPUT)
    && (forall r, i :: 0 <= r < n && r < cfg.total && 0 <= i < cfg.cond ==>
          s.rows[r][i] == if w(r, cfg.start + i) then 1 else 0)
  }

  /** One pin is an output in the whole harness, and high: that of the current row, at the slave that owns its wire. */
  ghost predicate OneDriver(slaves: seq<Config>, sys: seq<State>, row: nat)
    requires |sys| == |slaves|
  {
    && (exists k, i :: 0 <= k < |slaves| && 0 <= i && High(sys, k, i))
    && (forall k, i | 0 <= k < |slaves| && 0 <= i && Output(sys, k, i) ::
          High(sys, k, i) && Owns(Command(slaves, k), row) && CfgOf(slaves, k).start + i == row)
  }

  lemma SwitchDrivesOne(slaves: seq<Config>, sys: seq<State>, w: Wiring, row: nat)
    requires |slaves| <= 255 && row < Total(slaves) && AllAt(slaves, sys, row)
    requires forall k :: 0 <= k < |slaves| ==> Sampled(CfgOf(slaves, k), sys[k], w, row)
    ensures OneDriver(slaves, SwitchAll(slaves, sys), row)
    ensures forall k :: 0 <= k < |slaves| ==>
              forall i :: 0 <= i < CfgOf(slaves, k).cond ==>
                SwitchAll(slaves, sys)[k].pins[i] == if Drives(CfgOf(slaves, k), row + 1, i) then DRIVEN else INPUT
  {
    NothingWraps(slaves);
    var mid := SwitchAll(slaves, sys);
    forall k | 0 <= k < |slaves|
      ensures forall i :: 0 <= i < CfgOf(slaves, k).cond ==>
                mid[k].pins[i] == if Drives(CfgOf(slaves, k), row + 1, i) then DRIVEN else INPUT
    {
      SwitchedPins(CfgOf(slaves, k), sys[k], w, row);
    }
    var k := Owner(slaves, row, |slaves|);
    assert High(mid, k, row - Wires(slaves, k));
  }

  lemma SwitchedPins(cfg: Cfg, s: State, w: Wiring, row: nat)
    requires Sampled(cfg, s, w, row)
    ensures forall i :: 0 <= i < cfg.cond ==>
              Switched(cfg, s.pins, row)[i] == if Drives(cfg, row + 1, i) then DRIVEN else INPUT
  {
  }

  /** With one driver, a pin reads exactly whether its wire conducts to the wire of the row. */
  lemma LevelIsWiring(slaves: seq<Config>, sys: seq<State>, w: Wiring, row: nat, wire: nat)
    requires |sys| == |slaves| && OneDriver(slaves, sys, row)
    ensures Level(slaves, sys, w, wire) == if w(row, wire) then 1 else 0
  {
    var k, i :| 0 <= k < |slaves| && 0 <= i && High(sys, k, i);
    assert CfgOf(slaves, k).start + i == row;
  }

  lemma {:induction false} RowsSampled(slaves: seq<Config>, sys: seq<State>, w: Wiring, n: nat)
    requires |slaves| <= 255 && n <= Total(slaves) && AllAtStart(slaves, sys)
    ensures forall k :: 0 <= k < |slaves| ==> Sampled(CfgOf(slaves, k), Rows(slaves, sys, w, n)[k], w, n)
  {
    if n > 0 {
      RowsSampled(slaves, sys, w, n - 1);
      var before := Rows(slaves, sys, w, n - 1);
      SwitchDrivesOne(slaves, before, w, n - 1);
      assert Rows(slaves, sys, w, n) == LockStep(slaves, before, w, n - 1);
      forall k | 0 <= k < |slaves| ensures Sampled(CfgOf(slaves, k), Rows(slaves, sys, w, n)[k], w, n) {
        RowSampled(slaves, before, w, n - 1, k);
      }
    }
  }

  lemma RowSampled(slaves: seq<Config>, sys: seq<State>, w: Wiring, row: nat, k: nat)
    requires |slaves| <= 255 && row < Total(slaves) && AllAt(slaves, sys, row) && k < |slaves|
    requires OneDriver(slaves, SwitchAll(slaves, sys), row)
    requires Sampled(CfgOf(slaves, k), sys[k], w, row)
    ensures Sampled(CfgOf(slaves, k), LockStep(slaves, sys, w, row)[k], w, row + 1)
  {
    var cfg, mid := CfgOf(slaves, k), SwitchAll(slaves, sys);
    forall i | 0 <= i < cfg.cond
      ensures LevelsAt(slaves, mid, w, k)[i] == if w(row, cfg.start + i) then 1 else 0
    {
      LevelIsWiring(slaves, mid, w, row, cfg.start + i);
    }
    NothingWraps(slaves);
    RowDoneSampled(cfg, sys[k], w, row, LevelsAt(slaves, mid, w, k));
  }

  lemma RowDoneSampled(cfg: Cfg, s: State, w: Wiring, row: nat, levels: seq<int>)
    requires Sampled(cfg, s, w, row) && s.rowIndex == row < cfg.total && |levels| == cfg.cond
    requires forall i :: 0 <= i < cfg.cond ==> levels[i] == if w(row, cfg.start + i) then 1 else 0
    ensures Sampled(cfg, RowDone(cfg, s, levels), w, row + 1)
  {
    SwitchedPins(cfg, s, w, row);
  }

  /**
   The whole measurement: in every row exactly one wire of the harness is driven, and at the end
   the slaves' matrices, side by side, are the conduction relation.
   */
  lemma ScanMeasuresWiring(slaves: seq<Config>, sys: seq<State>, w: Wiring)
    requires |slaves| <= 255 && AllAtStart(slaves, sys)
    ensures forall row :: 0 <= row < Total(slaves) ==>
              OneDriver(slaves, SwitchAll(slaves, Rows(slaves, sys, w, row)), row)
    ensures forall k, r, i :: 0 <= k < |slaves| && 0 <= r < Total(slaves) && 0 <= i < slaves[k].cond ==>
              Fits(CfgOf(slaves, k), Rows(slaves, sys, w, Total(slaves))[k])
              && CfgOf(slaves, k).total as int == Total(slaves)
              && Rows(slaves, sys, w, Total(slaves))[k].rows[r][i] == if w(r, Wires(slaves, k) + i) then 1 else 0
  {
    NothingWraps(slaves);
    forall row | 0 <= row < Total(slaves)
      ensures OneDriver(slaves, SwitchAll(slaves, Rows(slaves, sys, w, row)), row)
    {
      RowsSampled(slaves, sys, w, row);
      SwitchDrivesOne(slaves, Rows(slaves, sys, w, row), w, row);
    }
    RowsSampled(slaves, sys, w, Total(slaves));
  }

  // ---------- reading out ----------

  function DataMsg(bytes: seq<byte>): Msg { CondData(|bytes| % 0x1_0000, bytes) }

  function DataFrame(bytes: seq<byte>, uid: dword, status: word): seq<byte> {
    Frame(S2B, PacketBytes(DataMsg(bytes), Route(uid, status)), 0, 0)
  }

  /** `ReadCondDataMsg::process` at a slave: the packed matrix, in a frame for the backend. */
  method AnswerRead(h: Harness, uid: dword, status: word) returns (frame: seq<byte>)
    requires h.Valid()
    ensures exists bytes :: Packed(Flat(h.data.matrix), bytes) && frame == DataFrame(bytes, uid, status)
  {
    var conductionData := h.data.Flatten();
    frame := DataFrame(conductionData, uid, status);
  }

  /**
   The matrix of a scan reaches the master, and determines what was sampled, if and only if its
   packed form has at most 65526 bytes; the frame of a larger one is rejected.
   */
  lemma ReadOutArrives(m: seq<seq<int>>, cols: nat, bytes: seq<byte>, uid: dword, status: word)
    requires Rectangular(m, cols) && Packed(Flat(m), bytes)
    ensures |bytes| == (|m| * cols + 7) / 8
    ensures Parse(MASTER, DataFrame(bytes, uid, status))
         == if |bytes| <= 65526 then Decoded(CondData(|bytes|, bytes)) else Rejected
  {
    FlatLength(m, cols);
    DataArrives(bytes, uid, status);
  }

  lemma DataArrives(bytes: seq<byte>, uid: dword, status: word)
    ensures Parse(MASTER, DataFrame(bytes, uid, status))
         == if |bytes| <= 65526 then Decoded(CondData(|bytes|, bytes)) else Rejected
  {
    var m, route := DataMsg(bytes), Route(uid, status);
    PacketParts(m, route);
    assert |PacketBytes(m, route)| == 9 + |bytes|;
    ParseRoundTrip(MASTER, m, route, 0, 0);
    FitsLength(bytes);
  }

  lemma FitsLength(bytes: seq<byte>)
    ensures |bytes| <= 65526 ==> Received(DataMsg(bytes)) == Decoded(CondData(|bytes|, bytes))
  {
  }

  /** The bits of a slave's packed matrix are the conduction relation between all wires and its own. */
  ghost predicate BitsAre(w: Wiring, total: nat, start: nat, cond: nat, bytes: seq<byte>) {
    forall r, i :: 0 <= r < total && 0 <= i < cond ==> BitAt(bytes, Index(r, i, cond)) == if w(r, start + i) then 1 else 0
  }

  lemma BitsAreWiring(cfg: Cfg, s: State, w: Wiring, bytes: seq<byte>)
    requires Sampled(cfg, s, w, cfg.total) && Packed(Flat(s.rows), bytes)
    ensures BitsAre(w, cfg.total, cfg.start, cfg.cond, bytes)
  {
    forall r, i | 0 <= r < cfg.total && 0 <= i < cfg.cond
      ensures BitAt(bytes, Index(r, i, cfg.cond)) == if w(r, cfg.start + i) then 1 else 0
    {
      FlattenExact(s.rows, cfg.cond, bytes, r, i);
    }
  }

  lemma ScannedBits(slaves: seq<Config>, sys: seq<State>, w: Wiring, k: nat, bytes: seq<byte>)
    requires |slaves| <= 255 && AllAtStart(slaves, sys) && k < |slaves|
    requires Packed(Flat(Rows(slaves, sys, w, Total(slaves))[k].rows), bytes)
    ensures BitsAre(w, Total(slaves), Wires(slaves, k), slaves[k].cond, bytes)
  {
    RowsSampled(slaves, sys, w, Total(slaves));
    NothingWraps(slaves);
    BitsAreWiring(CfgOf(slaves, k), Rows(slaves, sys, w, Total(slaves))[k], w, bytes);
  }

  /**
   From wiring to master: what slave `k` answers after a scan of the whole harness is received, and
   its bits are the wiring between all wires and the slave's own.
   */
  lemma MasterLearnsWiring(slaves: seq<Config>, sys: seq<State>, w: Wiring, k: nat, bytes: seq<byte>,
                           uid: dword, status: word)
    requires |slaves| <= 255 && AllAtStart(slaves, sys) && k < |slaves|
    requires Packed(Flat(Rows(slaves, sys, w, Total(slaves))[k].rows), bytes) && |bytes| <= 65526
    ensures Parse(MASTER, DataFrame(bytes, uid, status)) == Decoded(CondData(|bytes|, bytes))
    ensures BitsAre(w, Total(slaves), Wires(slaves, k), slaves[k].cond, bytes)
  {
    DataArrives(bytes, uid, status);
    ScannedBits(slaves, sys, w, k, bytes);
  }
}
