/** The master's slave manager: configuration batches, and the rounds of sync and read-out. */
module Manager {
  import opened Bytes
  import opened Partition
  import Protocol

  datatype CfgState = CONFIG_START | CONFIG_PROCESSING | CONFIG_DONE

  const CONDUCTION_TEST: byte := 0
  const CONDUCTION_TEST_INTERVAL := 20
  const SYNC_TIMER_PERIOD_REDUNDANCY_TICKS := 100

  datatype SlaveDev = SlaveDev(id: dword, timeSlot: byte)

  /** What the manager puts on the radio. A read is sent until answered, at most four times. */
  datatype Radio = Configure(id: dword, timeSlot: byte) | Sync(mode: byte) | Read(id: dword)

  /** An auto-reload software timer; `due` is the tick of its next expiry while it is active. */
  datatype Timer = Timer(period: nat, due: Option<nat>) {
    function Restarted(now: nat): Timer { this.(due := Some(now + period)) }

    function Reloaded(): Timer { if due.Some? then this.(due := Some(due.value + period)) else this }
  }

  /** Where the task is: in its loop, or blocked while it reads all devices or sends a sync. */
  datatype Task = Looping | Reading | Sending

  /** The manager's fields, the sync semaphore and timer, and a record of its radio actions. */
  datatype Mgr = Mgr(slaveDev: seq<SlaveDev>, timeSlot: byte, slaveDevIndex: word, slaveNum: word, cfgState: CfgState,
                     mode: byte, enabled: bool, running: bool, waitForData: bool, syncSem: bool, total: word,
                     syncMode: byte, configOk: bool, timer: Timer, task: Task, radio: seq<Radio>)

  const BOOTED := Mgr([], 0, 0, 0, CONFIG_START, CONDUCTION_TEST, false, false, false, false, 0, 0, false,
                      Timer(500, None), Looping, [])

  datatype Action =
    | Config(cmd: CfgCmd, acked: bool)  // a configuration command is taken from the queue
    | SetMode(newMode: byte)            // ... a mode command
    | Control(enable: bool)             // ... a control command
    | Other                             // ... any other command
    | Poll                              // the task looks at the sync semaphore
    | ReadDone                          // all devices have been read
    | SendDone                          // the sync frame has been sent, or given up
    | TimerFires                        // the sync timer's callback

  datatype Event = Event(now: nat, action: Action)

  /** `get_timer_period`, cut to sixteen bits by its return type; one tick is a millisecond. */
  function TimerPeriod(mode: byte, total: word): word {
    if mode == CONDUCTION_TEST
    then (CONDUCTION_TEST_INTERVAL * total + SYNC_TIMER_PERIOD_REDUNDANCY_TICKS) % 0x1_0000 else 1000
  }

  /** The first command of a batch begins a new list. */
  function Opened(s: Mgr, c: CfgCmd): Mgr {
    if s.cfgState == CONFIG_START then s.(timeSlot := 0, slaveDevIndex := 0, slaveNum := c.devNum, slaveDev := []) else s
  }

  function Registering(s: Mgr, c: CfgCmd): Mgr {
    var i := (s.slaveDevIndex + 1) % 0x1_0000;
    s.(slaveDev := s.slaveDev + [SlaveDev(c.id, s.timeSlot)], timeSlot := (s.timeSlot + 1) % 0x100,
       slaveDevIndex := i, cfgState := if i >= c.devNum then CONFIG_START else CONFIG_PROCESSING)
  }

  /** `config_process`: register the device in the next slot, whether or not it answered. */
  function Configured(s: Mgr, c: CfgCmd, acked: bool): Mgr {
    var t := Opened(s, c);
    var sent := if s.cfgState == CONFIG_DONE then t.(configOk := true)
                else t.(radio := t.radio + [Radio.Configure(c.id, t.timeSlot)], total := c.total, configOk := acked);
    Registering(sent, c)
  }

  function SessionBegun(s: Mgr, now: nat): Mgr {
    s.(running := true, slaveDevIndex := 0, waitForData := false, syncSem := true,
       timer := Timer(TimerPeriod(s.mode, s.total), None).Restarted(now))
  }

  /** An enable is accepted once, and then gives the semaphore and arms the timer. */
  function Controlled(s: Mgr, enable: bool, now: nat): Mgr {
    var t := s.(enabled := enable, syncMode := s.mode);
    if enable
    then if s.slaveNum > 0 && !s.running
         then SessionBegun(t, now) else t
    else t.(running := false, timer := t.timer.(due := None))
  }

  /** One read request to every registered device, in the order of registration. */
  function ReadAll(devs: seq<SlaveDev>): seq<Radio> {
    if devs == [] then [] else ReadAll(devs[..|devs| - 1]) + [Read(devs[|devs| - 1].id)]
  }

  function Reads(s: Mgr): seq<Radio> { if s.mode == CONDUCTION_TEST then ReadAll(s.slaveDev) else [] }

  predicate SyncDue(s: Mgr) { s.enabled && s.syncSem }

  function SyncBegun(s: Mgr): Mgr {
    s.(waitForData := true, radio := s.radio + [Sync(s.syncMode)], task := Sending)
  }

  /** The timer is stopped while the devices are read, and runs while the sync is sent. */
  function Polled(s: Mgr): Mgr {
    if !SyncDue(s) then s
    else
      var t := s.(syncSem := false);
      if s.waitForData then t.(timer := t.timer.(due := None), radio := t.radio + Reads(s), task := Reading)
      else SyncBegun(t)
  }

  /** Changing the timer's period to 0 fails an assertion, which stops the master for good. */
  predicate Halted(s: Mgr) { s.timer.period == 0 }

  predicate Possible(s: Mgr, a: Action) {
    && !Halted(s)
    && match a
       case TimerFires => true
       case ReadDone => s.task.Reading?
       case SendDone => s.task.Sending?
       case _ => s.task.Looping?
  }

  function Step(s: Mgr, e: Event): Mgr {
    if !Possible(s, e.action) then s
    else match e.action
      case Config(c, acked) => if s.running then s else Configured(s, c, acked)
      case SetMode(m) => if s.running then s else s.(mode := m)
      case Control(enable) => Controlled(s, enable, e.now)
      case Other => s
      case Poll => Polled(s)
      case ReadDone => SyncBegun(s.(timer := s.timer.Restarted(e.now)))
      case SendDone => s.(timer := s.timer.Restarted(e.now), task := Looping)
      case TimerFires => s.(syncSem := true, timer := s.timer.Reloaded())
  }

  function Run(s: Mgr, es: seq<Event>): Mgr {
    if es == [] then s else Step(Run(s, es[..|es| - 1]), es[|es| - 1])
  }

  class SlaveManager {
    var slaveDev: seq<SlaveDev>
    var timeSlot: byte
    var slaveDevIndex: word
    var slaveNum: word
    var cfgState: CfgState
    var mode: byte
    var enabled: bool
    var running: bool
    var waitForData: bool
    var syncSem: bool
    var total: word
    var syncMode: byte
    var configOk: bool
    var syncTimer: Timer
    ghost var task: Task
    ghost var radio: seq<Radio>

    ghost function View(): Mgr
      reads this
    {
      Mgr(slaveDev, timeSlot, slaveDevIndex, slaveNum, cfgState, mode, enabled, running, waitForData, syncSem, total,
          syncMode, configOk, syncTimer, task, radio)
    }

    constructor ()
      ensures View() == BOOTED
    {
      slaveDev, timeSlot, slaveDevIndex, slaveNum, cfgState := [], 0, 0, 0, CONFIG_START;
      mode, enabled, running, waitForData, syncSem := CONDUCTION_TEST, false, false, false, false;
      total, syncMode, configOk, syncTimer, task, radio := 0, 0, false, Timer(500, None), Looping, [];
    }

    method ConfigProcess(cmd: CfgCmd, acked: bool)
      modifies this
      ensures View() == Configured(old(View()), cmd, acked)
    {
      var ret := true;
      match cfgState {
        case CONFIG_START =>
          StartList(cmd);
          ret := SendConfig(cmd, acked);
        case CONFIG_PROCESSING =>
          ret := SendConfig(cmd, acked);
        case CONFIG_DONE =>
      }
      configOk := ret;
      Register(cmd);
    }

    method StartList(cmd: CfgCmd)
      modifies this`timeSlot, this`slaveDevIndex, this`slaveNum, this`slaveDev
      ensures View() == old(View()).(timeSlot := 0, slaveDevIndex := 0, slaveNum := cmd.devNum, slaveDev := [])
    {
      timeSlot := 0;
      slaveDevIndex := 0;
      slaveNum := cmd.devNum;
      slaveDev := [];
    }

    method Register(cmd: CfgCmd)
      modifies this`slaveDev, this`timeSlot, this`slaveDevIndex, this`cfgState
      ensures View() == Registering(old(View()), cmd)
    {
      slaveDev := slaveDev + [SlaveDev(cmd.id, timeSlot)];
      timeSlot := (timeSlot + 1) % 0x100;
      slaveDevIndex := (slaveDevIndex + 1) % 0x1_0000;
      if slaveDevIndex >= cmd.devNum {
        cfgState := CONFIG_START;
      } else {
        cfgState := CONFIG_PROCESSING;
      }
    }

    /** `acked` is what sending the configuration comes to. */
    method SendConfig(cmd: CfgCmd, acked: bool) returns (ok: bool)
      modifies this`total, this`radio
      ensures ok == acked
      ensures View() == old(View()).(total := cmd.total, radio := old(radio) + [Radio.Configure(cmd.id, timeSlot)])
    {
      total := cmd.total;
      radio := radio + [Radio.Configure(cmd.id, timeSlot)];
      ok := acked;
    }

    method GetTimerPeriod() returns (period: word)
      ensures period == TimerPeriod(mode, total)
    {
      if mode == CONDUCTION_TEST {
        return (CONDUCTION_TEST_INTERVAL * total + SYNC_TIMER_PERIOD_REDUNDANCY_TICKS) % 0x1_0000;
      }
      period := 1000;
    }

    method CtrlProcess(enable: bool, now: nat)
      modifies this`syncMode, this`enabled, this`running, this`slaveDevIndex, this`waitForData, this`syncSem, this`syncTimer
      ensures View() == Controlled(old(View()), enable, now)
    {
      syncMode := mode;
      enabled := enable;
      if enabled {
        if slaveNum > 0 {
          if !running {
            StartSession(now);
          }
        }
      } else {
        running := false;
        syncTimer := syncTimer.(due := None);
      }
    }

    method StartSession(now: nat)
      modifies this`running, this`slaveDevIndex, this`waitForData, this`syncSem, this`syncTimer
      ensures View() == SessionBegun(old(View()), now)
    {
      running := true;
      var period := GetTimerPeriod();
      slaveDevIndex := 0;
      waitForData := false;
      syncSem := true;
      syncTimer := Timer(period, Some(now + period));
    }

    method ReadCondDataProcess()
      modifies this`radio
      ensures radio == old(radio) + ReadAll(slaveDev)
    {
      for i := 0 to |slaveDev|
        invariant radio == old(radio) + ReadAll(slaveDev[..i])
      {
        radio := radio + [Read(slaveDev[i].id)];
        assert slaveDev[..i + 1][..i] == slaveDev[..i];
      }
      assert slaveDev[..|slaveDev|] == slaveDev;
    }

    /** The body of the task loop for one command. */
    method Handle(e: Event)
      requires Possible(View(), e.action)
      requires e.action.Config? || e.action.SetMode? || e.action.Control? || e.action.Other?
      modifies this
      ensures View() == Step(old(View()), e)
    {
      match e.action
      case Config(cmd, acked) =>
        if !running {
          ConfigProcess(cmd, acked);
        }
      case SetMode(m) =>
        if !running {
          mode := m;
        }
      case Control(enable) => CtrlProcess(enable, e.now);
      case Other =>
    }

    // The rest of the task loop, cut where the task blocks.

    method PollSync()
      modifies this
      ensures View() == Polled(old(View()))
    {
      if enabled {
        if syncSem {
          syncSem := false;
          if waitForData {
            syncTimer := syncTimer.(due := None);
            if mode == CONDUCTION_TEST {
              ReadCondDataProcess();
            }
            task := Reading;
          } else {
            SendSync();
          }
        }
      }
    }

    method EndRead(now: nat)
      modifies this
      ensures View() == SyncBegun(old(View()).(timer := old(View()).timer.Restarted(now)))
    {
      waitForData := false;
      syncTimer := syncTimer.Restarted(now);
      if !waitForData {
        SendSync();
      }
    }

    method SendSync()
      modifies this`waitForData, this`radio, this`task
      ensures View() == SyncBegun(old(View()))
    {
      waitForData := true;
      radio := radio + [Sync(syncMode)];
      task := Sending;
    }

    method EndSend(now: nat)
      modifies this`syncTimer, this`task
      ensures View() == old(View()).(timer := old(View()).timer.Restarted(now), task := Looping)
    {
      syncTimer := syncTimer.Restarted(now);
      task := Looping;
    }

    /** The callback, and the reload of its timer. */
    method SyncTimerCallback()
      modifies this`syncSem, this`syncTimer
      ensures View() == old(View()).(syncSem := true, timer := old(View()).timer.Reloaded())
    {
      syncTimer := syncTimer.Reloaded();
      syncSem := true;
    }
  }

  // ---------- a batch of configurations ----------

  /** The events are the commands, taken one after the other, at any time and whatever comes of them. */
  ghost predicate IsBatch(es: seq<Event>, cmds: seq<CfgCmd>) {
    |es| == |cmds| <= 255
    && forall i :: 0 <= i < |es| ==> es[i].action.Config? && es[i].action.cmd == cmds[i] && cmds[i].devNum as int == |cmds|
  }

  ghost predicate Registered(s: Mgr, cmds: seq<CfgCmd>, k: nat)
    requires k <= |cmds| <= 255
  {
    && |s.slaveDev| == k == s.slaveDevIndex as int == s.timeSlot as int
    && (forall i :: 0 <= i < k ==> s.slaveDev[i] == SlaveDev(cmds[i].id, i))
    && s.slaveNum as int == |cmds| && OutsideSession(s)
    && s.cfgState == if k == |cmds| then CONFIG_START else CONFIG_PROCESSING
  }

  /** No session is going on, and the task takes commands. */
  ghost predicate OutsideSession(s: Mgr) { !s.running && s.task.Looping? && !Halted(s) }

  lemma RegisterOne(r: Mgr, cmds: seq<CfgCmd>, k: nat, e: Event)
    requires k < |cmds| <= 255 && cmds[k].devNum as int == |cmds| && e.action.Config? && e.action.cmd == cmds[k]
    requires if k == 0 then OutsideSession(r) && r.cfgState == CONFIG_START else Registered(r, cmds, k)
    ensures var q := Step(r, e);
            && Registered(q, cmds, k + 1) && q.total == cmds[k].total && q.configOk == e.action.acked
            && q.radio == r.radio + [Radio.Configure(cmds[k].id, k)]
  {
  }

  /** The frames of the first `k` commands. */
  function Frames(cmds: seq<CfgCmd>, k: nat): seq<Radio>
    requires k <= |cmds| <= 255
  {
    if k == 0 then [] else Frames(cmds, k - 1) + [Radio.Configure(cmds[k - 1].id, k - 1)]
  }

  /**
   An uninterrupted batch registers exactly its devices, in order, one slot after the other, and
   each command succeeds exactly when it was acknowledged.
   */
  lemma {:induction false} BatchRegisters(s: Mgr, es: seq<Event>, cmds: seq<CfgCmd>, k: nat)
    requires OutsideSession(s) && s.cfgState == CONFIG_START && IsBatch(es, cmds) && 0 < k <= |cmds|
    ensures var r := Run(s, es[..k]);
            && Registered(r, cmds, k) && r.total == cmds[k - 1].total && r.radio == s.radio + Frames(cmds, k)
            && r.configOk == es[k - 1].action.acked
  {
    assert es[..k][..k - 1] == es[..k - 1];
    var r := Run(s, es[..k - 1]);
    if k > 1 {
      BatchRegisters(s, es, cmds, k - 1);
    } else {
      assert r == s && s.radio + [] == s.radio;
    }
    RegisterOne(r, cmds, k - 1, es[k - 1]);
    assert s.radio + Frames(cmds, k - 1) + [Radio.Configure(cmds[k - 1].id, k - 1)] == s.radio + Frames(cmds, k);
  }

  function Commands(slaves: seq<Protocol.Config>): seq<CfgCmd> {
    seq(|slaves|, k requires 0 <= k < |slaves| => Command(slaves, k))
  }

  /** The commands dealt out for a decoded list leave the manager with that list, and the wires it adds up to. */
  lemma DealtBatchRegisters(s: Mgr, es: seq<Event>, slaves: seq<Protocol.Config>)
    requires OutsideSession(s) && s.cfgState == CONFIG_START && 0 < |slaves| && IsBatch(es, Commands(slaves))
    ensures var r := Run(s, es);
            && |r.slaveDev| == |slaves| && r.total as int == Total(slaves) && r.cfgState == CONFIG_START
            && forall i :: 0 <= i < |slaves| ==> r.slaveDev[i] == SlaveDev(slaves[i].id, i)
  {
    NothingWraps(slaves);
    BatchRegisters(s, es, Commands(slaves), |slaves|);
    assert es[..|slaves|] == es;
  }

  // ---------- a session ----------

  predicate NoDisable(es: seq<Event>) {
    forall i :: 0 <= i < |es| ==> es[i].action != Control(false)
  }

  /** `n` rounds: a sync, and then before each further sync a read of every device. */
  function Rounds(reading: seq<Radio>, sync: Radio, n: nat): seq<Radio> {
    if n == 0 then [] else if n == 1 then [sync] else Rounds(reading, sync, n - 1) + reading + [sync]
  }

  /** What holds through a session that was begun in state `s`, after `n` syncs. */
  ghost predicate InSession(s: Mgr, r: Mgr, n: nat) {
    && r.running && r.enabled && r.mode == r.syncMode == s.mode && r.slaveDev == s.slaveDev
    && r.slaveNum == s.slaveNum > 0 && r.total == s.total && r.timer.period == TimerPeriod(s.mode, s.total)
    && (r.waitForData <==> n > 0) && (!r.task.Looping? ==> n > 0)
    && r.radio == s.radio + Rounds(Reads(s), Sync(s.mode), n) + if r.task.Reading? then Reads(s) else []
  }

  /**
   From an accepted enable to the next disable, whatever commands come and however timer and task
   interleave: the mode and the devices stay as they are, and the radio carries a sync and then,
   for each further sync, first a read of every device in the order of registration.
   */
  lemma {:induction false} Session(s: Mgr, es: seq<Event>, now: nat)
    requires OutsideSession(s) && s.slaveNum > 0 && NoDisable(es)
    ensures exists n :: InSession(s, Run(Step(s, Event(now, Control(true))), es), n)
  {
    var s1 := Step(s, Event(now, Control(true)));
    if es != [] {
      var before, e := es[..|es| - 1], es[|es| - 1];
      Session(s, before, now);
      assert e.action != Control(false);
      var n :| InSession(s, Run(s1, before), n);
      SessionStep(s, Run(s1, before), n, e);
      assert Run(s1, es) == Step(Run(s1, before), e);
    } else {
      assert s.radio + Rounds(Reads(s), Sync(s.mode), 0) + [] == s.radio;
      assert Run(s1, es) == s1 && InSession(s, s1, 0);
    }
  }

  lemma SessionStep(s: Mgr, r: Mgr, n: nat, e: Event)
    requires InSession(s, r, n) && e.action != Control(false)
    ensures InSession(s, Step(r, e), n) || InSession(s, Step(r, e), n + 1)
  {
    var reading, sync := Reads(s), Sync(s.mode);
    var so := s.radio + Rounds(reading, sync, n);
    assert so + [] == so;
    if Possible(r, e.action) && e.action.ReadDone? {
      assert so + reading + [sync] == s.radio + (Rounds(reading, sync, n) + reading + [sync]);
      assert InSession(s, Step(r, e), n + 1);
    } else if Possible(r, e.action) && e.action.Poll? && SyncDue(r) {
      if n == 0 {
        assert Rounds(reading, sync, 0) == [] && s.radio + [] + [sync] == s.radio + [sync];
        assert InSession(s, Step(r, e), 1);
      } else {
        assert InSession(s, Step(r, e), n);
      }
    } else {
      assert InSession(s, Step(r, e), n);
    }
  }

  /** The reads of a session: in the mode for conduction tests each device once, in order; otherwise none. */
  lemma {:induction false} ReadsAreAll(devs: seq<SlaveDev>)
    ensures |ReadAll(devs)| == |devs| && forall i :: 0 <= i < |devs| ==> ReadAll(devs)[i] == Read(devs[i].id)
  {
    if devs != [] {
      ReadsAreAll(devs[..|devs| - 1]);
    }
  }

  lemma SessionReads(s: Mgr)
    ensures if s.mode == 0 then |Reads(s)| == |s.slaveDev| && forall i :: 0 <= i < |s.slaveDev| ==> Reads(s)[i] == Read(s.slaveDev[i].id)
            else Reads(s) == []
  {
    ReadsAreAll(s.slaveDev);
  }

  // ---------- after a session ----------

  /** No session, and no enable that waits for one. */
  ghost predicate Disabled(s: Mgr) { OutsideSession(s) && !s.enabled && s.timer.due.None? }

  /** A disable ends the session, stops the timer, and leaves the list of devices and the record as they are. */
  lemma DisableEndsSession(s: Mgr, r: Mgr, n: nat, now: nat)
    requires InSession(s, r, n) && r.task.Looping? && !Halted(r)
    ensures var q := Step(r, Event(now, Control(false)));
            && !q.running && !q.enabled && q.timer.due == None && q.task.Looping? && OutsideSession(q) && Disabled(q)
            && q.radio == r.radio && q.slaveDev == s.slaveDev && q.slaveNum == s.slaveNum && q.mode == s.mode
            && q.total == s.total
  {
  }

  predicate NoEnable(es: seq<Event>) {
    forall i :: 0 <= i < |es| ==> es[i].action != Control(true)
  }

  /** The frames sent since `s` are all configurations. */
  ghost predicate OnlyConfigures(s: Mgr, r: Mgr) {
    s.radio <= r.radio && forall i :: |s.radio| <= i < |r.radio| ==> r.radio[i].Configure?
  }

  /** Until the next enable nothing is synchronised and nothing is read, even if the timer should still fire. */
  lemma {:induction false} DisabledStaysSilent(s: Mgr, es: seq<Event>)
    requires OutsideSession(s) && !s.enabled && NoEnable(es)
    ensures var r := Run(s, es);
            OutsideSession(r) && !r.enabled && OnlyConfigures(s, r)
  {
    if es != [] {
      DisabledStaysSilent(s, es[..|es| - 1]);
      assert es[|es| - 1].action != Control(true);
    }
  }

  /** Outside a session configurations and modes are taken again, and with a device listed the next enable begins one. */
  lemma CommandsAreTaken(s: Mgr, now: nat)
    requires OutsideSession(s)
    ensures forall m: byte :: Step(s, Event(now, SetMode(m))) == s.(mode := m)
    ensures forall c: CfgCmd, acked: bool ::
              var q := Step(s, Event(now, Config(c, acked)));
              |q.slaveDev| > 0 && q.slaveDev[|q.slaveDev| - 1].id == c.id && OutsideSession(q)
              && (s.cfgState == CONFIG_START ==> |q.slaveDev| == 1 && q.slaveNum == c.devNum)
    ensures s.slaveNum > 0 ==>
              var q := Step(s, Event(now, Control(true)));
              InSession(s, q, 0) && q.syncSem && q.timer.due == Some(now + q.timer.period)
  {
    assert s.radio + [] + [] == s.radio;
  }
}
