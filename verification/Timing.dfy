/**
 Master and slaves on one clock: whether a scan can still be going on when its data is read.

 The master's sync timer and each slave's scan timer expire at ticks that follow from when they
 were started; time passes only up to the next expiry. Everything else may happen at any tick.
 */
module Timing {
  import opened Bytes
  import opened Manager
  import Scan

  const LOOP_DELAY := 5

  /** `due` is the next expiry of the scan timer, `pending` a sync that is on its way to the slave. */
  datatype Slave = Slave(told: word, trigger: Scan.Trigger, due: nat, pending: bool)

  /**
   `loopAt` is the tick from which the master's loop goes on, `since` the tick of the enable or of
   the sync that is being sent, and `returned` the tick at which the last one had been sent.
   */
  datatype World = World(m: Mgr, now: nat, slaves: seq<Slave>, loopAt: nat, since: nat, returned: nat)

  /**
   How long the world keeps the master waiting: from an enable to its first sync, while it sends a
   sync, and from then until the last slave that hears the sync at all has heard it.
   */
  datatype Env = Env(wait: nat, send: nat, hear: nat)

  datatype Happening = Pass(ticks: nat) | Act(action: Action) | Hears(k: nat) | Expires(k: nat)

  predicate Due(w: World) { w.m.timer.due.Some? && w.m.timer.due.value <= w.now }

  predicate FirstSyncDue(m: Mgr) { m.running && m.task.Looping? && !m.waitForData }

  /**
   The timer task has the highest priority: nothing else happens on a board while its timer is due.
   Slaves and master are different boards, and in one tick either may be first.
   */
  ghost predicate Can(w: World, env: Env, h: Happening) {
    match h
    case Pass(d) =>
      && d > 0
      && (w.m.timer.due.Some? ==> w.now + d <= w.m.timer.due.value)
      && (forall k :: 0 <= k < |w.slaves| && w.slaves[k].trigger.running ==> w.now + d <= w.slaves[k].due)
      && (w.m.task.Sending? ==> w.now + d <= w.since + env.send)
      && (FirstSyncDue(w.m) ==> w.now + d <= w.since + env.wait)
    case Act(a) =>
      Possible(w.m, a) && if a.TimerFires? then Due(w) else !Due(w) && (w.m.task.Looping? ==> w.loopAt <= w.now)
    case Hears(k) =>
      k < |w.slaves| && w.slaves[k].pending && (w.m.task.Sending? || w.now <= w.returned + env.hear)
    case Expires(k) => k < |w.slaves| && w.slaves[k].trigger.running && w.slaves[k].due <= w.now
  }

  function Heard(s: Slave, now: nat): Slave {
    s.(pending := false, trigger := Scan.Started(s.trigger, s.told),
       due := if s.told > 0 then now + CONDUCTION_TEST_INTERVAL else s.due)
  }

  function Expired(s: Slave): Slave {
    s.(trigger := Scan.Triggered(s.trigger), due := s.due + CONDUCTION_TEST_INTERVAL)
  }

  /** A sync is on its way to every slave. */
  function Awaiting(slaves: seq<Slave>): seq<Slave> {
    seq(|slaves|, k requires 0 <= k < |slaves| => slaves[k].(pending := true))
  }

  function Acted(w: World, a: Action): World {
    var m := Step(w.m, Event(w.now, a));
    var begins := m.task.Sending? && !w.m.task.Sending?;
    World(m, w.now,
          if begins then Awaiting(w.slaves) else w.slaves,
          if a.SendDone? || (a.Poll? && m.task.Looping?) then w.now + LOOP_DELAY else w.loopAt,
          if begins || (m.running && !w.m.running) then w.now else w.since,
          if a.SendDone? then w.now else w.returned)
  }

  function Next(w: World, h: Happening): World {
    match h
    case Pass(d) => w.(now := w.now + d)
    case Act(a) => Acted(w, a)
    case Hears(k) => if k < |w.slaves| then w.(slaves := w.slaves[k := Heard(w.slaves[k], w.now)]) else w
    case Expires(k) => if k < |w.slaves| then w.(slaves := w.slaves[k := Expired(w.slaves[k])]) else w
  }

  function At(w: World, hs: seq<Happening>): World {
    if hs == [] then w else Next(At(w, hs[..|hs| - 1]), hs[|hs| - 1])
  }

  /** A run on the clock, up to a disable. */
  ghost predicate Timed(w: World, env: Env, hs: seq<Happening>) {
    hs != [] ==>
      var before, h := hs[..|hs| - 1], hs[|hs| - 1];
      Timed(w, env, before) && Can(At(w, before), env, h) && h != Act(Control(false))
  }

  /** The world in which a session can begin: no slave scans, and each has been told the manager's total. */
  ghost predicate Ready(w: World, mode: byte, total: word) {
    && OutsideSession(w.m) && w.m.slaveNum > 0 && w.m.mode == mode && w.m.total == total
    && forall k :: 0 <= k < |w.slaves| ==>
         w.slaves[k].told == total && !w.slaves[k].trigger.running && !w.slaves[k].pending
  }

  function Enabled(w: World): World { Next(w, Act(Control(true))) }

  /** When the master reads, and when it sends a sync, nobody scans; and no sync restarts a scan. */
  ghost predicate SafeStep(w: World, h: Happening) {
    && (h == Act(Poll) && SyncDue(w.m) ==> forall k :: 0 <= k < |w.slaves| ==> !w.slaves[k].trigger.running)
    && (h.Hears? && h.k < |w.slaves| ==> !w.slaves[h.k].trigger.running)
  }

  ghost predicate Safe(w: World, hs: seq<Happening>) {
    hs != [] ==> Safe(w, hs[..|hs| - 1]) && SafeStep(At(w, hs[..|hs| - 1]), hs[|hs| - 1])
  }

  // ---------- timed runs are sessions ----------

  /** What the manager goes through in a run. */
  function Acts(w: World, hs: seq<Happening>): seq<Event> {
    if hs == [] then []
    else
      var before, h := hs[..|hs| - 1], hs[|hs| - 1];
      Acts(w, before) + if h.Act? then [Event(At(w, before).now, h.action)] else []
  }

  lemma {:induction false} TimedIsRun(w: World, env: Env, hs: seq<Happening>)
    requires Timed(w, env, hs)
    ensures At(w, hs).m == Run(w.m, Acts(w, hs)) && NoDisable(Acts(w, hs))
  {
    if hs != [] {
      var before, h := hs[..|hs| - 1], hs[|hs| - 1];
      TimedIsRun(w, env, before);
      var es := Acts(w, before);
      if h.Act? {
        var e := Event(At(w, before).now, h.action);
        assert (es + [e])[..|es + [e]| - 1] == es;
      } else {
        assert es + [] == es;
      }
    }
  }

  /** So what is proved of sessions holds on the clock. */
  lemma TimedSession(w: World, env: Env, hs: seq<Happening>)
    requires OutsideSession(w.m) && w.m.slaveNum > 0 && Timed(Enabled(w), env, hs)
    ensures exists n :: InSession(w.m, At(Enabled(w), hs).m, n)
  {
    TimedIsRun(Enabled(w), env, hs);
    Session(w.m, Acts(Enabled(w), hs), w.now);
  }

  // ---------- when scans do not overlap ----------

  /** A scan ends with the callback after its last row. */
  function ScanTime(total: nat): nat { CONDUCTION_TEST_INTERVAL * (total + 1) }

  /** The condition: a period outlasts a scan, and the timer cannot expire while the first sync is sent. */
  predicate Spaced(mode: byte, total: word, env: Env) {
    var period := TimerPeriod(mode, total);
    ScanTime(total) + env.hear < period && (env.send == 0 || env.wait + env.send < period)
  }

  /** A slave that scans is told `total`, and its last callback comes no later than `last`. */
  ghost predicate SlaveOk(s: Slave, now: nat, total: word, last: nat) {
    && s.told == total && (s.pending ==> !s.trigger.running)
    && (s.trigger.running ==>
          s.trigger.max == total && 0 <= s.trigger.count <= total
          && now <= s.due && s.due + CONDUCTION_TEST_INTERVAL * (total - s.trigger.count) <= last)
  }

  ghost predicate SlavesOk(w: World, total: word, last: nat) {
    forall k :: 0 <= k < |w.slaves| ==> SlaveOk(w.slaves[k], w.now, total, last)
  }

  ghost predicate SlavesIdle(w: World, total: word) {
    forall k :: 0 <= k < |w.slaves| ==> w.slaves[k].told == total && !w.slaves[k].trigger.running
  }

  ghost predicate NonePending(w: World) {
    forall k :: 0 <= k < |w.slaves| ==> !w.slaves[k].pending
  }

  /** In a session, before its first sync. */
  ghost predicate InFirst(w: World, env: Env, period: nat, total: word) {
    && FirstSyncDue(w.m) && w.m.syncSem && w.now <= w.since + env.wait && w.m.timer.due.Some?
    && (env.send > 0 ==> w.m.timer.due.value == w.since + period)
    && SlavesIdle(w, total) && NonePending(w)
  }

  /** While a sync is sent the timer does not expire. */
  ghost predicate InSending(w: World, env: Env, total: word) {
    && w.m.task.Sending? && w.m.waitForData && !w.m.syncSem && w.m.timer.due.Some?
    && w.now <= w.since + env.send < w.m.timer.due.value
    && SlavesOk(w, total, w.now + ScanTime(total))
  }

  /** Between a sync and the read: the semaphore is given no earlier than a period after the sync. */
  ghost predicate InScan(w: World, env: Env, period: nat, total: word) {
    && w.m.task.Looping? && w.m.waitForData && w.m.timer.due.Some? && w.returned <= w.now
    && (if w.m.syncSem then w.returned + period <= w.now else w.m.timer.due.value == w.returned + period)
    && SlavesOk(w, total, w.returned + env.hear + ScanTime(total))
  }

  ghost predicate InReading(w: World, env: Env, total: word) {
    && w.m.task.Reading? && w.m.waitForData && !w.m.syncSem && w.m.timer.due.None?
    && w.returned + env.hear < w.now && SlavesIdle(w, total)
  }

  ghost predicate Good(w: World, env: Env, mode: byte, total: word) {
    var period := TimerPeriod(mode, total);
    && w.m.running && w.m.enabled && w.m.timer.period == period
    && (InFirst(w, env, period, total) || InSending(w, env, total) || InScan(w, env, period, total)
        || InReading(w, env, total))
  }

  lemma PassKeepsGood(w: World, env: Env, mode: byte, total: word, d: nat)
    requires Good(w, env, mode, total) && Can(w, env, Pass(d))
    ensures Good(Next(w, Pass(d)), env, mode, total)
  {
  }

  lemma HearsKeepsGood(w: World, env: Env, mode: byte, total: word, k: nat)
    requires Good(w, env, mode, total) && Can(w, env, Hears(k))
    ensures Good(Next(w, Hears(k)), env, mode, total) && SafeStep(w, Hears(k))
  {
  }

  lemma ExpiresKeepsGood(w: World, env: Env, mode: byte, total: word, k: nat)
    requires Good(w, env, mode, total) && Can(w, env, Expires(k))
    ensures Good(Next(w, Expires(k)), env, mode, total)
  {
  }

  /** The heart of it: a poll that finds the semaphore comes a full period after the last sync, if there was one. */
  lemma PollKeepsGood(w: World, env: Env, mode: byte, total: word)
    requires Spaced(mode, total, env) && Good(w, env, mode, total) && Can(w, env, Act(Poll))
    ensures Good(Acted(w, Poll), env, mode, total) && SafeStep(w, Act(Poll))
  {
    if InScan(w, env, TimerPeriod(mode, total), total) && SyncDue(w.m) {
      forall k | 0 <= k < |w.slaves| ensures !w.slaves[k].trigger.running {
        assert SlaveOk(w.slaves[k], w.now, total, w.returned + env.hear + ScanTime(total));
      }
    }
  }

  lemma ActKeepsGood(w: World, env: Env, mode: byte, total: word, a: Action)
    requires Spaced(mode, total, env) && Good(w, env, mode, total) && Can(w, env, Act(a)) && a != Control(false)
    ensures Good(Acted(w, a), env, mode, total) && SafeStep(w, Act(a))
  {
    if a.Poll? {
      PollKeepsGood(w, env, mode, total);
    }
  }

  lemma EnabledIsGood(w: World, env: Env, mode: byte, total: word)
    requires Ready(w, mode, total) && TimerPeriod(mode, total) > 0
    ensures Good(Enabled(w), env, mode, total)
  {
  }

  lemma {:induction false} SpacedRuns(w: World, env: Env, mode: byte, total: word, hs: seq<Happening>)
    requires Ready(w, mode, total) && Spaced(mode, total, env) && Timed(Enabled(w), env, hs)
    ensures Good(At(Enabled(w), hs), env, mode, total) && Safe(Enabled(w), hs)
  {
    if hs == [] {
      EnabledIsGood(w, env, mode, total);
    } else {
      var before, h := hs[..|hs| - 1], hs[|hs| - 1];
      SpacedRuns(w, env, mode, total, before);
      var v := At(Enabled(w), before);
      match h
      case Pass(d) => PassKeepsGood(v, env, mode, total, d);
      case Hears(k) => HearsKeepsGood(v, env, mode, total, k);
      case Expires(k) => ExpiresKeepsGood(v, env, mode, total, k);
      case Act(a) => ActKeepsGood(v, env, mode, total, a);
    }
  }

  // ---------- when nothing can go wrong at all ----------

  /** No slave ever scans: a total of 0 starts no scan, and a halted master sends no sync. */
  ghost predicate Still(w: World, total: word) {
    SlavesIdle(w, total) && (total == 0 || (Halted(w.m) && NonePending(w)))
  }

  lemma {:induction false} StillRuns(w: World, env: Env, total: word, hs: seq<Happening>)
    requires Still(w, total) && Timed(w, env, hs)
    ensures Still(At(w, hs), total) && Safe(w, hs)
  {
    if hs != [] {
      StillRuns(w, env, total, hs[..|hs| - 1]);
      StillStep(At(w, hs[..|hs| - 1]), env, total, hs[|hs| - 1]);
    }
  }

  lemma StillStep(w: World, env: Env, total: word, h: Happening)
    requires Still(w, total) && Can(w, env, h)
    ensures Still(Next(w, h), total) && SafeStep(w, h)
  {
  }

  // ---------- the runs that go wrong ----------

  lemma Extend(w: World, env: Env, hs: seq<Happening>, h: Happening) returns (longer: seq<Happening>)
    requires Timed(w, env, hs) && Can(At(w, hs), env, h) && h != Act(Control(false))
    ensures longer == hs + [h] && Timed(w, env, longer) && At(w, longer) == Next(At(w, hs), h)
    ensures !SafeStep(At(w, hs), h) ==> !Safe(w, longer)
  {
    longer := hs + [h];
    assert longer[..|longer| - 1] == hs;
  }

  /** One slave, between a sync and the read. */
  ghost predicate Waiting(w: World) {
    && !Halted(w.m) && w.m.running && w.m.enabled && w.m.waitForData && w.m.task.Looping?
    && w.m.timer.due.Some? && w.now <= w.m.timer.due.value
    && |w.slaves| == 1
    && var g := w.slaves[0].trigger; g.running ==> w.now <= w.slaves[0].due && 0 <= g.count <= g.max
  }

  /** The last callback of a slave that scans. */
  function Last(s: Slave): int { s.due + CONDUCTION_TEST_INTERVAL * (s.trigger.max - s.trigger.count) }

  /** What waiting for some ticks leaves as it was. */
  ghost predicate Waited(v: World, u: World, until: nat)
    requires Waiting(v)
  {
    && Waiting(u) && u.now == until && u.loopAt == v.loopAt && u.returned == v.returned
    && u.m.timer.period == v.m.timer.period
    && (u.m.syncSem <==> v.m.syncSem || v.m.timer.due.value <= until)
    && (v.m.timer.due.value > until ==> u.m.timer == v.m.timer)
    && u.slaves[0].told == v.slaves[0].told && u.slaves[0].pending == v.slaves[0].pending
    && u.slaves[0].trigger.running == v.slaves[0].trigger.running
    && (u.slaves[0].trigger.running ==> Last(u.slaves[0]) == Last(v.slaves[0]))
  }

  /** One step of waiting: time passes, or the timer or the slave's timer expires. */
  ghost predicate Moved(v: World, u: World, until: nat)
    requires Waiting(v)
  {
    && Waiting(u) && v.now <= u.now <= until && u.loopAt == v.loopAt && u.returned == v.returned
    && u.m.timer.period == v.m.timer.period && (u.m == v.m || (u.m.syncSem && v.m.timer.due.value <= until))
    && u.slaves[0].told == v.slaves[0].told && u.slaves[0].pending == v.slaves[0].pending
    && u.slaves[0].trigger.running == v.slaves[0].trigger.running
    && (u.slaves[0].trigger.running ==> Last(u.slaves[0]) == Last(v.slaves[0]))
  }

  lemma MovedWaited(v: World, u: World, x: World, until: nat)
    requires Waiting(v) && Moved(v, u, until) && Waited(u, x, until)
    ensures Waited(v, x, until)
  {
  }

  predicate SlaveDue(w: World)
    requires |w.slaves| == 1
  {
    w.slaves[0].trigger.running && w.slaves[0].due <= w.now
  }

  lemma FireMoves(v: World, env: Env, until: nat)
    requires Waiting(v) && Due(v) && v.now <= until
    ensures var h := Act(TimerFires);
            Can(v, env, h) && Moved(v, Next(v, h), until) && !Due(Next(v, h))
    ensures Next(v, Act(TimerFires)).now == v.now && Next(v, Act(TimerFires)).slaves == v.slaves
  {
  }

  lemma ExpiryMoves(v: World, env: Env, until: nat)
    requires Waiting(v) && !Due(v) && SlaveDue(v) && v.now < until <= Last(v.slaves[0])
    ensures var h := Expires(0);
            Can(v, env, h) && Moved(v, Next(v, h), until) && !Due(Next(v, h)) && !SlaveDue(Next(v, h))
    ensures Next(v, Expires(0)).now == v.now
  {
  }

  /** The ticks up to the next expiry. */
  function Rest(v: World, until: nat): int
    requires Waiting(v)
  {
    var s := v.slaves[0];
    Least(until - v.now, v.m.timer.due.value - v.now, if s.trigger.running then s.due - v.now else until - v.now)
  }

  lemma PassMoves(v: World, env: Env, until: nat)
    requires Waiting(v) && !Due(v) && !SlaveDue(v) && v.now < until
    ensures Rest(v, until) > 0
    ensures var h := Pass(Rest(v, until));
            Can(v, env, h) && Moved(v, Next(v, h), until) && v.now < Next(v, h).now
  {
  }

  lemma Move(w: World, env: Env, hs: seq<Happening>, v: World, until: nat) returns (longer: seq<Happening>)
    requires Timed(w, env, hs) && v == At(w, hs) && Waiting(v) && v.now <= until && (Due(v) || v.now < until)
    requires v.slaves[0].trigger.running ==> until <= Last(v.slaves[0])
    ensures Timed(w, env, longer) && Moved(v, At(w, longer), until)
    ensures var u := At(w, longer);
            v.now < u.now || (v.now == u.now && ((Due(v) && !Due(u) && u.slaves == v.slaves)
                                                 || (!Due(v) && !Due(u) && SlaveDue(v) && !SlaveDue(u))))
  {
    if Due(v) {
      FireMoves(v, env, until);
      longer := Extend(w, env, hs, Act(TimerFires));
    } else if SlaveDue(v) {
      ExpiryMoves(v, env, until);
      longer := Extend(w, env, hs, Expires(0));
    } else {
      PassMoves(v, env, until);
      longer := Extend(w, env, hs, Pass(Rest(v, until)));
    }
  }

  /** The clock can always be advanced: timers expire when they are due, and nothing else happens. */
  lemma {:induction false} Advance(w: World, env: Env, hs: seq<Happening>, until: nat) returns (longer: seq<Happening>)
    requires Timed(w, env, hs) && Waiting(At(w, hs)) && At(w, hs).now <= until
    requires At(w, hs).slaves[0].trigger.running ==> until <= Last(At(w, hs).slaves[0])
    ensures Timed(w, env, longer) && Waited(At(w, hs), At(w, longer), until) && !Due(At(w, longer))
    decreases until - At(w, hs).now, if Due(At(w, hs)) then 1 else 0, if SlaveDue(At(w, hs)) then 1 else 0
  {
    if Due(At(w, hs)) || At(w, hs).now < until {
      var on := Move(w, env, hs, At(w, hs), until);
      longer := Advance(w, env, on, until);
      MovedWaited(At(w, hs), At(w, on), At(w, longer), until);
    } else {
      longer := hs;
    }
  }

  function Least(a: int, b: int, c: int): (r: int)
    ensures r <= a && r <= b && r <= c && (r == a || r == b || r == c)
  {
    if a <= b && a <= c then a else if b <= c then b else c
  }

  /** A master with one slave, both as they should be. */
  function OneSlave(mode: byte, total: word): World {
    World(BOOTED.(slaveNum := 1, slaveDev := [SlaveDev(1, 0)], mode := mode, total := total), 0,
          [Slave(total, Scan.Trigger(0, 0, false), 0, false)], 0, 0, 0)
  }

  /** A period that does not outlast a scan: the slave is late to hear the sync, and is read while it scans. */
  lemma ShortPeriod(mode: byte, total: word, env: Env) returns (hs: seq<Happening>)
    requires total > 0 && 0 < TimerPeriod(mode, total) <= ScanTime(total) + env.hear
    ensures Timed(Enabled(OneSlave(mode, total)), env, hs) && !Safe(Enabled(OneSlave(mode, total)), hs)
  {
    var w, period := Enabled(OneSlave(mode, total)), TimerPeriod(mode, total);
    var read: nat := if period < LOOP_DELAY then LOOP_DELAY else period;
    var hear: nat := if env.hear < read then env.hear else read;
    hs := FirstSync(w, env, period);
    hs := Advance(w, env, hs, hear);
    var v := At(w, hs);
    assert v.slaves[0].pending && v.slaves[0].told == total && v.now == hear <= v.returned + env.hear;
    hs := Extend(w, env, hs, Hears(0));
    assert Last(At(w, hs).slaves[0]) == hear + ScanTime(total) && Waiting(At(w, hs));
    hs := Advance(w, env, hs, read);
    hs := ReadNow(w, env, hs);
  }

  /** The first sync is sent at once. */
  lemma FirstSync(w: World, env: Env, period: nat) returns (hs: seq<Happening>)
    requires FirstSyncDue(w.m) && SyncDue(w.m) && 0 < period && w.m.timer == Timer(period, Some(period))
    requires w.now == w.loopAt == 0 && |w.slaves| == 1 && w.slaves[0].told > 0 && !w.slaves[0].trigger.running
    ensures Timed(w, env, hs)
    ensures var v := At(w, hs);
            && Waiting(v) && v.now == v.returned == 0 && v.loopAt == LOOP_DELAY && v.m.timer == w.m.timer && !v.m.syncSem
            && v.slaves[0].pending && v.slaves[0].told == w.slaves[0].told && !v.slaves[0].trigger.running
  {
    hs := Extend(w, env, [], Act(Poll));
    hs := Extend(w, env, hs, Act(SendDone));
  }

  /** The first sync has been begun, and reaches the one slave. */
  ghost predicate Begun(w: World, begin: nat, due: nat) {
    && w.m.task.Sending? && w.m.running && w.m.enabled && w.m.waitForData && !Halted(w.m) && w.m.timer.due == Some(due)
    && w.now == w.since == begin <= due && w.loopAt == 0
    && |w.slaves| == 1 && w.slaves[0].told > 0 && w.slaves[0].pending && !w.slaves[0].trigger.running
  }

  lemma BeginFirst(w: World, env: Env, begin: nat, due: nat) returns (hs: seq<Happening>)
    requires FirstSyncDue(w.m) && SyncDue(w.m) && !Halted(w.m) && w.m.timer.due == Some(due)
    requires w.now == w.since == w.loopAt == 0 && |w.slaves| == 1 && w.slaves[0].told > 0 && !w.slaves[0].trigger.running
    requires begin <= env.wait && begin < due
    ensures Timed(w, env, hs) && Begun(At(w, hs), begin, due) && At(w, hs).m.timer.period == w.m.timer.period
  {
    hs := [];
    if begin > 0 {
      hs := Extend(w, env, hs, Pass(begin));
    }
    hs := Extend(w, env, hs, Act(Poll));
  }

  /** The timer has expired while the sync was sent. */
  ghost predicate Late(w: World, now: nat) {
    && w.m.task.Sending? && w.m.running && w.m.enabled && w.m.waitForData && w.m.syncSem
    && w.m.timer.period > LOOP_DELAY && w.m.timer.due == Some(now + w.m.timer.period) && w.now == now
    && |w.slaves| == 1 && w.slaves[0].told > 0
  }

  lemma ExpiresWhileSending(w: World, env: Env, hs: seq<Happening>, begin: nat, due: nat) returns (longer: seq<Happening>)
    requires Timed(w, env, hs) && Begun(At(w, hs), begin, due) && begin < due <= begin + env.send
    requires At(w, hs).m.timer.period > LOOP_DELAY
    ensures Timed(w, env, longer) && Late(At(w, longer), due)
    ensures At(w, longer).slaves == At(w, hs).slaves
  {
    longer := Extend(w, env, hs, Pass(due - begin));
    longer := Extend(w, env, longer, Act(TimerFires));
  }

  /** Then the read follows at once. */
  lemma ReadTooSoon(w: World, env: Env, hs: seq<Happening>, now: nat) returns (longer: seq<Happening>)
    requires Timed(w, env, hs) && Late(At(w, hs), now)
    requires At(w, hs).slaves[0].pending && !At(w, hs).slaves[0].trigger.running
    ensures Timed(w, env, longer) && !Safe(w, longer)
  {
    longer := Extend(w, env, hs, Hears(0));
    var s := At(w, longer).slaves[0];
    assert Late(At(w, longer), now) && s.trigger == Scan.Trigger(0, s.told, true);
    longer := SentLate(w, env, longer, now);
    longer := Advance(w, env, longer, now + LOOP_DELAY);
    longer := ReadNow(w, env, longer);
  }

  lemma SentLate(w: World, env: Env, hs: seq<Happening>, now: nat) returns (longer: seq<Happening>)
    requires Timed(w, env, hs) && Late(At(w, hs), now)
    requires var s := At(w, hs).slaves[0]; s.trigger == Scan.Trigger(0, s.told, true) && s.due == now + CONDUCTION_TEST_INTERVAL
    ensures Timed(w, env, longer) && Waiting(At(w, longer)) && At(w, longer).m.syncSem && At(w, longer).now == now
    ensures At(w, longer).slaves == At(w, hs).slaves && At(w, longer).loopAt == now + LOOP_DELAY
  {
    longer := Extend(w, env, hs, Act(SendDone));
  }

  lemma ReadNow(w: World, env: Env, hs: seq<Happening>) returns (longer: seq<Happening>)
    requires Timed(w, env, hs) && Waiting(At(w, hs)) && !Due(At(w, hs)) && At(w, hs).loopAt <= At(w, hs).now
    requires At(w, hs).m.syncSem && At(w, hs).slaves[0].trigger.running
    ensures Timed(w, env, longer) && !Safe(w, longer)
  {
    longer := Extend(w, env, hs, Act(Poll));
  }

  /** The timer runs from the enable: the first sync must have been sent before it expires. */
  lemma SlowFirstSync(mode: byte, total: word, env: Env) returns (hs: seq<Happening>)
    requires total > 0 && ScanTime(total) + env.hear < TimerPeriod(mode, total)
    requires env.send > 0 && TimerPeriod(mode, total) <= env.wait + env.send
    ensures Timed(Enabled(OneSlave(mode, total)), env, hs) && !Safe(Enabled(OneSlave(mode, total)), hs)
  {
    var w, period := Enabled(OneSlave(mode, total)), TimerPeriod(mode, total);
    var begin: nat := if env.wait < period then env.wait else period - 1;
    hs := BeginFirst(w, env, begin, period);
    hs := ExpiresWhileSending(w, env, hs, begin, period);
    hs := ReadTooSoon(w, env, hs, period);
  }

  // ---------- the main result ----------

  ghost predicate AlwaysSafe(mode: byte, total: word, env: Env) {
    forall w, hs | Ready(w, mode, total) && Timed(Enabled(w), env, hs) :: Safe(Enabled(w), hs)
  }

  /**
   In every timed run of every session no slave scans when the master reads or sends a sync, and no
   sync restarts a scan, if and only if the waits are short enough for the period; or nothing is
   ever scanned, because there are no wires or because the period is cut to 0 and stops the master.
   */
  lemma ScansDoNotOverlap(mode: byte, total: word, env: Env)
    ensures AlwaysSafe(mode, total, env)
       <==> Spaced(mode, total, env) || total == 0 || TimerPeriod(mode, total) == 0
  {
    if Spaced(mode, total, env) || total == 0 || TimerPeriod(mode, total) == 0 {
      forall w, hs | Ready(w, mode, total) && Timed(Enabled(w), env, hs) ensures Safe(Enabled(w), hs) {
        if Spaced(mode, total, env) {
          SpacedRuns(w, env, mode, total, hs);
        } else {
          StillRuns(Enabled(w), env, total, hs);
        }
      }
    } else {
      assert Ready(OneSlave(mode, total), mode, total);
      if TimerPeriod(mode, total) <= ScanTime(total) + env.hear {
        var hs := ShortPeriod(mode, total, env);
      } else {
        var hs := SlowFirstSync(mode, total, env);
      }
    }
  }

  /** For conduction tests whose syncs are heard within 80 ticks: at most 3271 wires, and a prompt first sync. */
  lemma ConductionScansDoNotOverlap(total: word, env: Env)
    requires env.hear == 79
    ensures AlwaysSafe(CONDUCTION_TEST, total, env)
       <==> total == 0 || (total + 5) % 0x4000 == 0
            || (total <= 3271 && (env.send == 0 || env.wait + env.send < 20 * total + 100))
  {
    ScansDoNotOverlap(CONDUCTION_TEST, total, env);
    PeriodOutlastsScan(total);
  }

  lemma PeriodOutlastsScan(total: word)
    ensures TimerPeriod(CONDUCTION_TEST, total) > ScanTime(total) + 79 <==> total <= 3271
    ensures TimerPeriod(CONDUCTION_TEST, total) == 0 <==> (total + 5) % 0x4000 == 0
    ensures total <= 3271 ==> TimerPeriod(CONDUCTION_TEST, total) == 20 * total + 100
    ensures forall mode: byte :: mode != CONDUCTION_TEST ==> TimerPeriod(mode, total) == 1000
  {
  }
}
