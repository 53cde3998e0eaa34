/**
 The reader/writer lock with a promotable reservation.

 The class holds the lock's three shared variables and has one method for every block of code the
 program runs without interruption: a critical section, or a single unprotected read or write.
 `Sys` lets any number of tasks interleave those blocks in any order.
 */
module ReadWrite {
  import opened Bytes

  /** A task handle. A task keeps its priority for its whole life. */
  datatype Task = Task(id: nat, priority: nat)

  /** The shared variables `readCount`, `reserved` and `writeReq`. */
  datatype Lock = Lock(readCount: int, reserved: Option<Task>, writeReq: int)

  const FREE := Lock(0, None, -1)

  predicate CanRead(l: Lock, t: Task) {
    l.readCount >= 0 && t.priority > l.writeReq
  }

  predicate CanReserve(l: Lock, t: Task) {
    CanRead(l, t) && l.reserved.None?
  }

  predicate CanPromise(l: Lock) {
    l.readCount > 0 && l.reserved.None?
  }

  predicate CanWrite(l: Lock, t: Task) {
    0 <= l.readCount <= if l.reserved == Some(t) then 1 else 0
  }

  /** readUnlock's critical section: an unlock of a lock nobody holds leaves the count alone. */
  function Dropped(l: Lock): Lock {
    var n := if l.readCount > 0 then l.readCount - 1 else l.readCount;
    l.(readCount := n, reserved := if n == 0 then None else l.reserved)
  }

  function Withdrawn(l: Lock, t: Task): Lock {
    if l.writeReq == t.priority then l.(writeReq := -1) else l
  }

  function Raised(l: Lock, t: Task): Lock {
    if l.writeReq < t.priority then l.(writeReq := t.priority) else l
  }

  class ReadWriteLock {
    var readCount: int
    var reserved: Option<Task>
    var writeReq: int

    ghost function View(): Lock
      reads this
    {
      Lock(readCount, reserved, writeReq)
    }

    constructor ()
      ensures View() == FREE
    {
      readCount, reserved, writeReq := 0, None, -1;
    }

    method TryRead(t: Task) returns (granted: bool)
      modifies this
      ensures granted == CanRead(old(View()), t)
      ensures View() == if granted then old(View()).(readCount := old(readCount) + 1) else old(View())
    {
      granted := readCount >= 0 && t.priority > writeReq;
      if granted {
        readCount := readCount + 1;
      }
    }

    method TryReserved(t: Task) returns (granted: bool)
      modifies this
      ensures granted == CanReserve(old(View()), t)
      ensures View() == if granted then old(View()).(readCount := old(readCount) + 1, reserved := Some(t))
                        else old(View())
    {
      granted := readCount >= 0 && reserved == None && t.priority > writeReq;
      if granted {
        readCount := readCount + 1;
        reserved := Some(t);
      }
    }

    method RequestReserved(t: Task) returns (granted: bool)
      modifies this
      ensures granted == CanPromise(old(View()))
      ensures View() == if granted then old(View()).(reserved := Some(t)) else old(View())
    {
      granted := false;
      if readCount > 0 && reserved == None {
        reserved := Some(t);
        granted := true;
      }
    }

    method ClearReservation()
      modifies this
      ensures View() == old(View()).(reserved := None)
    {
      reserved := None;
    }

    method DropCount() returns (ret: bool)
      modifies this
      ensures ret == (old(readCount) > 0)
      ensures View() == Dropped(old(View()))
    {
      ret := true;
      if readCount > 0 {
        readCount := readCount - 1;
      } else {
        ret := false;
      }
      if readCount == 0 {
        reserved := None;
      }
    }

    method TryWrite(t: Task) returns (granted: bool)
      modifies this
      ensures granted == CanWrite(old(View()), t)
      ensures View() == if granted then Lock(-1, old(reserved), -1) else old(View())
    {
      granted := 0 <= readCount && readCount <= if reserved == Some(t) then 1 else 0;
      if granted {
        readCount := -1;
        writeReq := -1;
      }
    }

    method WithdrawRequest(t: Task)
      modifies this
      ensures View() == Withdrawn(old(View()), t)
    {
      if writeReq == t.priority {
        writeReq := -1;
      }
    }

    method RaiseRequest(t: Task)
      modifies this
      ensures View() == Raised(old(View()), t)
    {
      if writeReq < t.priority {
        writeReq := t.priority;
      }
    }

    method StoreCount(promoted: bool)
      modifies this
      ensures View() == old(View()).(readCount := if promoted then 1 else 0)
    {
      if promoted {
        readCount := 1;
      } else {
        readCount := 0;
      }
    }
  }

  /** Where a task stands between two of its uninterrupted blocks. */
  datatype Pc =
    | Idle
    | Reading(tried: bool)            // readLock's loop; `tried` once an attempt has failed
    | Reserving(tried: bool)          // reservedLock's loop
    | Releasing                       // releaseReserved, before it looks at `reserved`
    | ReleaseStore                    // ... about to write nullptr
    | Unlocking                       // readUnlock, before it looks at `reserved`
    | UnlockStore                     // ... about to write nullptr
    | UnlockCount                     // ... before its critical section
    | Writing                         // writeLock, before an attempt
    | WriteRefused                    // ... after a failed attempt: time out, or raise the request
    | Handing                         // writeUnlock, before it looks at `readCount`
    | HandingBack                     // ... before it looks at `reserved`
    | HandingStore(promoted: bool)    // ... about to write `readCount`

  datatype Action =
    | CallReadLock | CallReservedLock | CallReleaseReserved | CallReadUnlock | CallWriteLock | CallWriteUnlock
    | RequestReserved
    | TryRead | TryReserved | TimeOut
    | TestReservation | ClearReservation | DropCount
    | TryWrite | Withdraw | Raise
    | TestCount | ReadReservation | StoreCount
    | Update                          // the holder of the write lock changes the protected data

  datatype Event = Event(task: Task, action: Action)

  /**
   The lock, every task's position, and what the tasks have been granted: one copy of a task in
   `holds` for each of its read locks, the tasks that hold the write lock, and a version number
   for the protected data.
   */
  datatype Sys = Sys(lock: Lock, pcs: map<Task, Pc>, holds: multiset<Task>, writers: set<Task>, version: nat)
  {
    function Pc(t: Task): Pc { if t in pcs then pcs[t] else Idle }

    function At(t: Task, pc: Pc): Sys { this.(pcs := pcs[t := pc]) }
  }

  const INIT := Sys(FREE, map[], multiset{}, {}, 0)

  /** What the code allows task `e.task` to do next. */
  predicate Enabled(s: Sys, e: Event) {
    var pc := s.Pc(e.task);
    match e.action
    case CallReadLock => pc.Idle?
    case CallReservedLock => pc.Idle?
    case CallReleaseReserved => pc.Idle?
    case CallReadUnlock => pc.Idle?
    case CallWriteLock => pc.Idle?
    case CallWriteUnlock => pc.Idle?
    case RequestReserved => pc.Idle?
    case TryRead => pc.Reading?
    case TryReserved => pc.Reserving?
    case TimeOut => (pc.Reading? || pc.Reserving?) && pc.tried
    case TestReservation => pc.Releasing? || pc.Unlocking?
    case ClearReservation => pc.ReleaseStore? || pc.UnlockStore?
    case DropCount => pc.UnlockCount?
    case TryWrite => pc.Writing?
    case Withdraw => pc.WriteRefused?
    case Raise => pc.WriteRefused?
    case TestCount => pc.Handing?
    case ReadReservation => pc.HandingBack?
    case StoreCount => pc.HandingStore?
    case Update => pc.Idle? && e.task in s.writers
  }

  /** What the lock asks of its callers: unlock what you hold, promise only over your own read lock. */
  predicate Disciplined(s: Sys, e: Event) {
    match e.action
    case CallReadUnlock => e.task in s.holds && e.task !in s.writers
    case CallReleaseReserved => e.task !in s.writers
    case RequestReserved => e.task in s.holds
    case CallWriteUnlock => e.task in s.writers
    case _ => true
  }

  function Step(s: Sys, e: Event): Sys
    requires Enabled(s, e)
  {
    var t, l := e.task, s.lock;
    match e.action
    case CallReadLock => s.At(t, Reading(false))
    case CallReservedLock => s.At(t, Reserving(false))
    case CallReleaseReserved => s.At(t, Releasing)
    case CallReadUnlock => s.At(t, Unlocking)
    case CallWriteLock => s.At(t, Writing)
    case CallWriteUnlock => s.At(t, Handing)
    case RequestReserved =>
      if CanPromise(l) then s.(lock := l.(reserved := Some(t))) else s
    case TryRead =>
      if CanRead(l, t) then Admitted(s, t, l.reserved) else s.At(t, Reading(true))
    case TryReserved =>
      if CanReserve(l, t) then Admitted(s, t, Some(t)) else s.At(t, Reserving(true))
    case TimeOut => s.At(t, Idle)
    case TestReservation =>
      if s.Pc(t).Releasing? then s.At(t, if l.reserved == Some(t) then ReleaseStore else Idle)
      else s.At(t, if l.reserved == Some(t) then UnlockStore else UnlockCount)
    case ClearReservation =>
      s.At(t, if s.Pc(t).ReleaseStore? then Idle else UnlockCount).(lock := l.(reserved := None))
    case DropCount => Left(s, t)
    case TryWrite =>
      if CanWrite(l, t) then Granted(s, t) else s.At(t, WriteRefused)
    case Withdraw => s.At(t, Idle).(lock := Withdrawn(l, t))
    case Raise => s.At(t, Writing).(lock := Raised(l, t))
    case TestCount => s.At(t, if l.readCount >= 0 then Idle else HandingBack)
    case ReadReservation => s.At(t, HandingStore(l.reserved == Some(t)))
    case StoreCount =>
      s.At(t, Idle).(lock := l.(readCount := if s.Pc(t).promoted then 1 else 0), writers := s.writers - {t})
    case Update => s.(version := s.version + 1)
  }

  function Admitted(s: Sys, t: Task, reserved: Option<Task>): Sys {
    s.At(t, Idle).(lock := s.lock.(readCount := s.lock.readCount + 1, reserved := reserved),
                   holds := s.holds + multiset{t})
  }

  function Left(s: Sys, t: Task): Sys {
    s.At(t, Idle).(lock := Dropped(s.lock), holds := s.holds - multiset{t})
  }

  function Granted(s: Sys, t: Task): Sys {
    s.At(t, Idle).(lock := Lock(-1, s.lock.reserved, -1), writers := s.writers + {t})
  }

  /** A run: every event is allowed by the code, and made by a caller that keeps the discipline. */
  ghost predicate Run(s: Sys, es: seq<Event>)
    decreases |es|
  {
    es != [] ==> Enabled(s, es[0]) && Disciplined(s, es[0]) && Run(Step(s, es[0]), es[1..])
  }

  /** The state in which the events leave the system, whoever the callers are. */
  function After(s: Sys, es: seq<Event>): Sys
    decreases |es|
  {
    if es == [] || !Enabled(s, es[0]) then s else After(Step(s, es[0]), es[1..])
  }

  // ---------- exclusion ----------

  /** The promise of the lock, in terms of what tasks have been granted. */
  ghost predicate Excludes(s: Sys) {
    && (s.lock.readCount == -1 <==> s.writers != {})
    && (forall w, u :: w in s.writers && (u in s.writers || u in s.holds) ==> u == w)
    && (s.writers == {} ==> s.lock.readCount == |s.holds|)
    && (s.lock.reserved.Some? ==> s.lock.reserved.value in s.holds)
  }

  /** Facts that hold at a task's position until that task moves on. */
  ghost predicate PcOk(s: Sys, t: Task) {
    match s.Pc(t)
    case ReleaseStore => s.lock.reserved == Some(t) && t !in s.writers
    case UnlockStore => s.lock.reserved == Some(t) && t !in s.writers
    case Releasing => t !in s.writers
    case Unlocking => t in s.holds && t !in s.writers
    case UnlockCount => t in s.holds && t !in s.writers && s.lock.reserved != Some(t)
    case Handing => t in s.writers
    case HandingBack => t in s.writers
    case HandingStore(promoted) => t in s.writers && promoted == (s.lock.reserved == Some(t))
    case _ => true
  }

  ghost predicate Core(s: Sys) {
    && (s.lock.readCount == -1 <==> s.writers != {})
    && (s.writers == {} ==> s.lock.readCount == |s.holds|)
    && (forall w :: w in s.writers ==>
          s.writers == {w} && s.holds == if s.lock.reserved == Some(w) then multiset{w} else multiset{})
    && (s.lock.reserved.Some? ==> s.lock.reserved.value in s.holds)
  }

  ghost predicate Inv(s: Sys) {
    Core(s) && forall t :: t in s.pcs ==> PcOk(s, t)
  }

  lemma OneHold(holds: multiset<Task>, t: Task)
    requires t in holds && |holds| <= 1
    ensures holds == multiset{t}
  {
    assert holds == multiset{t} + (holds - multiset{t});
  }

  lemma GrantKeepsCore(s: Sys, t: Task)
    requires Core(s) && CanWrite(s.lock, t)
    ensures s.writers == {} && s.holds == if s.lock.reserved == Some(t) then multiset{t} else multiset{}
    ensures Core(Granted(s, t))
  {
    if s.lock.reserved == Some(t) {
      OneHold(s.holds, t);
    }
  }

  lemma DropKeepsCore(s: Sys, t: Task)
    requires Core(s) && t in s.holds && t !in s.writers && s.lock.reserved != Some(t)
    ensures s.lock.readCount == |s.holds| && s.writers == {}
    ensures s.lock.reserved.Some? ==> s.lock.readCount > 1
    ensures Core(Left(s, t)) && Left(s, t).lock.reserved == s.lock.reserved
  {
    var rest := s.holds - multiset{t};
    assert s.holds == rest + multiset{t};
    if s.lock.reserved.Some? {
      assert rest[s.lock.reserved.value] == s.holds[s.lock.reserved.value];
    }
  }

  lemma AdmittedKeepsCore(s: Sys, t: Task, reserved: Option<Task>)
    requires Core(s) && s.lock.readCount >= 0 && (reserved == s.lock.reserved || reserved == Some(t))
    ensures Core(Admitted(s, t, reserved))
  {
  }

  /** The actions that neither grant a lock nor take one back, except that of giving up the write lock. */
  predicate Quiet(a: Action) { !a.TryWrite? && !a.DropCount? && !a.TryRead? && !a.TryReserved? }

  /** What a quiet action of `t` does to the grants. */
  ghost predicate QuietChange(s: Sys, r: Sys, t: Task, a: Action) {
    && r.holds == s.holds
    && r.writers == (if a.StoreCount? then s.writers - {t} else s.writers)
    && r.lock.readCount == (if !a.StoreCount? then s.lock.readCount else if s.Pc(t) == HandingStore(true) then 1 else 0)
    && r.lock.reserved == (if a.ClearReservation? then None
                           else if a.RequestReserved? && CanPromise(s.lock) then Some(t) else s.lock.reserved)
  }

  lemma QuietStep(s: Sys, e: Event)
    requires Enabled(s, e) && Quiet(e.action)
    ensures QuietChange(s, Step(s, e), e.task, e.action)
  {
  }

  lemma StepMovesOne(s: Sys, e: Event, u: Task)
    requires Enabled(s, e) && u != e.task
    ensures Step(s, e).Pc(u) == s.Pc(u)
  {
  }

  lemma QuietKeepsCore(s: Sys, r: Sys, t: Task, a: Action)
    requires Core(s) && QuietChange(s, r, t, a)
    requires a.StoreCount? ==> t in s.writers && s.Pc(t) == HandingStore(s.lock.reserved == Some(t))
    requires a.RequestReserved? ==> t in s.holds
    requires a.ClearReservation? ==> s.lock.reserved == Some(t) && t !in s.writers
    ensures Core(r)
  {
    if a.StoreCount? {
      assert s.writers == {t} && r.writers == {};
    }
  }

  lemma StepKeepsCore(s: Sys, e: Event)
    requires Core(s) && PcOk(s, e.task) && Enabled(s, e) && Disciplined(s, e)
    ensures Core(Step(s, e))
  {
    var t := e.task;
    match e.action
    case TryWrite =>
      if CanWrite(s.lock, t) {
        GrantKeepsCore(s, t);
      }
    case DropCount => DropKeepsCore(s, t);
    case TryRead =>
      if CanRead(s.lock, t) {
        AdmittedKeepsCore(s, t, s.lock.reserved);
      }
    case TryReserved =>
      if CanReserve(s.lock, t) {
        AdmittedKeepsCore(s, t, Some(t));
      }
    case _ =>
      QuietStep(s, e);
      QuietKeepsCore(s, Step(s, e), t, e.action);
  }

  lemma StepKeepsOwnPc(s: Sys, e: Event)
    requires Core(s) && PcOk(s, e.task) && Enabled(s, e) && Disciplined(s, e)
    ensures PcOk(Step(s, e), e.task)
  {
  }

  /** What another task's step leaves alone: my grants, and the reservation while it is mine. */
  ghost predicate KeepsMine(s: Sys, r: Sys, u: Task) {
    && r.Pc(u) == s.Pc(u) && r.holds[u] == s.holds[u] && (u in r.writers <==> u in s.writers)
    && (r.lock.reserved == Some(u) <==> s.lock.reserved == Some(u))
  }

  lemma OthersKeepMine(s: Sys, e: Event, u: Task)
    requires Core(s) && PcOk(s, e.task) && Enabled(s, e) && Disciplined(s, e)
    requires u != e.task
    ensures KeepsMine(s, Step(s, e), u)
  {
    match e.action
    case DropCount => LeftKeepsMine(s, e.task, u);
    case TryRead => AdmittedKeepsMine(s, e.task, s.lock.reserved, u);
    case TryReserved =>
      if CanReserve(s.lock, e.task) {
        AdmittedKeepsMine(s, e.task, Some(e.task), u);
      }
    case TryWrite => GrantedKeepsMine(s, e.task, u);
    case _ => QuietKeepsMine(s, e, u);
  }

  lemma AdmittedKeepsMine(s: Sys, t: Task, reserved: Option<Task>, u: Task)
    requires u != t && (reserved == s.lock.reserved || (reserved == Some(t) && s.lock.reserved != Some(u)))
    ensures KeepsMine(s, Admitted(s, t, reserved), u)
  {
  }

  lemma LeftKeepsMine(s: Sys, t: Task, u: Task)
    requires Core(s) && t in s.holds && t !in s.writers && s.lock.reserved != Some(t) && u != t
    ensures KeepsMine(s, Left(s, t), u)
  {
    DropKeepsCore(s, t);
  }

  lemma GrantedKeepsMine(s: Sys, t: Task, u: Task)
    requires u != t
    ensures KeepsMine(s, Granted(s, t), u)
  {
  }

  lemma QuietKeepsMine(s: Sys, e: Event, u: Task)
    requires Core(s) && PcOk(s, e.task) && Enabled(s, e) && u != e.task && Quiet(e.action)
    ensures KeepsMine(s, Step(s, e), u)
  {
    QuietStep(s, e);
    StepMovesOne(s, e, u);
  }

  lemma StepKeepsInv(s: Sys, e: Event)
    requires Inv(s) && Enabled(s, e) && Disciplined(s, e)
    ensures Inv(Step(s, e))
  {
    assert PcOk(s, e.task);
    StepKeepsCore(s, e);
    forall u | u in Step(s, e).pcs ensures PcOk(Step(s, e), u) {
      if u == e.task {
        StepKeepsOwnPc(s, e);
      } else {
        OthersKeepMine(s, e, u);
        assert PcOk(s, u);
      }
    }
  }

  lemma {:induction false} RunKeepsInv(s: Sys, es: seq<Event>)
    requires Inv(s) && Run(s, es)
    ensures Inv(After(s, es))
    decreases |es|
  {
    if es != [] {
      StepKeepsInv(s, es[0]);
      RunKeepsInv(Step(s, es[0]), es[1..]);
    }
  }

  /** Mutual exclusion over every interleaving of any number of disciplined tasks. */
  lemma Exclusion(es: seq<Event>)
    requires Run(INIT, es)
    ensures Excludes(After(INIT, es))
  {
    RunKeepsInv(INIT, es);
  }

  /** Under the discipline no unlock fails: both critical sections that can refuse find what they undo. */
  lemma UnlocksSucceed(es: seq<Event>, t: Task)
    requires Run(INIT, es)
    ensures var s := After(INIT, es);
            && (s.Pc(t).UnlockCount? ==> s.lock.readCount > 0)
            && (s.Pc(t).Handing? ==> s.lock.readCount < 0)
  {
    RunKeepsInv(INIT, es);
    var s := After(INIT, es);
    if s.Pc(t).UnlockCount? {
      assert PcOk(s, t) && s.holds == (s.holds - multiset{t}) + multiset{t};
    } else if s.Pc(t).Handing? {
      assert PcOk(s, t);
    }
  }

  // ---------- what is granted ----------

  /** Readers share the lock: only a writer that has it, or one that asks with such priority, keeps a reader out. */
  lemma ReadersShare(s: Sys, t: Task)
    requires Inv(s) && s.Pc(t).Reading?
    ensures var r := Step(s, Event(t, TryRead));
            if s.writers == {} && t.priority > s.lock.writeReq
            then r == Sys(Lock(|s.holds| + 1, s.lock.reserved, s.lock.writeReq), s.pcs[t := Idle],
                          s.holds + multiset{t}, {}, s.version)
            else r == s.(pcs := s.pcs[t := Reading(true)])
  {
  }

  /** A promise is given with a read lock to one task at a time, beside other readers. */
  lemma PromiseIsGiven(s: Sys, t: Task)
    requires Inv(s) && s.Pc(t).Reserving?
    ensures var r := Step(s, Event(t, TryReserved));
            if s.writers == {} && t.priority > s.lock.writeReq && s.lock.reserved == None
            then r == Sys(Lock(|s.holds| + 1, Some(t), s.lock.writeReq), s.pcs[t := Idle],
                          s.holds + multiset{t}, {}, s.version)
            else r == s.(pcs := s.pcs[t := Reserving(true)])
  {
  }

  /** A reader that asks for the promise gets it if nobody has it. */
  lemma PromiseIsAdded(s: Sys, t: Task)
    requires Inv(s) && s.Pc(t).Idle? && t in s.holds
    ensures var r := Step(s, Event(t, RequestReserved));
            r == if s.lock.reserved == None then s.(lock := s.lock.(reserved := Some(t))) else s
  {
    if s.lock.reserved == None {
      assert s.writers == {};
      assert s.holds == (s.holds - multiset{t}) + multiset{t};
    }
  }

  /** A writer is granted the lock with no other writer and no reader but itself, if it has the promise. */
  lemma WriterIsGranted(s: Sys, t: Task)
    requires Inv(s) && s.Pc(t).Writing?
    ensures var r := Step(s, Event(t, TryWrite));
            if s.writers == {} && (s.holds == multiset{} || (s.holds == multiset{t} && s.lock.reserved == Some(t)))
            then r == Sys(Lock(-1, s.lock.reserved, -1), s.pcs[t := Idle], s.holds, {t}, s.version)
            else r == s.(pcs := s.pcs[t := WriteRefused])
  {
    if CanWrite(s.lock, t) {
      GrantKeepsCore(s, t);
    } else if s.writers == {} {
      assert s.lock.readCount == |s.holds|;
      if s.holds == multiset{t} {
        assert |multiset{t}| == 1;
      }
    }
  }

  /** Two tasks at once can have read locks. */
  lemma TwoReaders(t: Task, u: Task)
    requires t != u
    ensures var s := After(INIT, [Event(u, CallReadLock), Event(u, TryRead), Event(t, CallReadLock), Event(t, TryRead)]);
            s.lock == Lock(2, None, -1) && s.holds == multiset{t, u} && s.writers == {}
  {
    var es := [Event(u, CallReadLock), Event(u, TryRead), Event(t, CallReadLock), Event(t, TryRead)];
    assert es[0..] == es;
    var s1 := Next(INIT, es, 0, Event(u, CallReadLock));
    var s2 := Next(s1, es, 1, Event(u, TryRead));
    var s3 := Next(s2, es, 2, Event(t, CallReadLock));
    var s4 := Next(s3, es, 3, Event(t, TryRead));
  }

  // ---------- the discipline is needed ----------

  lemma Next(s: Sys, es: seq<Event>, k: nat, e: Event) returns (r: Sys)
    requires k < |es| && es[k] == e && Enabled(s, e)
    ensures r == Step(s, e) && After(s, es[k..]) == After(r, es[k + 1..])
  {
    assert es[k..][1..] == es[k + 1..];
    r := Step(s, e);
  }

  /** A promise asked for without a read lock lets a writer in beside a reader. */
  lemma PromiseNeedsReadLock(t: Task, u: Task)
    requires t != u
    ensures var s := After(INIT, [Event(u, CallReadLock), Event(u, TryRead), Event(t, RequestReserved),
                                  Event(t, CallWriteLock), Event(t, TryWrite)]);
            t in s.writers && u in s.holds
  {
    var es := [Event(u, CallReadLock), Event(u, TryRead), Event(t, RequestReserved),
               Event(t, CallWriteLock), Event(t, TryWrite)];
    assert es[0..] == es;
    var s1 := Next(INIT, es, 0, Event(u, CallReadLock));
    var s2 := Next(s1, es, 1, Event(u, TryRead));
    var s3 := Next(s2, es, 2, Event(t, RequestReserved));
    var s4 := Next(s3, es, 3, Event(t, CallWriteLock));
    var s5 := Next(s4, es, 4, Event(t, TryWrite));
  }

  /** A task that takes a promised read lock and upgrades it. */
  function Upgrade(t: Task): seq<Event> {
    [Event(t, CallReservedLock), Event(t, TryReserved), Event(t, CallWriteLock), Event(t, TryWrite)]
  }

  /** The same task gives up its promise, and the write lock. */
  function Release(t: Task): seq<Event> {
    [Event(t, CallReleaseReserved), Event(t, TestReservation), Event(t, ClearReservation)]
  }

  function Hand(t: Task): seq<Event> {
    [Event(t, CallWriteUnlock), Event(t, TestCount), Event(t, ReadReservation), Event(t, StoreCount)]
  }

  lemma Upgrades(t: Task)
    ensures After(INIT, Upgrade(t)) == Sys(Lock(-1, Some(t), -1), map[t := Idle], multiset{t}, {t}, 0)
  {
    var es := Upgrade(t);
    assert es[0..] == es;
    var s1 := Next(INIT, es, 0, Event(t, CallReservedLock));
    var s2 := Next(s1, es, 1, Event(t, TryReserved));
    var s3 := Next(s2, es, 2, Event(t, CallWriteLock));
    var s4 := Next(s3, es, 3, Event(t, TryWrite));
  }

  lemma Releases(s: Sys, t: Task)
    requires s.Pc(t) == Idle && s.lock.reserved == Some(t)
    ensures After(s, Release(t)) == s.At(t, Idle).(lock := s.lock.(reserved := None))
  {
    var es := Release(t);
    assert es[0..] == es;
    var s1 := Next(s, es, 0, Event(t, CallReleaseReserved));
    var s2 := Next(s1, es, 1, Event(t, TestReservation));
    var s3 := Next(s2, es, 2, Event(t, ClearReservation));
  }

  lemma Hands(s: Sys, t: Task)
    requires s.Pc(t) == Idle && s.lock.readCount < 0 && s.lock.reserved == None
    ensures After(s, Hand(t)).lock == s.lock.(readCount := 0) && After(s, Hand(t)).holds == s.holds
  {
    var es := Hand(t);
    assert es[0..] == es;
    var s1 := Next(s, es, 0, Event(t, CallWriteUnlock));
    var s2 := Next(s1, es, 1, Event(t, TestCount));
    assert s2.Pc(t) == HandingBack && s2.lock == s.lock && s2.holds == s.holds;
    var s3 := Next(s2, es, 2, Event(t, ReadReservation));
    assert s3.Pc(t) == HandingStore(false) && s3.lock == s.lock && s3.holds == s.holds;
    var s4 := Next(s3, es, 3, Event(t, StoreCount));
  }

  /** Dropping the promise while upgraded loses the read lock: any writer can then join its holder. */
  lemma ReleaseWhileWritingLosesReadLock(t: Task, u: Task)
    ensures var s := After(After(After(INIT, Upgrade(t)), Release(t)), Hand(t));
            t in s.holds && CanWrite(s.lock, u)
  {
    Upgrades(t);
    Releases(After(INIT, Upgrade(t)), t);
    Hands(After(After(INIT, Upgrade(t)), Release(t)), t);
  }

  // ---------- atomic promotion ----------

  /** `t` has the promise, as a reader or upgraded to the write lock. */
  ghost predicate Has(s: Sys, t: Task) {
    s.lock.reserved == Some(t) && s.writers <= {t}
  }

  /** `t` does not drop its promise during the run. */
  ghost predicate KeepsPromise(es: seq<Event>, t: Task) {
    forall i :: 0 <= i < |es| ==> es[i] != Event(t, ClearReservation)
  }

  /** How often `t` changes the protected data during the run. */
  function Updates(es: seq<Event>, t: Task): nat {
    if es == [] then 0 else (if es[0] == Event(t, Update) then 1 else 0) + Updates(es[1..], t)
  }

  /** The two ways to be granted the promise. */
  lemma GrantPromises(s: Sys, e: Event)
    requires Inv(s) && Enabled(s, e)
    requires (e.action.TryReserved? && CanReserve(s.lock, e.task)) || (e.action.RequestReserved? && CanPromise(s.lock))
    ensures Has(Step(s, e), e.task)
  {
  }

  lemma PromiseStandsForStep(s: Sys, e: Event, t: Task)
    requires Inv(s) && Has(s, t) && Enabled(s, e) && Disciplined(s, e) && e != Event(t, ClearReservation)
    ensures Has(Step(s, e), t)
    ensures Step(s, e).version == s.version + if e == Event(t, Update) then 1 else 0
  {
    assert PcOk(s, e.task);
    StepKeepsCore(s, e);
    if e.task != t {
      OthersKeepMine(s, e, t);
      OthersCannotWrite(s, e.task, t);
    } else {
      OwnPromiseStands(s, e);
    }
  }

  lemma OthersCannotWrite(s: Sys, u: Task, t: Task)
    requires Core(s) && Has(s, t) && u != t
    ensures !CanWrite(s.lock, u) && u !in s.writers
  {
    assert s.holds == (s.holds - multiset{t}) + multiset{t};
  }

  lemma OwnPromiseStands(s: Sys, e: Event)
    requires PcOk(s, e.task) && Has(s, e.task) && Enabled(s, e) && !e.action.ClearReservation?
    ensures Has(Step(s, e), e.task)
    ensures Step(s, e).version == s.version + if e.action.Update? then 1 else 0
  {
  }

  lemma {:induction false} PromiseStands(s: Sys, es: seq<Event>, t: Task)
    requires Inv(s) && Has(s, t) && Run(s, es) && KeepsPromise(es, t)
    ensures Has(After(s, es), t) && After(s, es).version == s.version + Updates(es, t)
    decreases |es|
  {
    if es != [] {
      PromiseStandsForStep(s, es[0], t);
      StepKeepsInv(s, es[0]);
      PromiseStands(Step(s, es[0]), es[1..], t);
    }
  }

  /**
   From the grant of the promise until `t` drops it, through every upgrade and whatever the others
   do, nobody else has or can be granted the write lock, and only `t` itself changes the data; and
   as a reader `t` can be upgraded as soon as it is the only one.
   */
  lemma Promotion(before: seq<Event>, es: seq<Event>, t: Task)
    requires Run(INIT, before) && Has(After(INIT, before), t)
    requires Run(After(INIT, before), es) && KeepsPromise(es, t)
    ensures var s0, s := After(INIT, before), After(After(INIT, before), es);
            && Has(s, t) && s.version == s0.version + Updates(es, t)
            && (forall u: Task :: u != t ==> !CanWrite(s.lock, u) && u !in s.writers)
            && (CanWrite(s.lock, t) <==> s.writers == {} && s.holds == multiset{t})
  {
    RunKeepsInv(INIT, before);
    var s0 := After(INIT, before);
    PromiseStands(s0, es, t);
    RunKeepsInv(s0, es);
    PromisedAlone(After(s0, es), t);
  }

  lemma PromisedAlone(s: Sys, t: Task)
    requires Core(s) && Has(s, t)
    ensures forall u: Task :: u != t ==> !CanWrite(s.lock, u) && u !in s.writers
    ensures CanWrite(s.lock, t) <==> s.writers == {} && s.holds == multiset{t}
  {
    forall u: Task | u != t ensures !CanWrite(s.lock, u) && u !in s.writers {
      OthersCannotWrite(s, u, t);
    }
    if CanWrite(s.lock, t) {
      GrantKeepsCore(s, t);
    }
  }

  /** Back to the state before the upgrade: the one reader, with its promise, and no other writer since. */
  ghost predicate HandedBack(s: Sys, t: Task) {
    s.writers == {} && s.holds == multiset{t} && s.lock.readCount == 1 && s.lock.reserved == Some(t)
    && CanWrite(s.lock, t)
  }

  /** What giving back the write lock leaves, with and without a promise. */
  lemma HandBack(s: Sys, t: Task)
    requires Inv(s) && s.Pc(t).HandingStore?
    ensures var r := Step(s, Event(t, StoreCount));
            && r.version == s.version
            && (s.lock.reserved == Some(t) ==> HandedBack(r, t))
            && (s.lock.reserved != Some(t) ==> r.lock == FREE.(writeReq := s.lock.writeReq) && r.holds == multiset{})
  {
    assert PcOk(s, t);
  }

  /**
   The whole promotion: a task that was granted the promise and has not dropped it, upgraded at some
   time and now gives the write lock back, is handed back its read lock and its promise; the data
   has changed only by its own updates.
   */
  lemma PromotionHandsBack(before: seq<Event>, es: seq<Event>, t: Task)
    requires Run(INIT, before) && Has(After(INIT, before), t)
    requires Run(After(INIT, before), es) && KeepsPromise(es, t)
    requires After(After(INIT, before), es).Pc(t).HandingStore?
    ensures var s0, s := After(INIT, before), After(After(INIT, before), es);
            && t in s.writers && HandedBack(Step(s, Event(t, StoreCount)), t)
            && Step(s, Event(t, StoreCount)).version == s0.version + Updates(es, t)
  {
    RunKeepsInv(INIT, before);
    var s0 := After(INIT, before);
    PromiseStands(s0, es, t);
    RunKeepsInv(s0, es);
    assert PcOk(After(s0, es), t);
    HandBack(After(s0, es), t);
  }

  // ---------- a waiting writer drains the readers ----------

  /** No writer is granted and none gives up waiting. */
  ghost predicate NoWriterLeaves(s: Sys, es: seq<Event>)
    decreases |es|
  {
    es != [] && Enabled(s, es[0]) ==>
      && !es[0].action.Withdraw?
      && !(es[0].action.TryWrite? && CanWrite(s.lock, es[0].task))
      && NoWriterLeaves(Step(s, es[0]), es[1..])
  }

  /** Every task that asks for a read lock has priority at most `p`. */
  predicate ReadersUpTo(es: seq<Event>, p: nat) {
    forall i :: 0 <= i < |es| && (es[i].action.TryRead? || es[i].action.TryReserved?) ==> es[i].task.priority <= p
  }

  lemma {:induction false} WriterDrainsReaders(s: Sys, es: seq<Event>, p: nat)
    requires s.lock.writeReq >= p && NoWriterLeaves(s, es)
    ensures After(s, es).lock.writeReq >= p
    ensures forall u: Task :: u.priority <= p ==> After(s, es).holds[u] <= s.holds[u]
    ensures ReadersUpTo(es, p) ==> After(s, es).holds <= s.holds
    ensures ReadersUpTo(es, p) && Inv(s) && Run(s, es) && s.writers == {} ==>
              After(s, es).lock.readCount <= s.lock.readCount
    decreases |es|
  {
    if es != [] && Enabled(s, es[0]) {
      var r := Step(s, es[0]);
      WriterDrainsReaders(r, es[1..], p);
      assert forall u: Task :: u.priority <= p ==> r.holds[u] <= s.holds[u];
      if ReadersUpTo(es, p) {
        assert ReadersUpTo(es[1..], p);
        assert r.holds <= s.holds;
        if Inv(s) && Run(s, es) && s.writers == {} {
          StepKeepsInv(s, es[0]);
        }
      }
    }
  }

  /** A writer that is refused and waits raises the request to its priority, and never lowers it. */
  lemma RefusedWriterAsks(s: Sys, t: Task)
    requires s.Pc(t).WriteRefused?
    ensures var r := Step(s, Event(t, Raise));
            && r.lock.writeReq == (if s.lock.writeReq < t.priority then t.priority else s.lock.writeReq)
            && r == s.(pcs := s.pcs[t := Writing], lock := s.lock.(writeReq := r.lock.writeReq))
  {
  }

  /** So from then on, until a writer is granted or times out, no task of its priority or less becomes a reader. */
  lemma BlockedWriterDrainsReaders(s: Sys, es: seq<Event>, t: Task)
    requires s.Pc(t).WriteRefused? && NoWriterLeaves(Step(s, Event(t, Raise)), es)
    ensures var r := After(Step(s, Event(t, Raise)), es);
            r.lock.writeReq >= t.priority && forall u: Task :: u.priority <= t.priority ==> r.holds[u] <= s.holds[u]
  {
    RefusedWriterAsks(s, t);
    WriterDrainsReaders(Step(s, Event(t, Raise)), es, t.priority);
  }

  /** The request only ever falls when a writer is granted or one of exactly that priority times out. */
  lemma RequestFallsOnlyWithWriter(s: Sys, e: Event)
    requires Enabled(s, e)
    ensures Step(s, e).lock.writeReq < s.lock.writeReq <==>
              || (e.action.TryWrite? && CanWrite(s.lock, e.task) && s.lock.writeReq > -1)
              || (e.action.Withdraw? && e.task.priority == s.lock.writeReq)
  {
  }
}
