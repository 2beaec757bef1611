/**
 The goroutine pool of gpool/pool.go and gpool/worker.go as a state machine.

 Any number of submitters (goroutines inside Submit or Invoke), workers, one
 scavenger and any number of callers of Release interleave.  One step makes at
 most one access to a shared location that the pool lock does not protect
 (`running`, `state`, a worker's channel, the worker cache, the clock); the idle container
 and `blockingNum` are touched only by the actor that holds the lock.  A
 goroutine parked in Wait may wake at any time, which covers every use of
 Signal and Broadcast.
 */
module PoolModel {
  import opened Wrappers

  type SubId = nat
  type WorkerId = nat
  type RelId = nat
  type TaskId = nat

  /** What travels on a worker's `args` channel: nil, or a task. */
  datatype Msg = Stop | Task(id: TaskId)

  datatype Backing = Stack | Ring

  /** What NewPool fixes.  `chanCap` is workerChanCap: 0 on one processor, else 1. */
  datatype Config = Config(capacity: int, backing: Backing, nonblocking: bool, maxBlocking: int, chanCap: nat)
  {
    ghost predicate Valid() {
      && (capacity == -1 || capacity > 0)
      && (backing == Ring ==> capacity > 0)
      && chanCap <= 1
    }
  }

  datatype NewError = InvalidPoolExpiry | InvalidPreAllocSize

  datatype Made = Pool(cfg: Config) | NewFailed(error: NewError)

  /** NewPool, on procs processors, for a size that fits an int32. */
  function NewPool(size: int, expiry: int, preAlloc: bool, nonblocking: bool, maxBlocking: int, procs: nat): Made {
    var capacity := if size <= 0 then -1 else size;
    if expiry < 0 then NewFailed(InvalidPoolExpiry)
    else if preAlloc && capacity == -1 then NewFailed(InvalidPreAllocSize)
    else Pool(Config(capacity, if preAlloc then Ring else Stack, nonblocking, maxBlocking, if procs == 1 then 0 else 1))
  }

  /** The valid configurations are those NewPool gives: a size of 0 or less means no limit, and then there is no ring. */
  lemma ValidIffMade(cfg: Config)
    ensures cfg.Valid() <==> exists size, expiry, preAlloc, procs ::
              NewPool(size, expiry, preAlloc, cfg.nonblocking, cfg.maxBlocking, procs) == Pool(cfg)
  {
    if cfg.Valid() {
      assert NewPool(cfg.capacity, 0, cfg.backing == Ring, cfg.nonblocking, cfg.maxBlocking, cfg.chanCap + 1) == Pool(cfg);
    }
  }

  datatype Actor = Sub(i: SubId) | Wrk(w: WorkerId) | Scav | Rel(r: RelId)

  /** Program points of a submitter inside Submit or Invoke. */
  datatype SubPc =
    | Entered(m: Msg)                  // IsClosed was false; wants the lock
    | Locked(m: Msg)                   // holds the lock, before detach
    | LoopTop(m: Msg)                  // holds the lock, head of the waiting loop
    | Parked(m: Msg)                   // in cond.Wait
    | Awake(m: Msg)                    // holds the lock again, Wait has returned
    | ZeroSeen(m: Msg)                 // read running == 0 and unlocked
    | Spawning(m: Msg)                 // may spawn, has not taken a worker yet
    | Launching(m: Msg, w: WorkerId)   // has taken w from the cache, before incRunning
    | Sending(m: Msg, w: WorkerId)     // has a running worker, before the send
  {
    predicate HoldsLock() { Locked? || LoopTop? || Awake? }
    predicate Authorised() { ZeroSeen? || Spawning? || Launching? }
    predicate Waiting() { Parked? || Awake? }
    predicate Has(x: WorkerId) { (Launching? || Sending?) && w == x }
  }

  /** Program points of a worker, from its birth in the cache to its return there. */
  datatype WorkerPc =
    | Cached
    | Taken                 // out of the cache, goroutine not started
    | Arriving              // goroutine started, or just put back; on its way to the receive
    | Receiving             // at `range w.args`
    | Executing(t: TaskId)
    | Returned              // before the Running() > capacity test
    | Rechecking            // before the first IsClosed test
    | Stamping              // before recycleTime is set
    | WantLock
    | HoldsLock             // before the second IsClosed test
    | Exiting               // in the deferred function, before decRunning
    | Exited                // after decRunning, before workerCache.Put
  {
    /** Between incRunning and decRunning. */
    predicate Live() { !Cached? && !Taken? && !Exited? }
    /** At its receive, or on the way there. */
    predicate Ready() { Arriving? || Receiving? }
  }

  /** Who may send to a worker, or the worker itself.  A history variable. */
  datatype Owner = Self | Idle | BySub(i: SubId) | ByScav

  datatype Worker = Worker(pc: WorkerPc, chan: seq<Msg>, owner: Owner)

  datatype ScavPc = Sleeping | Ticked | Scavenging | Stopping(ws: seq<WorkerId>) | Stopped

  datatype RelPc = WantReset | Resetting

  /** Where a task is.  A history variable. */
  datatype Place = WithSub(i: SubId) | InChan(w: WorkerId) | OnWorker(w: WorkerId) | Done | Refused

  datatype State = State(
    cfg: Config,
    closed: bool,
    lock: Option<Actor>,
    running: int,
    blocking: int,
    idle: seq<WorkerId>,
    workers: map<WorkerId, Worker>,
    subs: map<SubId, SubPc>,
    scav: ScavPc,
    rels: map<RelId, RelPc>,
    clock: int,
    recycled: map<WorkerId, int>,   // each worker's recycleTime
    // history
    place: map<TaskId, Place>,
    started: multiset<TaskId>,
    released: bool)
  {
    function Expired(): seq<WorkerId> { if scav.Stopping? then scav.ws else [] }
  }

  function Init(cfg: Config): State {
    State(cfg, false, None, 0, 0, [], map[], map[], Sleeping, map[], 0, map[], map[], multiset{}, false)
  }

  // ---------------------------------------------------------------- channels

  /** A send on an unbuffered channel needs the receiver; a buffered one needs room. */
  predicate CanSend(cap: nat, x: Worker) {
    if cap == 0 then x.pc == Receiving && x.chan == [] else |x.chan| < cap
  }

  /** The worker's loop takes message m. */
  function Begun(m: Msg): Worker { Worker(if m.Stop? then Exiting else Executing(m.id), [], Self) }

  /** The worker once m is sent: an unbuffered send is also the receive. */
  function Sent(cap: nat, x: Worker, m: Msg): Worker {
    if cap == 0 then Begun(m) else Worker(x.pc, x.chan + [m], Self)
  }

  // ---------------------------------------------------- effects on the state

  function Moved(place: map<TaskId, Place>, m: Msg, p: Place): map<TaskId, Place> {
    if m.Task? then place[m.id := p] else place
  }

  /** Submitter i goes to pc; the lock and blockingNum become as given. */
  function MoveSub(s: State, i: SubId, pc: SubPc, lock: Option<Actor>, blocking: int): State {
    s.(subs := s.subs[i := pc], lock := lock, blocking := blocking)
  }

  /** Submit or Invoke gives up with ErrPoolOverload. */
  function Refuse(s: State, i: SubId, lock: Option<Actor>): State
    requires i in s.subs
  {
    s.(subs := s.subs - {i}, place := Moved(s.place, s.subs[i].m, Refused), lock := lock)
  }

  /** Submitter i gets the idle worker at position k and unlocks. */
  function TakeIdle(s: State, i: SubId, k: nat, blocking: int): State
    requires i in s.subs && k < |s.idle| && s.idle[k] in s.workers
  {
    s.(idle := s.idle[..k] + s.idle[k + 1..],
       workers := s.workers[s.idle[k] := s.workers[s.idle[k]].(owner := BySub(i))],
       subs := s.subs[i := Sending(s.subs[i].m, s.idle[k])],
       blocking := blocking,
       lock := None)
  }

  /** Worker w becomes x; the lock and running become as given. */
  function MoveWorker(s: State, w: WorkerId, x: Worker, lock: Option<Actor>, running: int): State {
    s.(workers := s.workers[w := x], lock := lock, running := running)
  }

  // ------------------------------------------------------------- submitters

  /** Submit or Invoke finds the pool open. */
  predicate Enter(s: State, s': State, i: SubId, m: Msg) {
    && i !in s.subs && !s.closed && (m.Task? ==> m.id !in s.place)
    && s' == s.(subs := s.subs[i := Entered(m)], place := Moved(s.place, m, WithSub(i)))
  }

  predicate LockSub(s: State, s': State, i: SubId) {
    && i in s.subs && s.subs[i].Entered? && s.lock.None?
    && s' == MoveSub(s, i, Locked(s.subs[i].m), Some(Sub(i)), s.blocking)
  }

  /** detach of the stack takes the newest idle worker, detach of the ring the oldest. */
  function DetachIndex(s: State): int { if s.cfg.backing == Stack then |s.idle| - 1 else 0 }

  predicate Retrieve(s: State, s': State, i: SubId) {
    && i in s.subs && s.subs[i].Locked?
    && if s.idle != [] then
         s.idle[DetachIndex(s)] in s.workers && s' == TakeIdle(s, i, DetachIndex(s), s.blocking)
       else if s.cfg.capacity == -1 || s.cfg.capacity > s.running then
         s' == MoveSub(s, i, Spawning(s.subs[i].m), None, s.blocking)
       else if s.cfg.nonblocking then
         s' == Refuse(s, i, None)
       else
         s' == MoveSub(s, i, LoopTop(s.subs[i].m), s.lock, s.blocking)
  }

  predicate TooManyBlocked(s: State) { s.cfg.maxBlocking != 0 && s.blocking >= s.cfg.maxBlocking }

  predicate Park(s: State, s': State, i: SubId) {
    && i in s.subs && s.subs[i].LoopTop?
    && if TooManyBlocked(s) then s' == Refuse(s, i, None)
       else s' == MoveSub(s, i, Parked(s.subs[i].m), None, s.blocking + 1)
  }

  predicate Wake(s: State, s': State, i: SubId) {
    && i in s.subs && s.subs[i].Parked? && s.lock.None?
    && s' == MoveSub(s, i, Awake(s.subs[i].m), Some(Sub(i)), s.blocking)
  }

  /** The rest of the loop body after Wait. */
  predicate Retry(s: State, s': State, i: SubId) {
    && i in s.subs && s.subs[i].Awake?
    && if s.running == 0 then
         s' == MoveSub(s, i, ZeroSeen(s.subs[i].m), None, s.blocking - 1)
       else if s.idle != [] then
         s.idle[DetachIndex(s)] in s.workers && s' == TakeIdle(s, i, DetachIndex(s), s.blocking - 1)
       else if s.running < s.cfg.capacity then
         s' == MoveSub(s, i, Spawning(s.subs[i].m), None, s.blocking - 1)
       else
         s' == MoveSub(s, i, LoopTop(s.subs[i].m), s.lock, s.blocking - 1)
  }

  predicate RetestClosed(s: State, s': State, i: SubId) {
    && i in s.subs && s.subs[i].ZeroSeen?
    && if s.closed then s' == Refuse(s, i, s.lock)
       else s' == MoveSub(s, i, Spawning(s.subs[i].m), s.lock, s.blocking)
  }

  /** workerCache.Get returns a cached worker or a new one. */
  predicate Get(s: State, s': State, i: SubId, w: WorkerId) {
    && i in s.subs && s.subs[i].Spawning? && (w in s.workers ==> s.workers[w].pc == Cached)
    && s' == s.(subs := s.subs[i := Launching(s.subs[i].m, w)],
                workers := s.workers[w := Worker(Taken, [], BySub(i))])
  }

  /** incRunning, then the goroutine starts. */
  predicate Launch(s: State, s': State, i: SubId) {
    && i in s.subs && s.subs[i].Launching? && s.subs[i].w in s.workers
    && s' == s.(subs := s.subs[i := Sending(s.subs[i].m, s.subs[i].w)],
                workers := s.workers[s.subs[i].w := s.workers[s.subs[i].w].(pc := Arriving)],
                running := s.running + 1)
  }

  /** The send of Submit or Invoke, which then returns nil. */
  predicate SendTask(s: State, s': State, i: SubId) {
    && i in s.subs && s.subs[i].Sending? && s.subs[i].w in s.workers
    && CanSend(s.cfg.chanCap, s.workers[s.subs[i].w])
    && var w, m := s.subs[i].w, s.subs[i].m;
       s' == s.(subs := s.subs - {i},
                workers := s.workers[w := Sent(s.cfg.chanCap, s.workers[w], m)],
                place := Moved(s.place, m, if s.cfg.chanCap == 0 then OnWorker(w) else InChan(w)),
                started := if m.Task? && s.cfg.chanCap == 0 then s.started + multiset{m.id} else s.started)
  }

  // ---------------------------------------------------------------- workers

  /** The goroutine gets to its receive. */
  predicate Arrive(s: State, s': State, w: WorkerId) {
    && w in s.workers && s.workers[w].pc == Arriving
    && s' == MoveWorker(s, w, s.workers[w].(pc := Receiving), s.lock, s.running)
  }

  predicate Receive(s: State, s': State, w: WorkerId) {
    && w in s.workers && s.workers[w].pc == Receiving && s.workers[w].chan != []
    && var m := s.workers[w].chan[0];
       s' == s.(workers := s.workers[w := Begun(m)],
                place := Moved(s.place, m, OnWorker(w)),
                started := if m.Task? then s.started + multiset{m.id} else s.started)
  }

  /** A task returns; or it panics or is a nil function, and the worker quits. */
  predicate TaskEnds(s: State, s': State, w: WorkerId, quits: bool) {
    && w in s.workers && s.workers[w].pc.Executing?
    && s' == s.(workers := s.workers[w := s.workers[w].(pc := if quits then Exiting else Returned)],
                place := s.place[s.workers[w].pc.t := Done])
  }

  predicate TestCapacity(s: State, s': State, w: WorkerId) {
    && w in s.workers && s.workers[w].pc == Returned
    && var pc := if s.cfg.capacity > 0 && s.running > s.cfg.capacity then Exiting else Rechecking;
       s' == MoveWorker(s, w, s.workers[w].(pc := pc), s.lock, s.running)
  }

  predicate TestClosed(s: State, s': State, w: WorkerId) {
    && w in s.workers && s.workers[w].pc == Rechecking
    && s' == MoveWorker(s, w, s.workers[w].(pc := if s.closed then Exiting else Stamping), s.lock, s.running)
  }

  /** recycleTime is taken from the clock before the lock is. */
  predicate Stamp(s: State, s': State, w: WorkerId) {
    && w in s.workers && s.workers[w].pc == Stamping
    && s' == MoveWorker(s, w, s.workers[w].(pc := WantLock), s.lock, s.running)
             .(recycled := s.recycled[w := s.clock])
  }

  predicate RevertLock(s: State, s': State, w: WorkerId) {
    && w in s.workers && s.workers[w].pc == WantLock && s.lock.None?
    && s' == MoveWorker(s, w, s.workers[w].(pc := HoldsLock), Some(Wrk(w)), s.running)
  }

  /** The ring is full when it holds as many workers as the pool's capacity; the stack never is. */
  predicate InsertFails(s: State) { s.cfg.backing == Ring && |s.idle| >= s.cfg.capacity }

  /** The second IsClosed test, insert, Signal, unlock. */
  predicate Revert(s: State, s': State, w: WorkerId) {
    && w in s.workers && s.workers[w].pc == HoldsLock
    && if s.closed || InsertFails(s) then
         s' == MoveWorker(s, w, s.workers[w].(pc := Exiting), None, s.running)
       else
         s' == s.(workers := s.workers[w := s.workers[w].(pc := Arriving, owner := Idle)],
                  idle := s.idle + [w], lock := None)
  }

  predicate DecRunning(s: State, s': State, w: WorkerId) {
    && w in s.workers && s.workers[w].pc == Exiting
    && s' == MoveWorker(s, w, s.workers[w].(pc := Exited), s.lock, s.running - 1)
  }

  predicate PutCache(s: State, s': State, w: WorkerId) {
    && w in s.workers && s.workers[w].pc == Exited
    && s' == MoveWorker(s, w, s.workers[w].(pc := Cached), s.lock, s.running)
  }

  // -------------------------------------------------------------- scavenger

  predicate Tick(s: State, s': State) {
    s.scav == Sleeping && s' == s.(scav := if s.closed then Stopped else Ticked)
  }

  predicate ScavLock(s: State, s': State) {
    s.scav == Ticked && s.lock.None? && s' == s.(scav := Scavenging, lock := Some(Scav))
  }

  function Claim(ws: map<WorkerId, Worker>, taken: seq<WorkerId>): map<WorkerId, Worker> {
    map w | w in ws :: if w in taken then ws[w].(owner := ByScav) else ws[w]
  }

  /** retrieveExpiry hands out a prefix of the idle container, of whatever length (see IdleWorkers). */
  predicate Expire(s: State, s': State, n: nat) {
    && s.scav == Scavenging && n <= |s.idle|
    && s' == s.(scav := Stopping(s.idle[..n]), idle := s.idle[n..],
                workers := Claim(s.workers, s.idle[..n]), lock := None)
  }

  predicate StopExpired(s: State, s': State) {
    && s.scav.Stopping? && s.scav.ws != [] && s.scav.ws[0] in s.workers
    && CanSend(s.cfg.chanCap, s.workers[s.scav.ws[0]])
    && s' == s.(workers := s.workers[s.scav.ws[0] := Sent(s.cfg.chanCap, s.workers[s.scav.ws[0]], Stop)],
                scav := Stopping(s.scav.ws[1..]))
  }

  /** All told; Running() == 0 at most wakes waiters. */
  predicate Rest(s: State, s': State) {
    s.scav == Stopping([]) && s' == s.(scav := Sleeping)
  }

  // ---------------------------------------------------------------- the clock

  /** Time passes; the clock never goes back. */
  predicate Pass(s: State, s': State, n: nat) { s' == s.(clock := s.clock + n) }

  // ------------------------------------- release, of the stack-backed pool

  predicate Close(s: State, s': State, r: RelId) {
    && s.cfg.backing == Stack && r !in s.rels
    && s' == s.(closed := true, rels := s.rels[r := WantReset])
  }

  predicate ResetLock(s: State, s': State, r: RelId) {
    && r in s.rels && s.rels[r] == WantReset && s.lock.None?
    && s' == s.(rels := s.rels[r := Resetting], lock := Some(Rel(r)))
  }

  predicate ResetOne(s: State, s': State, r: RelId) {
    && r in s.rels && s.rels[r] == Resetting && s.idle != [] && s.idle[0] in s.workers
    && CanSend(s.cfg.chanCap, s.workers[s.idle[0]])
    && s' == s.(workers := s.workers[s.idle[0] := Sent(s.cfg.chanCap, s.workers[s.idle[0]], Stop)],
                idle := s.idle[1..])
  }

  predicate ResetDone(s: State, s': State, r: RelId) {
    && r in s.rels && s.rels[r] == Resetting && s.idle == []
    && s' == s.(rels := s.rels - {r}, lock := None, released := true)
  }

  // ------------------------------------------------------------------- runs

  datatype Step =
    | SEnter(i: SubId, m: Msg) | SLock(i: SubId) | SRetrieve(i: SubId) | SPark(i: SubId) | SWake(i: SubId)
    | SRetry(i: SubId) | SRetest(i: SubId) | SGet(i: SubId, w: WorkerId) | SLaunch(i: SubId) | SSend(i: SubId)
    | WArrive(w: WorkerId) | WReceive(w: WorkerId) | WTaskEnds(w: WorkerId, quits: bool) | WTestCapacity(w: WorkerId)
    | WTestClosed(w: WorkerId) | WStamp(w: WorkerId) | WRevertLock(w: WorkerId) | WRevert(w: WorkerId) | WDecRunning(w: WorkerId)
    | WPutCache(w: WorkerId)
    | CTick | CLock | CExpire(n: nat) | CStop | CRest
    | TPass(n: nat)
    | RClose(r: RelId) | RLock(r: RelId) | RReset(r: RelId) | RDone(r: RelId)

  predicate SubNext(s: State, s': State, e: Step) {
    match e
    case SEnter(i, m) => Enter(s, s', i, m)
    case SLock(i) => LockSub(s, s', i)
    case SRetrieve(i) => Retrieve(s, s', i)
    case SPark(i) => Park(s, s', i)
    case SWake(i) => Wake(s, s', i)
    case SRetry(i) => Retry(s, s', i)
    case SRetest(i) => RetestClosed(s, s', i)
    case SGet(i, w) => Get(s, s', i, w)
    case SLaunch(i) => Launch(s, s', i)
    case SSend(i) => SendTask(s, s', i)
    case _ => false
  }

  predicate WorkerNext(s: State, s': State, e: Step) {
    match e
    case WArrive(w) => Arrive(s, s', w)
    case WReceive(w) => Receive(s, s', w)
    case WTaskEnds(w, quits) => TaskEnds(s, s', w, quits)
    case WTestCapacity(w) => TestCapacity(s, s', w)
    case WTestClosed(w) => TestClosed(s, s', w)
    case WStamp(w) => Stamp(s, s', w)
    case WRevertLock(w) => RevertLock(s, s', w)
    case WRevert(w) => Revert(s, s', w)
    case WDecRunning(w) => DecRunning(s, s', w)
    case WPutCache(w) => PutCache(s, s', w)
    case _ => false
  }

  predicate OtherNext(s: State, s': State, e: Step) {
    match e
    case CTick => Tick(s, s')
    case CLock => ScavLock(s, s')
    case CExpire(n) => Expire(s, s', n)
    case CStop => StopExpired(s, s')
    case CRest => Rest(s, s')
    case TPass(n) => Pass(s, s', n)
    case RClose(r) => Close(s, s', r)
    case RLock(r) => ResetLock(s, s', r)
    case RReset(r) => ResetOne(s, s', r)
    case RDone(r) => ResetDone(s, s', r)
    case _ => false
  }

  predicate Next(s: State, s': State, e: Step) {
    SubNext(s, s', e) || WorkerNext(s, s', e) || OtherNext(s, s', e)
  }

  /** A run of the pool: `states[k]` and `states[k + 1]` are joined by step `steps[k]`. */
  ghost predicate IsRun(cfg: Config, states: seq<State>, steps: seq<Step>) {
    && cfg.Valid()
    && |states| == |steps| + 1
    && states[0] == Init(cfg)
    && (forall k | 0 <= k < |states| :: states[k].cfg == cfg)
    && (forall k | 0 <= k < |steps| :: Next(states[k], states[k + 1], steps[k]))
  }
}
