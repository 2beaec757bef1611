/**
 After Release: the idle container stays empty, and the workers drain, however
 many submitters are still parked, spawning or sending and whatever the
 scavenger still has to tell.  A parked submitter that finds room spawns without
 testing IsClosed again, so a closed pool can still start workers: one for each
 submitter inside.
 */
module PoolDrain {
  import opened PoolModel
  import opened PoolInvariant
  import opened PoolSafety
  import opened Sets
  import opened Wrappers

  /** From the end of a Release on, the pool is closed and nothing is idle. */
  lemma IdleStaysEmptyAfterRelease(cfg: Config, states: seq<State>, steps: seq<Step>, j: nat, r: RelId, k: nat)
    requires IsRun(cfg, states, steps) && j < |steps| && steps[j] == RDone(r) && j < k < |states|
    ensures states[k].closed && states[k].idle == []
  {
    assert Next(states[j], states[j + 1], steps[j]);
    assert states[j + 1].released;
    hide Next;
    RunProgress(cfg, states, steps, j + 1, k);
    RunKeepsInv(cfg, states, steps, k);
  }

  // ------------------------------------------- every run takes few worker steps

  /** How many steps a worker of a closed pool is away from the cache, once it has its message. */
  ghost function Rank(x: Worker): nat {
    match x.pc
    case Arriving => 10
    case Receiving => 9
    case Executing(_) => 8
    case Returned => 7
    case Rechecking => 6
    case Stamping => 5
    case WantLock => 4
    case HoldsLock => 3
    case Exiting => 2
    case Exited => 1
    case Cached => 0
    case Taken => 0
  }

  /** The submitters that may still start a worker. */
  ghost function Owing(subs: Subs): set<SubId> { set i | i in subs && !subs[i].Sending? }

  /** The steps that the workers can still take, with those that can still be started. */
  ghost function Left(s: State): nat { Sum(s.workers, Rank) + 10 * |Owing(s.subs)| }

  function WorkerSteps(steps: seq<Step>, j: nat, k: nat): nat
    requires j <= k <= |steps|
  {
    if j == k then 0 else WorkerSteps(steps, j, k - 1) + if ByWorker(steps[k - 1]) then 1 else 0
  }

  function Launches(steps: seq<Step>, j: nat, k: nat): nat
    requires j <= k <= |steps|
  {
    if j == k then 0 else Launches(steps, j, k - 1) + if steps[k - 1].SLaunch? then 1 else 0
  }

  /** A worker's step in a closed pool brings it closer to the cache. */
  lemma WorkerDrains(s: State, s': State, e: Step)
    requires s.closed && WorkerNext(s, s', e)
    ensures s'.closed && s'.subs == s.subs && Sum(s'.workers, Rank) < Sum(s.workers, Rank)
  {
    hide WorkerNext, Sum, Rank;
    WorkerMovesAlone(s, s', e);
    RankDrops(s.workers[e.w], s'.workers[e.w]);
    SumUpdate(s.workers, Rank, e.w, s'.workers[e.w]);
  }

  lemma RankDrops(x: Worker, x': Worker)
    requires GoesOn(x, x', true)
    ensures Rank(x') < Rank(x)
  {
  }

  /** A submitter's step pays for what it starts. */
  ghost predicate Pays(s: State, s': State, launch: bool) {
    && s'.closed && Left(s') <= Left(s)
    && |Owing(s'.subs)| + (if launch then 1 else 0) <= |Owing(s.subs)|
  }

  lemma PaysMove(s: State, i: SubId, pc: SubPc, lock: Option<Actor>, blocking: int)
    requires s.closed && i in s.subs && !s.subs[i].Sending?
    ensures Pays(s, MoveSub(s, i, pc, lock, blocking), false)
  {
    hide Sum;
    SubsetSize(Owing(s.subs[i := pc]), Owing(s.subs));
  }

  lemma PaysRefuse(s: State, i: SubId, lock: Option<Actor>)
    requires s.closed && i in s.subs
    ensures Pays(s, Refuse(s, i, lock), false)
  {
    hide Sum;
    SubsetSize(Owing(s.subs - {i}), Owing(s.subs));
  }

  lemma PaysTakeIdle(s: State, i: SubId, k: nat, blocking: int)
    requires s.closed && i in s.subs && k < |s.idle| && s.idle[k] in s.workers
    ensures Pays(s, TakeIdle(s, i, k, blocking), false)
  {
    var w, s' := s.idle[k], TakeIdle(s, i, k, blocking);
    SumUpdate(s.workers, Rank, w, s'.workers[w]);
    hide Sum;
    SubsetSize(Owing(s'.subs), Owing(s.subs));
  }

  lemma RetrievePays(s: State, s': State, i: SubId)
    requires s.closed && (Retrieve(s, s', i) || Retry(s, s', i))
    ensures Pays(s, s', false)
  {
    hide Pays, MoveSub, Refuse, TakeIdle, Retrieve, Retry;
    var pc, lock, blocking := EitherSettles(s, s', i);
    if s' == MoveSub(s, i, pc, lock, blocking) {
      PaysMove(s, i, pc, lock, blocking);
    } else if s' == Refuse(s, i, None) {
      PaysRefuse(s, i, None);
    } else {
      PaysTakeIdle(s, i, DetachIndex(s), blocking);
    }
  }

  lemma WaitingPays(s: State, s': State, i: SubId)
    requires s.closed && (LockSub(s, s', i) || Park(s, s', i) || Wake(s, s', i) || RetestClosed(s, s', i))
    ensures Pays(s, s', false)
  {
    hide Pays, MoveSub, Refuse;
    var m := s.subs[i].m;
    PaysMove(s, i, Locked(m), Some(Sub(i)), s.blocking);
    PaysRefuse(s, i, None);
    PaysRefuse(s, i, s.lock);
    PaysMove(s, i, Parked(m), None, s.blocking + 1);
    PaysMove(s, i, Awake(m), Some(Sub(i)), s.blocking);
  }

  lemma GetPays(s: State, s': State, i: SubId, w: WorkerId)
    requires s.closed && Get(s, s', i, w)
    ensures Pays(s, s', false)
  {
    SumUpdate(s.workers, Rank, w, s'.workers[w]);
    hide Sum;
    SubsetSize(Owing(s'.subs), Owing(s.subs));
  }

  lemma LaunchPays(s: State, s': State, i: SubId)
    requires s.closed && Launch(s, s', i)
    ensures Pays(s, s', true)
  {
    var w := s.subs[i].w;
    SumUpdate(s.workers, Rank, w, s'.workers[w]);
    hide Sum;
    assert Owing(s'.subs) == Owing(s.subs) - {i};
  }

  lemma SendPays(s: State, s': State, i: SubId)
    requires s.closed && SendTask(s, s', i)
    ensures Pays(s, s', false)
  {
    var w := s.subs[i].w;
    SumUpdate(s.workers, Rank, w, s'.workers[w]);
    hide Sum;
    SubsetSize(Owing(s'.subs), Owing(s.subs));
  }

  lemma SubPays(s: State, s': State, e: Step)
    requires s.closed && SubNext(s, s', e)
    ensures Pays(s, s', e.SLaunch?)
  {
    hide Pays, LockSub, Retrieve, Park, Wake, Retry, RetestClosed, Get, Launch, SendTask;
    match e
    case SLock(i) => WaitingPays(s, s', i);
    case SRetrieve(i) => RetrievePays(s, s', i);
    case SPark(i) => WaitingPays(s, s', i);
    case SWake(i) => WaitingPays(s, s', i);
    case SRetry(i) => RetrievePays(s, s', i);
    case SRetest(i) => WaitingPays(s, s', i);
    case SGet(i, w) => GetPays(s, s', i, w);
    case SLaunch(i) => LaunchPays(s, s', i);
    case SSend(i) => SendPays(s, s', i);
  }

  lemma ExpirePays(s: State, s': State, n: nat)
    requires s.closed && Expire(s, s', n)
    ensures Pays(s, s', false)
  {
    SumSame(s'.workers, s.workers, Rank);
    hide Sum, Owing;
  }

  lemma StopPays(s: State, s': State)
    requires s.closed && StopExpired(s, s')
    ensures Pays(s, s', false)
  {
    hide Sum, Owing;
    SumUpdate(s.workers, Rank, s.scav.ws[0], s'.workers[s.scav.ws[0]]);
  }

  lemma ResetPays(s: State, s': State, r: RelId)
    requires s.closed && ResetOne(s, s', r)
    ensures Pays(s, s', false)
  {
    hide Sum, Owing;
    SumUpdate(s.workers, Rank, s.idle[0], s'.workers[s.idle[0]]);
  }

  lemma RestPays(s: State, s': State, e: Step)
    requires s.closed && OtherNext(s, s', e) && !e.CExpire? && !e.CStop? && !e.RReset?
    ensures Pays(s, s', false)
  {
    hide Sum, Owing, Expire, StopExpired, ResetOne;
  }

  lemma OtherPays(s: State, s': State, e: Step)
    requires s.closed && OtherNext(s, s', e)
    ensures Pays(s, s', false)
  {
    hide Pays, Expire, StopExpired, ResetOne, Tick, ScavLock, Rest, Close, ResetLock, ResetDone, Pass;
    if e.CExpire? {
      ExpirePays(s, s', e.n);
    } else if e.CStop? {
      StopPays(s, s');
    } else if e.RReset? {
      ResetPays(s, s', e.r);
    } else {
      RestPays(s, s', e);
    }
  }

  lemma ClosedStep(s: State, s': State, e: Step)
    requires s.closed && Next(s, s', e)
    ensures s'.closed && Left(s') + (if ByWorker(e) then 1 else 0) <= Left(s)
    ensures |Owing(s'.subs)| + (if e.SLaunch? then 1 else 0) <= |Owing(s.subs)|
  {
    hide SubNext, WorkerNext, OtherNext, Sum, Owing;
    Kinds(s, s', e);
    if WorkerNext(s, s', e) {
      WorkerDrains(s, s', e);
    } else if SubNext(s, s', e) {
      SubPays(s, s', e);
    } else {
      OtherPays(s, s', e);
    }
  }

  lemma Kinds(s: State, s': State, e: Step)
    ensures WorkerNext(s, s', e) ==> ByWorker(e) && !e.SLaunch?
    ensures SubNext(s, s', e) ==> !ByWorker(e)
    ensures OtherNext(s, s', e) ==> !ByWorker(e) && !e.SLaunch?
  {
    hide Enter, LockSub, Retrieve, Park, Wake, Retry, RetestClosed, Get, Launch, SendTask, Receive, TaskEnds,
         TestCapacity, TestClosed, RevertLock, Revert, DecRunning, PutCache, Tick, ScavLock, Expire, StopExpired,
         Rest, Close, ResetLock, ResetOne, ResetDone, Arrive, Stamp, Pass;
  }

  /**
   From any closed state on, in every run, the workers together take no more
   steps than were left, those still to be started included, and each submitter
   that was inside and not yet sending starts at most one.
   */
  lemma {:induction false} DrainBound(cfg: Config, states: seq<State>, steps: seq<Step>, j: nat, k: nat)
    requires IsRun(cfg, states, steps) && j <= k < |states| && states[j].closed
    ensures states[k].closed
    ensures WorkerSteps(steps, j, k) + Left(states[k]) <= Left(states[j])
    ensures Launches(steps, j, k) + |Owing(states[k].subs)| <= |Owing(states[j].subs)|
    decreases k - j
  {
    hide Next, Left, Owing;
    if j < k {
      DrainBound(cfg, states, steps, j, k - 1);
      ClosedStep(states[k - 1], states[k], steps[k - 1]);
    }
  }

  // ------------------------------------------------------ some run drains

  /** How many steps a submitter of a released pool is away from leaving, with those of a worker it may start. */
  ghost function SubRank(pc: SubPc): nat {
    match pc
    case Entered(_) => 21
    case Locked(_) => 20
    case Awake(_) => 19
    case LoopTop(_) => 18
    case Parked(_) => 17
    case ZeroSeen(_) => 15
    case Spawning(_) => 14
    case Launching(_, _) => 12
    case Sending(_, _) => 1
  }

  ghost function ScavLeft(scav: ScavPc): nat {
    if scav == Scavenging then 1 else if scav.Stopping? then |scav.ws| else 0
  }

  ghost function LockLeft(lock: Option<Actor>): nat { if lock.Some? && lock.value.Rel? then 1 else 0 }

  ghost function Measure(s: State): nat {
    Sum(s.workers, Rank) + Sum(s.subs, SubRank) + ScavLeft(s.scav) + LockLeft(s.lock)
  }

  /** A step of a released pool that brings it closer to its end. */
  ghost predicate Closer(s: State, s': State, e: Step) { Next(s, s', e) && Measure(s') < Measure(s) }

  lemma CloserByWorker(s: State, s': State, e: Step)
    requires s.closed && WorkerNext(s, s', e) && LockLeft(s'.lock) <= LockLeft(s.lock) && s'.scav == s.scav
    ensures Closer(s, s', e)
  {
    hide WorkerNext, Sum, LockLeft;
    WorkerDrains(s, s', e);
  }

  lemma CloserByMove(s: State, i: SubId, pc: SubPc, lock: Option<Actor>, blocking: int)
    requires i in s.subs && SubRank(pc) < SubRank(s.subs[i]) && LockLeft(lock) <= LockLeft(s.lock)
    ensures Measure(MoveSub(s, i, pc, lock, blocking)) < Measure(s)
  {
    SumUpdate(s.subs, SubRank, i, pc);
    hide Sum, SubRank;
  }

  lemma CloserByRefusal(s: State, i: SubId, lock: Option<Actor>)
    requires i in s.subs && LockLeft(lock) <= LockLeft(s.lock)
    ensures Measure(Refuse(s, i, lock)) < Measure(s)
  {
    SumAt(s.subs, SubRank, i);
    hide Sum;
  }

  /** A submitter that holds the lock of a released pool goes on. */
  lemma SubHolderCanGoOn(s: State, i: SubId) returns (e: Step, s': State)
    requires s.idle == [] && i in s.subs && s.subs[i].HoldsLock() && s.lock == Some(Sub(i))
    ensures SubNext(s, s', e) && Measure(s') < Measure(s)
  {
    hide Measure, MoveSub, Refuse;
    var m := s.subs[i].m;
    match s.subs[i]
    case Locked(_) =>
      e := SRetrieve(i);
      if s.cfg.capacity == -1 || s.cfg.capacity > s.running {
        s' := MoveSub(s, i, Spawning(m), None, s.blocking);
        CloserByMove(s, i, Spawning(m), None, s.blocking);
      } else if s.cfg.nonblocking {
        s' := Refuse(s, i, None);
        CloserByRefusal(s, i, None);
      } else {
        s' := MoveSub(s, i, LoopTop(m), s.lock, s.blocking);
        CloserByMove(s, i, LoopTop(m), s.lock, s.blocking);
      }
    case LoopTop(_) =>
      e := SPark(i);
      if TooManyBlocked(s) {
        s' := Refuse(s, i, None);
        CloserByRefusal(s, i, None);
      } else {
        s' := MoveSub(s, i, Parked(m), None, s.blocking + 1);
        CloserByMove(s, i, Parked(m), None, s.blocking + 1);
      }
    case Awake(_) =>
      e := SRetry(i);
      if s.running == 0 {
        s' := MoveSub(s, i, ZeroSeen(m), None, s.blocking - 1);
        CloserByMove(s, i, ZeroSeen(m), None, s.blocking - 1);
      } else if s.running < s.cfg.capacity {
        s' := MoveSub(s, i, Spawning(m), None, s.blocking - 1);
        CloserByMove(s, i, Spawning(m), None, s.blocking - 1);
      } else {
        s' := MoveSub(s, i, LoopTop(m), s.lock, s.blocking - 1);
        CloserByMove(s, i, LoopTop(m), s.lock, s.blocking - 1);
      }
  }

  lemma WorkerHolderCanGoOn(s: State, v: WorkerId) returns (e: Step, s': State)
    requires s.closed && v in s.workers && s.workers[v].pc == HoldsLock && s.lock == Some(Wrk(v))
    ensures Closer(s, s', e)
  {
    hide Sum, Rank;
    e := WRevert(v);
    s' := MoveWorker(s, v, s.workers[v].(pc := Exiting), None, s.running);
    assert WorkerNext(s, s', e);
    CloserByWorker(s, s', e);
  }

  lemma ScavHolderCanGoOn(s: State) returns (e: Step, s': State)
    requires s.scav == Scavenging && s.lock == Some(Scav)
    ensures Closer(s, s', e)
  {
    hide Sum;
    e := CExpire(0);
    s' := s.(scav := Stopping(s.idle[..0]), idle := s.idle[0..], workers := Claim(s.workers, s.idle[..0]), lock := None);
    assert OtherNext(s, s', e);
    SumSame(s'.workers, s.workers, Rank);
  }

  lemma RelHolderCanGoOn(s: State, r: RelId) returns (e: Step, s': State)
    requires r in s.rels && s.rels[r] == Resetting && s.idle == [] && s.lock == Some(Rel(r))
    ensures Closer(s, s', e)
  {
    hide Sum;
    e := RDone(r);
    s' := s.(rels := s.rels - {r}, lock := None, released := true);
    assert OtherNext(s, s', e);
  }

  /** Whoever holds the lock of a released pool can go on. */
  lemma HolderCanGoOn(s: State) returns (e: Step, s': State)
    requires Inv(s) && s.released && s.lock.Some?
    ensures Closer(s, s', e)
  {
    hide OwnerInv, TaskInv, Measure, SubNext, WorkerNext, OtherNext;
    match s.lock.value
    case Sub(i) => e, s' := SubHolderCanGoOn(s, i);
    case Wrk(v) => e, s' := WorkerHolderCanGoOn(s, v);
    case Scav => e, s' := ScavHolderCanGoOn(s);
    case Rel(r) => e, s' := RelHolderCanGoOn(s, r);
  }

  /** Up to the end of its task a worker goes on by itself. */
  lemma TaskCanGoOn(s: State, w: WorkerId) returns (e: Step, s': State)
    requires w in s.workers && (s.workers[w].pc.Ready() || s.workers[w].pc.Executing?)
    requires s.workers[w].pc == Receiving ==> s.workers[w].chan != []
    ensures WorkerNext(s, s', e) && s'.lock == s.lock && s'.scav == s.scav
  {
    var x := s.workers[w];
    match x.pc
    case Arriving =>
      e := WArrive(w);
      s' := MoveWorker(s, w, x.(pc := Receiving), s.lock, s.running);
    case Receiving =>
      e := WReceive(w);
      var m := x.chan[0];
      s' := s.(workers := s.workers[w := Begun(m)], place := Moved(s.place, m, OnWorker(w)),
               started := if m.Task? then s.started + multiset{m.id} else s.started);
    case Executing(t) =>
      e := WTaskEnds(w, false);
      s' := s.(workers := s.workers[w := x.(pc := Returned)], place := s.place[t := Done]);
  }

  /** From there to the lock, when the pool is closed. */
  lemma ReturnCanGoOn(s: State, w: WorkerId) returns (e: Step, s': State)
    requires s.closed && w in s.workers
    requires var pc := s.workers[w].pc; pc == Returned || pc == Rechecking || pc == Stamping
    ensures WorkerNext(s, s', e) && s'.lock == s.lock && s'.scav == s.scav
  {
    hide Moved, Begun;
    var x := s.workers[w];
    match x.pc
    case Returned =>
      e := WTestCapacity(w);
      var pc := if s.cfg.capacity > 0 && s.running > s.cfg.capacity then Exiting else Rechecking;
      s' := MoveWorker(s, w, x.(pc := pc), s.lock, s.running);
    case Rechecking =>
      e := WTestClosed(w);
      s' := MoveWorker(s, w, x.(pc := Exiting), s.lock, s.running);
    case Stamping =>
      e := WStamp(w);
      s' := MoveWorker(s, w, x.(pc := WantLock), s.lock, s.running).(recycled := s.recycled[w := s.clock]);
  }

  /** And through the lock, when it is free, to the exit. */
  lemma ExitCanGoOn(s: State, w: WorkerId) returns (e: Step, s': State)
    requires s.closed && w in s.workers && s.lock.None?
    requires var pc := s.workers[w].pc; pc == WantLock || pc == HoldsLock || pc == Exiting
    ensures WorkerNext(s, s', e) && (s'.lock == None || s'.lock == Some(Wrk(w))) && s'.scav == s.scav
  {
    hide Moved, Begun;
    var x := s.workers[w];
    match x.pc
    case WantLock =>
      e := WRevertLock(w);
      s' := MoveWorker(s, w, x.(pc := HoldsLock), Some(Wrk(w)), s.running);
    case HoldsLock =>
      e := WRevert(w);
      s' := MoveWorker(s, w, x.(pc := Exiting), None, s.running);
    case Exiting =>
      e := WDecRunning(w);
      s' := MoveWorker(s, w, x.(pc := Exited), s.lock, s.running - 1);
  }

  /** A worker that owns itself goes on when the lock is free. */
  lemma WorkerCanGoOn(s: State, w: WorkerId) returns (e: Step, s': State)
    requires s.closed && w in s.workers && s.workers[w].pc.Live() && s.lock.None?
    requires s.workers[w].pc == Receiving ==> s.workers[w].chan != []
    ensures Closer(s, s', e)
  {
    hide WorkerNext, Closer;
    if s.workers[w].pc.Ready() || s.workers[w].pc.Executing? {
      e, s' := TaskCanGoOn(s, w);
    } else if s.workers[w].pc == Returned || s.workers[w].pc == Rechecking || s.workers[w].pc == Stamping {
      e, s' := ReturnCanGoOn(s, w);
    } else {
      e, s' := ExitCanGoOn(s, w);
    }
    CloserByWorker(s, s', e);
  }

  /** A worker that someone else is about to tell gets to its receive, or is told. */
  lemma SenderCanGoOn(s: State, w: WorkerId) returns (e: Step, s': State)
    requires Inv(s) && s.released && w in s.workers && s.workers[w].pc.Live() && s.workers[w].owner != Self && s.lock.None?
    ensures Closer(s, s', e)
  {
    var owner := s.workers[w].owner;
    if owner == ByScav {
      assert w in s.Expired();
      var v := s.scav.ws[0];
      assert v in s.Expired();
      IdleFacts(s, v);
      hide LockInv, OwnerInv, TaskInv;
      if CanSend(s.cfg.chanCap, s.workers[v]) {
        e, s' := StopCloser(s, v);
      } else {
        e, s' := WorkerCanGoOn(s, v);
      }
    } else {
      assert owner != Idle;
      var i := owner.i;
      assert i in s.subs && s.subs[i].Has(w);
      SubFacts(s, i);
      hide LockInv, OwnerInv, TaskInv;
      if CanSend(s.cfg.chanCap, s.workers[w]) {
        e, s' := SendCloser(s, i);
      } else {
        e, s' := WorkerCanGoOn(s, w);
      }
    }
  }

  lemma StopCloser(s: State, v: WorkerId) returns (e: Step, s': State)
    requires s.scav.Stopping? && s.scav.ws != [] && s.scav.ws[0] == v && v in s.workers
    requires CanSend(s.cfg.chanCap, s.workers[v]) && s.workers[v].pc.Ready()
    ensures Closer(s, s', e)
  {
    e := CStop;
    s' := s.(workers := s.workers[v := Sent(s.cfg.chanCap, s.workers[v], Stop)], scav := Stopping(s.scav.ws[1..]));
    assert OtherNext(s, s', e);
    SumUpdate(s.workers, Rank, v, s'.workers[v]);
    hide Sum;
  }

  lemma SendCloser(s: State, i: SubId) returns (e: Step, s': State)
    requires i in s.subs && s.subs[i].Sending? && s.subs[i].w in s.workers
    requires CanSend(s.cfg.chanCap, s.workers[s.subs[i].w]) && s.workers[s.subs[i].w].pc.Ready()
    ensures Closer(s, s', e)
  {
    var w, m := s.subs[i].w, s.subs[i].m;
    e := SSend(i);
    s' := s.(subs := s.subs - {i},
             workers := s.workers[w := Sent(s.cfg.chanCap, s.workers[w], m)],
             place := Moved(s.place, m, if s.cfg.chanCap == 0 then OnWorker(w) else InChan(w)),
             started := if m.Task? && s.cfg.chanCap == 0 then s.started + multiset{m.id} else s.started);
    assert SubNext(s, s', e);
    SumUpdate(s.workers, Rank, w, s'.workers[w]);
    SumAt(s.subs, SubRank, i);
    hide Sum;
  }

  /** While a worker of a released pool is live, some step brings the pool closer to its end. */
  lemma SomeoneCanGoOn(s: State, w: WorkerId) returns (e: Step, s': State)
    requires Inv(s) && s.released && w in s.workers && s.workers[w].pc.Live()
    ensures Closer(s, s', e)
  {
    if s.lock.Some? {
      e, s' := HolderCanGoOn(s);
    } else if s.workers[w].owner == Self {
      e, s' := WorkerCanGoOn(s, w);
    } else {
      e, s' := SenderCanGoOn(s, w);
    }
  }

  // ------------------------------------------------- the last submitters leave

  /** Steps lead from s to t. */
  ghost predicate LeadsTo(s: State, t: State, steps: seq<Step>)
    decreases |steps|
  {
    if steps == [] then s == t
    else exists s1 :: Next(s, s1, steps[0]) && LeadsTo(s1, t, steps[1..])
  }

  lemma LeadsOn(s: State, e: Step, s1: State, t: State, steps: seq<Step>)
    requires Next(s, s1, e) && LeadsTo(s1, t, steps)
    ensures LeadsTo(s, t, [e] + steps)
  {
    hide Next;
    assert ([e] + steps)[1..] == steps;
  }

  lemma LeadsNowhere(s: State)
    ensures LeadsTo(s, s, [])
  {
  }

  lemma {:induction false} FreshId(ws: Workers) returns (w: WorkerId)
    ensures forall v | v in ws :: v < w
    decreases |ws|
  {
    w := 0;
    if ws != map[] {
      var v :| v in ws;
      w := FreshId(ws - {v});
      assert forall u | u in ws && u != v :: u in ws - {v};
      if v >= w {
        w := v + 1;
      }
    }
  }

  /** A parked submitter of a released pool without running workers wakes, sees that, and leaves. */
  lemma WakesAndLeaves(s: State, i: SubId) returns (steps: seq<Step>, t: State)
    requires s.closed && s.running == 0 && s.lock.None? && i in s.subs && s.subs[i].Parked?
    ensures LeadsTo(s, t, steps) && Measure(t) < Measure(s)
  {
    var m := s.subs[i].m;
    var s1 := MoveSub(s, i, Awake(m), Some(Sub(i)), s.blocking);
    var s2 := MoveSub(s1, i, ZeroSeen(m), None, s.blocking - 1);
    t := Refuse(s2, i, None);
    assert SubNext(s, s1, SWake(i));
    assert SubNext(s1, s2, SRetry(i));
    assert SubNext(s2, t, SRetest(i));
    assert t.subs == s.subs - {i};
    SumAt(s.subs, SubRank, i);
    hide Sum, Next, SubNext;
    NextBySub(s, s1, SWake(i));
    NextBySub(s1, s2, SRetry(i));
    NextBySub(s2, t, SRetest(i));
    LeadsNowhere(t);
    LeadsOn(s2, SRetest(i), t, t, []);
    LeadsOn(s1, SRetry(i), s2, t, [SRetest(i)] + []);
    LeadsOn(s, SWake(i), s1, t, [SRetry(i)] + ([SRetest(i)] + []));
    steps := [SWake(i)] + ([SRetry(i)] + ([SRetest(i)] + []));
  }

  lemma NextBySub(s: State, s': State, e: Step)
    requires SubNext(s, s', e)
    ensures Next(s, s', e)
  {
    hide SubNext, WorkerNext, OtherNext;
  }

  /** The step of any other submitter of a released pool without running workers and with the lock free. */
  lemma SubCanGoOn(s: State, i: SubId) returns (e: Step, s': State)
    requires Inv(s) && s.released && s.running == 0 && s.lock.None? && i in s.subs && !s.subs[i].Parked?
    ensures Closer(s, s', e)
  {
    SubFacts(s, i);
    assert !s.subs[i].Sending? by {
      if s.subs[i].Sending? {
        SendingIsLive(s, i);
      }
    }
    var m := s.subs[i].m;
    hide LockInv, OwnerInv, TaskInv;
    match s.subs[i]
    case Entered(_) =>
      e, s' := SLock(i), MoveSub(s, i, Locked(m), Some(Sub(i)), s.blocking);
      assert SubNext(s, s', e);
      CloserByMove(s, i, Locked(m), Some(Sub(i)), s.blocking);
    case ZeroSeen(_) =>
      e, s' := SRetest(i), Refuse(s, i, s.lock);
      assert SubNext(s, s', e);
      CloserByRefusal(s, i, s.lock);
    case Spawning(_) =>
      e, s' := GetCloser(s, i);
    case Launching(_, w) =>
      e, s' := LaunchCloser(s, i);
  }

  lemma SendingIsLive(s: State, i: SubId)
    requires Inv(s) && i in s.subs && s.subs[i].Sending?
    ensures s.running > 0
  {
    SubFacts(s, i);
    assert s.subs[i].w in LiveWorkers(s.workers);
  }

  lemma GetCloser(s: State, i: SubId) returns (e: Step, s': State)
    requires i in s.subs && s.subs[i].Spawning?
    ensures Closer(s, s', e)
  {
    var w := FreshId(s.workers);
    var m := s.subs[i].m;
    e := SGet(i, w);
    s' := s.(subs := s.subs[i := Launching(m, w)], workers := s.workers[w := Worker(Taken, [], BySub(i))]);
    assert SubNext(s, s', e);
    SumUpdate(s.workers, Rank, w, s'.workers[w]);
    SumUpdate(s.subs, SubRank, i, s'.subs[i]);
    hide Sum;
  }

  lemma LaunchCloser(s: State, i: SubId) returns (e: Step, s': State)
    requires i in s.subs && s.subs[i].Launching? && s.subs[i].w in s.workers
    ensures Closer(s, s', e)
  {
    var w, m := s.subs[i].w, s.subs[i].m;
    e := SLaunch(i);
    s' := s.(subs := s.subs[i := Sending(m, w)], workers := s.workers[w := s.workers[w].(pc := Arriving)],
             running := s.running + 1);
    assert SubNext(s, s', e);
    SumUpdate(s.workers, Rank, w, s'.workers[w]);
    SumUpdate(s.subs, SubRank, i, s'.subs[i]);
    hide Sum;
  }

  lemma OneLeads(s: State, s': State, e: Step)
    requires Next(s, s', e)
    ensures LeadsTo(s, s', [e])
  {
    hide Next;
    LeadsNowhere(s');
    LeadsOn(s, e, s', s', []);
    assert [e] + [] == [e];
  }

  /** As long as a worker is running or a submitter is inside, a released pool can come closer to its end. */
  lemma PoolCanGoOn(s: State) returns (steps: seq<Step>, t: State)
    requires Inv(s) && s.released && (s.running != 0 || s.subs != map[])
    ensures LeadsTo(s, t, steps) && Measure(t) < Measure(s)
  {
    hide LockInv, OwnerInv, TaskInv, Measure, Next, LeadsTo;
    var e;
    if s.running != 0 {
      assert LiveWorkers(s.workers) != {};
      var w :| w in LiveWorkers(s.workers);
      e, t := SomeoneCanGoOn(s, w);
    } else if s.lock.Some? {
      e, t := HolderCanGoOn(s);
    } else {
      var i :| i in s.subs;
      if s.subs[i].Parked? {
        steps, t := WakesAndLeaves(s, i);
        return;
      }
      e, t := SubCanGoOn(s, i);
    }
    steps := [e];
    OneLeads(s, t, e);
  }

  /** And then it is over: in every run from there on nothing runs and nobody is inside. */
  lemma {:induction false} StaysDrained(cfg: Config, states: seq<State>, steps: seq<Step>, j: nat, k: nat)
    requires IsRun(cfg, states, steps) && j <= k < |states|
    requires states[j].closed && states[j].running == 0 && states[j].subs == map[]
    ensures states[k].closed && states[k].running == 0 && states[k].subs == map[]
    decreases k - j
  {
    hide Next, Inv;
    if j < k {
      StaysDrained(cfg, states, steps, j, k - 1);
      RunKeepsInv(cfg, states, steps, k - 1);
      DrainedStep(states[k - 1], states[k], steps[k - 1]);
    }
  }

  lemma NobodyEnters(s: State, s': State, e: Step)
    requires s.closed && s.subs == map[]
    ensures !SubNext(s, s', e)
  {
  }

  lemma OtherIdles(s: State, s': State, e: Step)
    requires s.closed && OtherNext(s, s', e)
    ensures s'.closed && s'.subs == s.subs && s'.running == s.running
  {
    hide Sent, Claim, CanSend;
  }

  lemma DrainedStep(s: State, s': State, e: Step)
    requires Inv(s) && s.closed && s.running == 0 && s.subs == map[] && Next(s, s', e)
    ensures s'.closed && s'.running == 0 && s'.subs == map[]
  {
    hide LockInv, OwnerInv, TaskInv, SubNext, WorkerNext, OtherNext;
    NobodyEnters(s, s', e);
    if WorkerNext(s, s', e) {
      WorkerMovesAlone(s, s', e);
      assert forall w | w in s.workers :: w !in LiveWorkers(s.workers);
    } else {
      OtherIdles(s, s', e);
    }
  }

  lemma {:induction false} LeadsToReleased(s: State, t: State, steps: seq<Step>)
    requires Inv(s) && s.released && LeadsTo(s, t, steps)
    ensures Inv(t) && t.released
    decreases |steps|
  {
    hide Inv, Next;
    if steps != [] {
      var s1 :| Next(s, s1, steps[0]) && LeadsTo(s1, t, steps[1..]);
      StepKeepsInv(s, s1, steps[0]);
      StepProgress(s, s1, steps[0]);
      LeadsToReleased(s1, t, steps[1..]);
    }
  }

  lemma {:induction false} LeadsToTogether(s: State, t: State, u: State, xs: seq<Step>, ys: seq<Step>)
    requires LeadsTo(s, t, xs) && LeadsTo(t, u, ys)
    ensures LeadsTo(s, u, xs + ys)
    decreases |xs|
  {
    hide Next;
    if xs == [] {
      assert xs + ys == ys;
    } else {
      var s1 :| Next(s, s1, xs[0]) && LeadsTo(s1, t, xs[1..]);
      LeadsToTogether(s1, t, u, xs[1..], ys);
      LeadsOn(s, xs[0], s1, u, xs[1..] + ys);
      assert [xs[0]] + (xs[1..] + ys) == xs + ys;
    }
  }

  /**
   From every state after a Release has finished the pool can go on to a state
   without running workers and without anyone inside Submit or Invoke.
   */
  lemma {:induction false} DrainsToZero(s: State) returns (steps: seq<Step>, t: State)
    requires Inv(s) && s.released
    ensures LeadsTo(s, t, steps) && t.running == 0 && t.subs == map[]
    decreases Measure(s)
  {
    hide Inv, LeadsTo, Measure;
    if s.running == 0 && s.subs == map[] {
      steps, t := [], s;
      LeadsNowhere(s);
    } else {
      var xs, s1 := PoolCanGoOn(s);
      LeadsToReleased(s, s1, xs);
      var ys;
      ys, t := DrainsToZero(s1);
      LeadsToTogether(s, s1, t, xs, ys);
      steps := xs + ys;
    }
  }
}
