/**
 How far the number of running workers can exceed the pool's capacity.
 retrieveWorker unlocks between the capacity test and incRunning, so the bound
 depends on how many goroutines are inside Submit or Invoke at once.
 */
module PoolCapacity {
  import opened PoolModel
  import opened PoolInvariant
  import opened Sets

  ghost function Load(s: State): int { s.running + |Spawners(s.subs)| }

  /** At most k goroutines are inside Submit or Invoke in any state of the run. */
  ghost predicate AtMostInside(states: seq<State>, k: nat) {
    forall n | 0 <= n < |states| :: |states[n].subs| <= k
  }

  lemma SpawnersUpdate(subs: Subs, i: SubId, pc: SubPc)
    ensures var was, will := i in subs && subs[i].Authorised(), pc.Authorised();
            |Spawners(subs[i := pc])| == |Spawners(subs)| + (if will then 1 else 0) - (if was then 1 else 0)
  {
    if pc.Authorised() {
      assert Spawners(subs[i := pc]) == Spawners(subs) + {i};
    } else {
      assert Spawners(subs[i := pc]) == Spawners(subs) - {i};
    }
  }

  lemma SpawnersLeave(subs: Subs, i: SubId)
    ensures |Spawners(subs - {i})| == |Spawners(subs)| - (if i in subs && subs[i].Authorised() then 1 else 0)
  {
    assert Spawners(subs - {i}) == Spawners(subs) - {i};
  }

  /** Submitter i alone moves, and becomes authorised only when it sees running below the capacity. */
  ghost predicate SubShape(s: State, s': State, i: SubId) {
    var was, will := i in s.subs && s.subs[i].Authorised(), i in s'.subs && s'.subs[i].Authorised();
    && s'.subs == (if i in s'.subs then s.subs[i := s'.subs[i]] else s.subs - {i})
    && (s'.running == s.running || (s'.running == s.running + 1 && was && !will))
    && (will && !was ==> s'.running == s.running && (s.cfg.capacity == -1 || s.running < s.cfg.capacity || s.running == 0))
  }

  lemma EffectsOnSubs(s: State, i: SubId)
    ensures forall pc, lock, b ::
              MoveSub(s, i, pc, lock, b).subs == s.subs[i := pc] && MoveSub(s, i, pc, lock, b).running == s.running
    ensures forall lock | i in s.subs ::
              Refuse(s, i, lock).subs == s.subs - {i} && Refuse(s, i, lock).running == s.running
    ensures forall k, b | i in s.subs && 0 <= k < |s.idle| && s.idle[k] in s.workers ::
              && TakeIdle(s, i, k, b).subs == s.subs[i := Sending(s.subs[i].m, s.idle[k])]
              && TakeIdle(s, i, k, b).running == s.running
  {
  }

  lemma RetrieveShape(s: State, s': State, i: SubId)
    requires Retrieve(s, s', i) || Retry(s, s', i)
    ensures SubShape(s, s', i)
  {
    hide MoveSub, Refuse, TakeIdle;
    EffectsOnSubs(s, i);
  }

  lemma WaitShape(s: State, s': State, i: SubId)
    requires LockSub(s, s', i) || Park(s, s', i) || Wake(s, s', i) || RetestClosed(s, s', i)
    ensures SubShape(s, s', i)
  {
    hide MoveSub, Refuse;
    EffectsOnSubs(s, i);
  }

  lemma SubStepShape(s: State, s': State, e: Step)
    requires SubNext(s, s', e)
    ensures SubShape(s, s', e.i)
  {
    hide Retrieve, Retry, LockSub, Park, Wake, RetestClosed, Moved, Sent, CanSend;
    if e.SRetrieve? || e.SRetry? {
      RetrieveShape(s, s', e.i);
    } else if e.SLock? || e.SPark? || e.SWake? || e.SRetest? {
      WaitShape(s, s', e.i);
    }
  }

  /** A step raises the load only when it saw running below the capacity. */
  lemma LoadBySub(s: State, s': State, e: Step)
    requires SubNext(s, s', e) && s.cfg.capacity > 0
    ensures Load(s') <= Load(s) || s'.running < s.cfg.capacity
  {
    SubStepShape(s, s', e);
    LoadByShape(s, s', e.i);
    hide SubNext, SubShape, Load;
  }

  lemma LoadByShape(s: State, s': State, i: SubId)
    requires SubShape(s, s', i) && s.cfg.capacity > 0
    ensures Load(s') <= Load(s) || s'.running < s.cfg.capacity
  {
    SpawnersLeave(s.subs, i);
    if i in s'.subs {
      SpawnersUpdate(s.subs, i, s'.subs[i]);
    }
  }

  lemma LoadByWorker(s: State, s': State, e: Step)
    requires WorkerNext(s, s', e)
    ensures Load(s') <= Load(s)
  {
    hide WorkerNext, GoesOn, Spawners;
    WorkerMovesAlone(s, s', e);
  }

  lemma LoadByOther(s: State, s': State, e: Step)
    requires OtherNext(s, s', e)
    ensures Load(s') <= Load(s)
  {
  }

  lemma LoadStep(s: State, s': State, e: Step)
    requires Next(s, s', e) && s.cfg.capacity > 0
    ensures Load(s') <= Load(s) || s'.running < s.cfg.capacity
  {
    hide SubNext, WorkerNext, OtherNext, Load;
    if SubNext(s, s', e) {
      LoadBySub(s, s', e);
    } else if WorkerNext(s, s', e) {
      LoadByWorker(s, s', e);
    } else {
      LoadByOther(s, s', e);
    }
  }

  lemma SpawnersAreInside(s: State)
    ensures |Spawners(s.subs)| <= |s.subs|
  {
    SubsetSize(Spawners(s.subs), s.subs.Keys);
  }

  /**
   With a fixed capacity c > 0 and at most k >= 1 goroutines inside Submit or
   Invoke at once, running is the number of live workers, and together with the
   spawns already authorised it never exceeds c + k - 1.
   */
  lemma {:induction false} CapacityBound(cfg: Config, states: seq<State>, steps: seq<Step>, k: nat, n: nat)
    requires IsRun(cfg, states, steps) && cfg.capacity > 0 && AtMostInside(states, k) && k >= 1 && n < |states|
    ensures states[n].running == |LiveWorkers(states[n].workers)|
    ensures states[n].running + |Spawners(states[n].subs)| <= cfg.capacity + k - 1
  {
    hide Next, LockInv, OwnerInv, TaskInv, CloseInv, LiveWorkers;
    RunKeepsInv(cfg, states, steps, n);
    if n > 0 {
      CapacityBound(cfg, states, steps, k, n - 1);
      LoadStep(states[n - 1], states[n], steps[n - 1]);
      SpawnersAreInside(states[n]);
    }
  }

  /** One submitter at a time never exceeds the capacity. */
  lemma OneSubmitterKeepsCapacity(cfg: Config, states: seq<State>, steps: seq<Step>, n: nat)
    requires IsRun(cfg, states, steps) && cfg.capacity > 0 && AtMostInside(states, 1) && n < |states|
    ensures states[n].running <= cfg.capacity
  {
    CapacityBound(cfg, states, steps, 1, n);
  }

  ghost function Elems(ws: seq<WorkerId>): set<WorkerId> { set w | w in ws }

  lemma {:induction false} NoDupCard(ws: seq<WorkerId>)
    requires NoDup(ws)
    ensures |Elems(ws)| == |ws|
  {
    if ws == [] {
      assert Elems(ws) == {};
    } else {
      NoDupCard(ws[1..]);
      assert Elems(ws) == {ws[0]} + Elems(ws[1..]);
      assert ws[0] !in Elems(ws[1..]);
    }
  }

  // ------------------------------------------- workers past the capacity test

  /** Past revertWorker's capacity test, or back in the container. */
  ghost predicate Passed(x: Worker) {
    x.pc == Rechecking || x.pc == Stamping || x.pc == WantLock || x.pc == HoldsLock || x.owner == Owner.Idle
  }

  ghost function PassedSet(ws: Workers): set<WorkerId> { set w | w in ws && Passed(ws[w]) }

  /** Nobody has newly passed. */
  ghost predicate PassesNone(ws: Workers, ws': Workers) {
    forall w | w in ws' && Passed(ws'[w]) :: w in ws && Passed(ws[w])
  }

  lemma RetrievePassesNone(s: State, s': State, i: SubId)
    requires Retrieve(s, s', i) || Retry(s, s', i)
    ensures PassesNone(s.workers, s'.workers)
  {
    hide Retrieve, Retry, Moved, DetachIndex;
    var pc, lock, blocking := EitherSettles(s, s', i);
  }

  lemma SubPassesNone(s: State, s': State, e: Step)
    requires SubNext(s, s', e)
    ensures PassesNone(s.workers, s'.workers)
  {
    hide Enter, LockSub, Retrieve, Park, Wake, Retry, RetestClosed, Moved, Sent, CanSend;
    if e.SRetrieve? || e.SRetry? {
      RetrievePassesNone(s, s', e.i);
    } else if Stays(e) {
      WaitKeepsWorkers(s, s', e);
    } else {
      SendPassesNone(s, s', e);
    }
  }

  lemma SendPassesNone(s: State, s': State, e: Step)
    requires SubNext(s, s', e) && (e.SGet? || e.SLaunch? || e.SSend?)
    ensures PassesNone(s.workers, s'.workers)
  {
    hide Enter, LockSub, Retrieve, Park, Wake, Retry, RetestClosed, Moved;
  }

  lemma WorkerPassesNone(s: State, s': State, e: Step)
    requires WorkerNext(s, s', e) && !e.WTestCapacity?
    ensures PassesNone(s.workers, s'.workers)
  {
    hide WorkerNext, Passed;
    WorkerMovesAlone(s, s', e);
    NotReturned(s, s', e);
    PassedBefore(s.workers[e.w], s'.workers[e.w], s.closed);
  }

  lemma NotReturned(s: State, s': State, e: Step)
    requires WorkerNext(s, s', e) && !e.WTestCapacity?
    ensures ByWorker(e) && e.w in s.workers && s.workers[e.w].pc != Returned
  {
    hide MoveWorker, Moved, Begun;
  }

  lemma PassedBefore(x: Worker, x': Worker, closed: bool)
    requires GoesOn(x, x', closed) && x.pc != Returned
    ensures Passed(x') ==> Passed(x)
  {
  }

  lemma StopPassesNone(s: State, s': State, r: RelId)
    requires StopExpired(s, s') || ResetOne(s, s', r)
    ensures PassesNone(s.workers, s'.workers)
  {
  }

  lemma ExpirePassesNone(s: State, s': State, n: nat)
    requires Expire(s, s', n)
    ensures PassesNone(s.workers, s'.workers)
  {
  }

  lemma OtherPassesNone(s: State, s': State, e: Step)
    requires OtherNext(s, s', e)
    ensures PassesNone(s.workers, s'.workers)
  {
    hide Expire, StopExpired, ResetOne;
    if e.CExpire? {
      ExpirePassesNone(s, s', e.n);
    } else if e.CStop? || e.RReset? {
      StopPassesNone(s, s', if e.RReset? then e.r else 0);
    }
  }

  /** Whoever has passed is live. */
  lemma PassedAreLive(s: State)
    requires Inv(s)
    ensures |PassedSet(s.workers)| <= s.running
  {
    hide LockInv, TaskInv;
    forall w | w in PassedSet(s.workers) ensures w in LiveWorkers(s.workers) {
      assert WorkerOk(s.workers[w]);
    }
    hide OwnerInv;
    SubsetSize(PassedSet(s.workers), LiveWorkers(s.workers));
  }

  /** A worker that passes saw no more than the capacity running, itself among them. */
  lemma TestPassesFew(s: State, s': State, w: WorkerId)
    requires Inv(s) && Inv(s') && s.cfg.capacity > 0 && TestCapacity(s, s', w)
    ensures |PassedSet(s'.workers)| <= s.cfg.capacity || PassesNone(s.workers, s'.workers)
  {
    hide Inv;
    PassedAreLive(s');
  }

  lemma PassedStep(s: State, s': State, e: Step)
    requires Inv(s) && Inv(s') && s.cfg.capacity > 0 && |PassedSet(s.workers)| <= s.cfg.capacity && Next(s, s', e)
    ensures |PassedSet(s'.workers)| <= s.cfg.capacity
  {
    hide Inv, SubNext, OtherNext, Passed, Arrive, Receive, TaskEnds, TestCapacity, TestClosed, Stamp,
         RevertLock, Revert, DecRunning, PutCache;
    if SubNext(s, s', e) {
      SubPassesNone(s, s', e);
    } else if OtherNext(s, s', e) {
      OtherPassesNone(s, s', e);
    } else if e.WTestCapacity? {
      TestPassesFew(s, s', e.w);
    } else {
      WorkerPassesNone(s, s', e);
    }
    if PassesNone(s.workers, s'.workers) {
      SubsetSize(PassedSet(s'.workers), PassedSet(s.workers));
    }
  }

  /**
   In every run, however many goroutines are inside and however far running
   exceeds the capacity, no more workers than the capacity are past
   revertWorker's test or back in the container.
   */
  lemma {:induction false} PassedBound(cfg: Config, states: seq<State>, steps: seq<Step>, n: nat)
    requires IsRun(cfg, states, steps) && cfg.capacity > 0 && n < |states|
    ensures |PassedSet(states[n].workers)| <= cfg.capacity
  {
    hide Next, Inv;
    if n == 0 {
      assert PassedSet(states[0].workers) == {};
    } else {
      hide PassedSet;
      PassedBound(cfg, states, steps, n - 1);
      RunKeepsInv(cfg, states, steps, n - 1);
      RunKeepsInv(cfg, states, steps, n);
      PassedStep(states[n - 1], states[n], steps[n - 1]);
    }
  }

  /** The idle workers, and one that holds the lock to join them, have all passed. */
  lemma IdleHavePassed(s: State)
    requires Inv(s)
    ensures |s.idle| <= |PassedSet(s.workers)|
    ensures forall w | w in s.workers && s.workers[w].pc == HoldsLock :: |s.idle| < |PassedSet(s.workers)|
  {
    hide LockInv, TaskInv;
    NoDupCard(s.idle);
    SubsetSize(Elems(s.idle), PassedSet(s.workers));
    forall w | w in s.workers && s.workers[w].pc == HoldsLock ensures |s.idle| < |PassedSet(s.workers)| {
      assert WorkerOk(s.workers[w]);
      SubsetSize(Elems(s.idle) + {w}, PassedSet(s.workers));
    }
  }

  lemma IdleWithinCapacity(cfg: Config, states: seq<State>, steps: seq<Step>, n: nat)
    requires IsRun(cfg, states, steps) && cfg.capacity > 0 && n < |states|
    ensures |states[n].idle| <= cfg.capacity
  {
    hide Next, Inv, PassedSet;
    PassedBound(cfg, states, steps, n);
    RunKeepsInv(cfg, states, steps, n);
    IdleHavePassed(states[n]);
  }

  /** So the pre-allocated ring never reports full to a worker that puts itself back, in any run. */
  lemma RingNeverFull(cfg: Config, states: seq<State>, steps: seq<Step>, n: nat, w: WorkerId)
    requires IsRun(cfg, states, steps) && n < |states|
    requires w in states[n].workers && states[n].workers[w].pc == HoldsLock
    ensures !InsertFails(states[n])
  {
    hide Next, Inv, PassedSet;
    RunKeepsInv(cfg, states, steps, n);
    IdleHavePassed(states[n]);
    if cfg.capacity > 0 {
      PassedBound(cfg, states, steps, n);
    }
  }

  /** blockingNum counts the goroutines in Wait and respects a non-zero MaxBlockingTasks. */
  lemma BlockingBound(cfg: Config, states: seq<State>, steps: seq<Step>, n: nat)
    requires IsRun(cfg, states, steps) && n < |states|
    ensures states[n].blocking == |Waiters(states[n].subs)|
    ensures cfg.maxBlocking > 0 ==> states[n].blocking <= cfg.maxBlocking
    ensures cfg.maxBlocking < 0 ==> states[n].blocking == 0
  {
    RunKeepsInv(cfg, states, steps, n);
    hide LockInv, OwnerInv, TaskInv, Next;
  }
}
