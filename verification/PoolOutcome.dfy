/**
 What Submit and Invoke answer: who gets a worker, who waits and who is refused
 with ErrPoolOverload, in every run of the pool.
 */
module PoolOutcome {
  import opened PoolModel
  import opened PoolInvariant
  import opened PoolCapacity
  import opened PoolSafety

  /** In the waiting loop of retrieveWorker, or just out of it. */
  predicate InLoop(pc: SubPc) { pc.LoopTop? || pc.Parked? || pc.Awake? || pc.ZeroSeen? }

  /** No worker is idle, and there may not be more of them. */
  predicate Exhausted(s: State) { s.idle == [] && s.cfg.capacity != -1 && s.running >= s.cfg.capacity }

  /** The stack gives the worker at its end, the ring the one at its head. */
  function Offered(s: State): WorkerId
    requires s.idle != []
  {
    if s.cfg.backing == Stack then s.idle[|s.idle| - 1] else s.idle[0]
  }

  /** Submitter i goes from its program point to the next one: what it finds decides which. */
  predicate Turn(s: State, s': State, i: SubId) {
    if i !in s.subs then i in s'.subs && s'.subs[i].Entered? && !s.closed
    else if i !in s'.subs then
      match s.subs[i]
      case Locked(_) => Exhausted(s) && s.cfg.nonblocking
      case LoopTop(_) => s.cfg.maxBlocking != 0 && s.blocking >= s.cfg.maxBlocking
      case ZeroSeen(_) => s.closed
      case Sending(_, _) => true
      case _ => false
    else
      var pc := s'.subs[i];
      match s.subs[i]
      case Entered(_) => pc.Locked?
      case Locked(_) =>
        || (pc.Sending? && s.idle != [] && pc.w == Offered(s))
        || (pc.Spawning? && s.idle == [] && !Exhausted(s))
        || (pc.LoopTop? && Exhausted(s) && !s.cfg.nonblocking)
      case LoopTop(_) => pc.Parked? && (s.cfg.maxBlocking == 0 || s.blocking < s.cfg.maxBlocking)
      case Parked(_) => pc.Awake?
      case Awake(_) =>
        || (pc.ZeroSeen? && s.running == 0)
        || (pc.Sending? && s.running != 0 && s.idle != [] && pc.w == Offered(s))
        || (pc.Spawning? && s.running != 0 && s.idle == [] && s.running < s.cfg.capacity)
        || (pc.LoopTop? && s.running != 0 && s.idle == [] && s.running >= s.cfg.capacity)
      case ZeroSeen(_) => pc.Spawning? && !s.closed
      case Spawning(_) => pc.Launching?
      case Launching(_, _) => pc.Sending?
      case Sending(_, _) => false
  }

  lemma RetrieveTurns(s: State, s': State, i: SubId)
    requires Retrieve(s, s', i) || Retry(s, s', i)
    ensures Turn(s, s', i)
  {
    hide MoveSub, Refuse, TakeIdle;
    EffectsOnSubs(s, i);
  }

  lemma WaitTurns(s: State, s': State, i: SubId)
    requires LockSub(s, s', i) || Park(s, s', i) || Wake(s, s', i) || RetestClosed(s, s', i)
    ensures Turn(s, s', i)
  {
    hide MoveSub, Refuse;
    EffectsOnSubs(s, i);
  }

  lemma EasyTurns(s: State, s': State, e: Step)
    requires SubNext(s, s', e) && (e.SEnter? || e.SGet? || e.SLaunch? || e.SSend?)
    ensures Turn(s, s', e.i)
  {
    hide Moved, Sent, CanSend;
  }

  lemma SubTurns(s: State, s': State, e: Step)
    requires SubNext(s, s', e)
    ensures Turn(s, s', e.i)
  {
    hide Enter, Get, Launch, SendTask, Retrieve, Retry, LockSub, Park, Wake, RetestClosed, Turn;
    if e.SRetrieve? || e.SRetry? {
      RetrieveTurns(s, s', e.i);
    } else if e.SLock? || e.SPark? || e.SWake? || e.SRetest? {
      WaitTurns(s, s', e.i);
    } else {
      EasyTurns(s, s', e);
    }
  }

  /** Submitter j is where it was, or not inside as before. */
  predicate Keeps(s: State, s': State, j: SubId) {
    (j in s.subs <==> j in s'.subs) && (j in s.subs ==> s'.subs[j] == s.subs[j])
  }

  lemma OtherTurns(s: State, s': State, e: Step)
    requires OtherNext(s, s', e)
    ensures s'.subs == s.subs
  {
    hide Sent, CanSend, Claim;
  }

  /** In any step of the pool a submitter stays where it is or has its turn. */
  lemma StaysOrTurns(s: State, s': State, e: Step, i: SubId)
    requires Next(s, s', e)
    ensures Keeps(s, s', i) || (SubNext(s, s', e) && e.i == i && Turn(s, s', i))
  {
    hide SubNext, WorkerNext, OtherNext, Turn;
    if SubNext(s, s', e) {
      SubTurns(s, s', e);
      SubStepShape(s, s', e);
    } else if WorkerNext(s, s', e) {
      WorkerMovesAlone(s, s', e);
      hide GoesOn;
    } else {
      OtherTurns(s, s', e);
    }
  }

  // -------------------------------------------------- who never has to wait

  /** With Nonblocking, or without a limit, nobody is ever in the waiting loop. */
  lemma {:induction false} NeverWaits(cfg: Config, states: seq<State>, steps: seq<Step>, n: nat)
    requires IsRun(cfg, states, steps) && n < |states| && (cfg.nonblocking || cfg.capacity == -1)
    ensures forall i | i in states[n].subs :: !InLoop(states[n].subs[i])
    ensures states[n].blocking == 0
  {
    hide Next, Inv;
    if n > 0 {
      NeverWaits(cfg, states, steps, n - 1);
      var s, s' := states[n - 1], states[n];
      forall i | i in s'.subs ensures !InLoop(s'.subs[i]) {
        StaysOrTurns(s, s', steps[n - 1], i);
      }
    }
    BlockingBound(cfg, states, steps, n);
    assert Waiters(states[n].subs) == {};
  }

  // -------------------------------------------------------- who is refused

  lemma SendingSends(s: State, s': State, e: Step)
    requires SubNext(s, s', e) && e.i in s.subs && s.subs[e.i].Sending?
    ensures e.SSend?
  {
    hide MoveSub, Refuse, TakeIdle, Moved, Sent, CanSend;
  }

  /**
   Submit or Invoke returns without a worker only if no worker is idle, the
   capacity is used up and the pool is Nonblocking; or as many wait as
   MaxBlockingTasks allows; or the pool was closed while it waited.
   */
  lemma RefusedOnlyIf(cfg: Config, states: seq<State>, steps: seq<Step>, n: nat, i: SubId)
    requires IsRun(cfg, states, steps) && n < |steps| && steps[n] != SSend(i)
    requires i in states[n].subs && i !in states[n + 1].subs
    ensures var s := states[n];
            if cfg.nonblocking then s.idle == [] && cfg.capacity != -1 && s.running >= cfg.capacity
            else s.closed || (cfg.maxBlocking != 0 && s.blocking >= cfg.maxBlocking)
    ensures cfg.capacity != -1
  {
    var s := states[n];
    assert Next(s, states[n + 1], steps[n]);
    hide Next;
    StaysOrTurns(s, states[n + 1], steps[n], i);
    if s.subs[i].Sending? {
      SendingSends(s, states[n + 1], steps[n]);
    }
    if cfg.nonblocking || cfg.capacity == -1 {
      NeverWaits(cfg, states, steps, n);
    }
    hide SubNext;
  }

  /** So does a goroutine that starts to wait: nothing is idle and the capacity is used up, and it may wait. */
  lemma WaitsOnlyIf(cfg: Config, states: seq<State>, steps: seq<Step>, n: nat, i: SubId)
    requires IsRun(cfg, states, steps) && n < |steps|
    requires i in states[n].subs && i in states[n + 1].subs
    requires !InLoop(states[n].subs[i]) && InLoop(states[n + 1].subs[i])
    ensures var s := states[n]; s.idle == [] && cfg.capacity != -1 && s.running >= cfg.capacity && !cfg.nonblocking
  {
    assert Next(states[n], states[n + 1], steps[n]);
    hide Next;
    StaysOrTurns(states[n], states[n + 1], steps[n], i);
  }

  /** A new worker is asked for only when none is idle. */
  lemma SpawnsOnlyIfNoneIdle(cfg: Config, states: seq<State>, steps: seq<Step>, n: nat, i: SubId)
    requires IsRun(cfg, states, steps) && n < |steps| && i in states[n].subs && i in states[n + 1].subs
    requires !states[n].subs[i].Authorised() && states[n + 1].subs[i].Authorised()
    ensures states[n].idle == []
    ensures cfg.capacity == -1 || states[n].running < cfg.capacity
  {
    assert Next(states[n], states[n + 1], steps[n]);
    hide Next;
    StaysOrTurns(states[n], states[n + 1], steps[n], i);
    RunKeepsInv(cfg, states, steps, n);
    IdleAreLive(states[n]);
    hide LockInv, OwnerInv, TaskInv;
  }

  lemma IdleAreLive(s: State)
    requires Inv(s)
    ensures s.idle != [] ==> LiveWorkers(s.workers) != {}
  {
    hide LockInv, TaskInv;
    if s.idle != [] {
      assert s.idle[0] in LiveWorkers(s.workers);
    }
  }

  // ------------------------------------------------- tasks that are refused

  /** Task t is refused in this step. */
  ghost predicate Refuses(s: State, s': State, t: TaskId) {
    t in s'.place && s'.place[t] == Refused && !(t in s.place && s.place[t] == Refused)
  }

  lemma EffectsOnPlaces(s: State, i: SubId)
    requires i in s.subs
    ensures forall pc, lock, b :: MoveSub(s, i, pc, lock, b).place == s.place
    ensures forall lock :: i !in Refuse(s, i, lock).subs
    ensures forall k, b | 0 <= k < |s.idle| && s.idle[k] in s.workers :: TakeIdle(s, i, k, b).place == s.place
  {
  }

  lemma TurnRefuses(s: State, s': State, e: Step, t: TaskId)
    requires SubNext(s, s', e) && Refuses(s, s', t) && !e.SEnter? && !e.SGet? && !e.SLaunch? && !e.SSend?
    ensures e.i in s.subs && e.i !in s'.subs
  {
    hide MoveSub, Refuse, TakeIdle, Enter, Get, Launch, SendTask;
    EffectsOnPlaces(s, e.i);
  }

  lemma OthersRefuseNone(s: State, s': State, e: Step, t: TaskId)
    requires SubNext(s, s', e) && (e.SEnter? || e.SGet? || e.SLaunch? || e.SSend?)
    ensures !Refuses(s, s', t)
  {
    hide Sent, CanSend;
  }

  lemma WorkersRefuseNone(s: State, s': State, e: Step, t: TaskId)
    requires WorkerNext(s, s', e)
    ensures !Refuses(s, s', t)
  {
    hide Arrive, TestCapacity, TestClosed, Stamp, RevertLock, Revert, DecRunning, PutCache, Begun;
    if !e.WReceive? && !e.WTaskEnds? {
      WorkerMovesNone(s, s', e);
    }
  }

  /** A task is refused only in the step in which its submitter leaves without sending it. */
  lemma NewlyRefused(s: State, s': State, e: Step, t: TaskId)
    requires Next(s, s', e) && Refuses(s, s', t)
    ensures SubNext(s, s', e) && !e.SSend? && e.i in s.subs && e.i !in s'.subs
  {
    hide SubNext, WorkerNext, OtherNext, Refuses;
    if SubNext(s, s', e) {
      if e.SEnter? || e.SGet? || e.SLaunch? || e.SSend? {
        OthersRefuseNone(s, s', e, t);
      } else {
        TurnRefuses(s, s', e, t);
      }
    } else if WorkerNext(s, s', e) {
      WorkersRefuseNone(s, s', e, t);
    } else {
      OtherKeepPlaces(s, s', e, t);
    }
  }

  lemma OtherKeepPlaces(s: State, s': State, e: Step, t: TaskId)
    requires OtherNext(s, s', e)
    ensures !Refuses(s, s', t)
  {
    hide Claim, Sent, CanSend;
  }

  /** What RefusedOnlyIf says, of a task. */
  lemma TaskRefusedOnlyIf(cfg: Config, states: seq<State>, steps: seq<Step>, n: nat, t: TaskId)
    requires IsRun(cfg, states, steps) && n < |steps| && Refuses(states[n], states[n + 1], t)
    ensures cfg.nonblocking || states[n].closed || cfg.maxBlocking != 0
    ensures cfg.capacity != -1
  {
    assert Next(states[n], states[n + 1], steps[n]);
    hide Next, SubNext, Refuses;
    NewlyRefused(states[n], states[n + 1], steps[n], t);
    RefusedOnlyIf(cfg, states, steps, n, steps[n].i);
  }

  /** Without Nonblocking and MaxBlockingTasks no task is refused as long as the pool is open. */
  lemma {:induction false} WaitingPoolRefusesNone(cfg: Config, states: seq<State>, steps: seq<Step>, n: nat)
    requires IsRun(cfg, states, steps) && n < |states| && !cfg.nonblocking && cfg.maxBlocking == 0
    ensures !states[n].closed ==> forall t | t in states[n].place :: states[n].place[t] != Refused
  {
    hide Next, Advances;
    if n > 0 && !states[n].closed {
      WaitingPoolRefusesNone(cfg, states, steps, n - 1);
      RunProgress(cfg, states, steps, n - 1, n);
      forall t | t in states[n].place ensures states[n].place[t] != Refused {
        if Refuses(states[n - 1], states[n], t) {
          TaskRefusedOnlyIf(cfg, states, steps, n - 1, t);
        }
      }
    }
  }

  /** Without a limit no task is ever refused. */
  lemma {:induction false} UnlimitedRefusesNone(cfg: Config, states: seq<State>, steps: seq<Step>, n: nat)
    requires IsRun(cfg, states, steps) && n < |states| && cfg.capacity == -1
    ensures forall t | t in states[n].place :: states[n].place[t] != Refused
  {
    hide Next;
    if n > 0 {
      UnlimitedRefusesNone(cfg, states, steps, n - 1);
      forall t | t in states[n].place ensures states[n].place[t] != Refused {
        if Refuses(states[n - 1], states[n], t) {
          TaskRefusedOnlyIf(cfg, states, steps, n - 1, t);
        }
      }
    }
  }
}
