/** When a worker quits, and when the scavenger does. */
module PoolQuits {
  import opened PoolModel
  import opened PoolInvariant
  import opened PoolCapacity
  import opened PoolSafety

  /** What makes worker w quit, by where it is. */
  ghost predicate Cause(s: State, e: Step, w: WorkerId)
    requires w in s.workers
  {
    match s.workers[w].pc
    case Arriving => false
    case Receiving => TakesStop(s, e, w)
    case Executing(_) => e == WTaskEnds(w, true)
    case Returned => 0 < s.cfg.capacity < s.running
    case Rechecking => s.closed
    case HoldsLock => s.closed
    case _ => false
  }

  /** It gets nil: from its channel, or handed over by a submitter, the scavenger or Release. */
  ghost predicate TakesStop(s: State, e: Step, w: WorkerId) {
    || (e == WReceive(w) && w in s.workers && s.workers[w].chan != [] && s.workers[w].chan[0] == Stop)
    || (e.SSend? && e.i in s.subs && s.subs[e.i].Sending? && s.subs[e.i].m == Stop && s.subs[e.i].w == w)
    || (e.CStop? && s.Expired() != [] && s.Expired()[0] == w)
    || (e.RReset? && s.idle != [] && s.idle[0] == w)
  }

  ghost predicate Quits(s: State, s': State, w: WorkerId) {
    w in s.workers && w in s'.workers && s.workers[w].pc != Exiting && s'.workers[w].pc == Exiting
  }

  /** The worker's own step ends it. */
  lemma OwnStepQuits(s: State, s': State, e: Step, w: WorkerId)
    requires WorkerNext(s, s', e) && Quits(s, s', w)
    ensures e.w == w && s.workers[w].pc != Arriving
    ensures s.workers[w].pc == Receiving ==> s.workers[w].chan != [] && s.workers[w].chan[0] == Stop
    ensures s.workers[w].pc == Rechecking ==> s.closed
    ensures var pc := s.workers[w].pc; pc.Executing? || pc == Returned || pc == HoldsLock || pc == Receiving || pc == Rechecking
  {
    hide WorkerNext;
    WorkerMovesAlone(s, s', e);
  }

  lemma StepOf(s: State, s': State, e: Step, w: WorkerId)
    requires WorkerNext(s, s', e) && e.w == w && w in s.workers
    ensures s.workers[w].pc == Receiving ==> e == WReceive(w)
    ensures s.workers[w].pc.Executing? ==> e.WTaskEnds? && TaskEnds(s, s', w, e.quits)
    ensures s.workers[w].pc == Returned ==> TestCapacity(s, s', w)
    ensures s.workers[w].pc == HoldsLock ==> Revert(s, s', w)
  {
    hide Begun, MoveWorker, Moved, InsertFails;
  }

  lemma TestsQuit(s: State, s': State, w: WorkerId)
    requires Quits(s, s', w)
    ensures TestCapacity(s, s', w) ==> 0 < s.cfg.capacity < s.running
    ensures Revert(s, s', w) ==> s.closed || InsertFails(s)
    ensures TaskEnds(s, s', w, false) ==> false
  {
  }

  lemma WorkerQuits(s: State, s': State, e: Step, w: WorkerId)
    requires WorkerNext(s, s', e) && Quits(s, s', w)
    requires s.workers[w].pc == HoldsLock ==> !InsertFails(s)
    ensures Cause(s, e, w)
  {
    OwnStepQuits(s, s', e, w);
    StepOf(s, s', e, w);
    TestsQuit(s, s', w);
    hide WorkerNext, TestCapacity, Revert, InsertFails, TaskEnds;
  }

  lemma SubQuits(s: State, s': State, e: Step, w: WorkerId)
    requires Inv(s) && SubNext(s, s', e) && Quits(s, s', w)
    ensures Cause(s, e, w)
  {
    hide Inv, Retrieve, Retry, Enter, LockSub, Park, Wake, RetestClosed, Moved;
    if e.SRetrieve? || e.SRetry? {
      RetrieveKeepsPcs(s, s', e.i);
    } else if Stays(e) {
      WaitKeepsWorkers(s, s', e);
    }
  }

  lemma RetrieveKeepsPcs(s: State, s': State, i: SubId)
    requires Retrieve(s, s', i) || Retry(s, s', i)
    ensures forall w | w in s.workers && w in s'.workers :: s'.workers[w].pc == s.workers[w].pc
  {
    hide Retrieve, Retry, Moved;
    var pc, lock, blocking := EitherSettles(s, s', i);
  }

  lemma OtherQuits(s: State, s': State, e: Step, w: WorkerId)
    requires OtherNext(s, s', e) && Quits(s, s', w)
    ensures Cause(s, e, w)
  {
  }

  /**
   In any run a worker quits only if it is told to, if its task panicked, if
   more workers run than the capacity when it has finished a task, or if the
   pool is closed.
   */
  lemma QuitsOnlyIf(cfg: Config, states: seq<State>, steps: seq<Step>, n: nat, w: WorkerId)
    requires IsRun(cfg, states, steps) && n < |steps| && Quits(states[n], states[n + 1], w)
    ensures Cause(states[n], steps[n], w)
  {
    assert Next(states[n], states[n + 1], steps[n]);
    hide Inv, SubNext, WorkerNext, OtherNext, Quits, Cause;
    RunKeepsInv(cfg, states, steps, n);
    if SubNext(states[n], states[n + 1], steps[n]) {
      SubQuits(states[n], states[n + 1], steps[n], w);
    } else if WorkerNext(states[n], states[n + 1], steps[n]) {
      if states[n].workers[w].pc == HoldsLock {
        RingNeverFull(cfg, states, steps, n, w);
      }
      WorkerQuits(states[n], states[n + 1], steps[n], w);
    } else {
      OtherQuits(states[n], states[n + 1], steps[n], w);
    }
  }

  // -------------------------------------------------------- the scavenger

  /** Between two rounds, or done for good. */
  predicate Rests(p: ScavPc) { p == Sleeping || p == Stopped }

  lemma EffectsKeepScav(s: State, i: SubId)
    ensures forall pc, lock, b :: MoveSub(s, i, pc, lock, b).scav == s.scav
    ensures forall lock | i in s.subs :: Refuse(s, i, lock).scav == s.scav
    ensures forall k, b | i in s.subs && 0 <= k < |s.idle| && s.idle[k] in s.workers :: TakeIdle(s, i, k, b).scav == s.scav
  {
  }

  lemma SubKeepsScav(s: State, s': State, e: Step)
    requires SubNext(s, s', e)
    ensures s'.scav == s.scav
  {
    hide MoveSub, Refuse, TakeIdle, Moved, Sent, CanSend;
    EffectsKeepScav(s, e.i);
  }

  lemma OtherRests(s: State, s': State, e: Step)
    requires OtherNext(s, s', e) && s.closed && Rests(s.scav)
    ensures Rests(s'.scav)
  {
    hide Sent, CanSend, Claim;
  }

  lemma RestStep(s: State, s': State, e: Step)
    requires Next(s, s', e) && s.closed && Rests(s.scav)
    ensures Rests(s'.scav)
  {
    hide SubNext, WorkerNext, OtherNext;
    if SubNext(s, s', e) {
      SubKeepsScav(s, s', e);
    } else if WorkerNext(s, s', e) {
      WorkerMovesAlone(s, s', e);
      hide GoesOn;
    } else {
      OtherRests(s, s', e);
    }
  }

  /** The scavenger of a closed pool finishes the round it is in and starts no other. */
  lemma {:induction false} ClosedPoolIsNotScavenged(cfg: Config, states: seq<State>, steps: seq<Step>, j: nat, k: nat)
    requires IsRun(cfg, states, steps) && j <= k < |states| && states[j].closed && Rests(states[j].scav)
    ensures Rests(states[k].scav)
    decreases k
  {
    hide Next;
    if j < k {
      ClosedPoolIsNotScavenged(cfg, states, steps, j, k - 1);
      RunProgress(cfg, states, steps, j, k - 1);
      RestStep(states[k - 1], states[k], steps[k - 1]);
    }
  }
}
