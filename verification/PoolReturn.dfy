/**
 The order in which idle workers are handed out: the stack gives the worker that
 was put back last, the ring the one that was put back first, and the scavenger
 takes those that were put back first.
 */
module PoolReturn {
  import opened PoolModel
  import opened PoolInvariant
  import opened PoolOrder
  import opened PoolOutcome
  import opened PoolQuits

  /** w was put back by step j and has been idle from then to state n. */
  ghost predicate PutBack(states: seq<State>, steps: seq<Step>, w: WorkerId, j: nat, n: nat) {
    && j < n < |states| && j < |steps| && Inserts(states[j], steps[j]) && steps[j].w == w
    && forall k | j < k <= n :: w in states[k].idle
  }

  ghost predicate Places(l: seq<WorkerId>, x: WorkerId, y: WorkerId, p: nat, q: nat) {
    p < q < |l| && l[p] == x && l[q] == y
  }

  ghost predicate Before(l: seq<WorkerId>, x: WorkerId, y: WorkerId) { exists p: nat, q: nat :: Places(l, x, y, p, q) }

  lemma BeforeCut(l: seq<WorkerId>, x: WorkerId, y: WorkerId, a: nat, b: nat)
    requires NoDup(l) && a <= b <= |l| && Before(l, x, y) && x in l[a..b] && y in l[a..b]
    ensures Before(l[a..b], x, y)
  {
    var p: nat, q: nat :| Places(l, x, y, p, q);
    var u :| 0 <= u < b - a && l[a..b][u] == x;
    var v :| 0 <= v < b - a && l[a..b][v] == y;
    assert l[a + u] == x && l[a + v] == y;
    assert a + u == p && a + v == q;
    assert Places(l[a..b], x, y, u, v);
  }

  lemma BeforeMore(l: seq<WorkerId>, x: WorkerId, y: WorkerId, w: WorkerId)
    ensures Before(l, x, y) ==> Before(l + [w], x, y)
    ensures x in l ==> Before(l + [w], x, w)
  {
    if Before(l, x, y) {
      var p: nat, q: nat :| Places(l, x, y, p, q);
      assert Places(l + [w], x, y, p, q);
    }
    if x in l {
      var p :| 0 <= p < |l| && l[p] == x;
      assert Places(l + [w], x, w, p, |l|);
    }
  }

  lemma BeforeIsOneWay(l: seq<WorkerId>, x: WorkerId, y: WorkerId)
    requires NoDup(l) && Before(l, x, y)
    ensures x != l[|l| - 1] && y != l[0]
  {
  }

  lemma InsertAppends(s: State, s': State, e: Step)
    requires Next(s, s', e) && Inserts(s, e)
    ensures e.WRevert? && s'.idle == s.idle + [e.w]
  {
    InsertIsRevert(s, s', e);
    hide Next;
  }

  lemma StepKeepsBefore(s: State, s': State, e: Step, x: WorkerId, y: WorkerId)
    requires Inv(s) && Next(s, s', e) && Before(s.idle, x, y) && x in s'.idle && y in s'.idle
    ensures Before(s'.idle, x, y)
  {
    hide Inv, Next, Inserts, Before, RecycleTime;
    if Inserts(s, e) {
      InsertAppends(s, s', e);
      BeforeMore(s.idle, x, y, e.w);
    } else {
      OtherStepsShrink(s, s', e);
      var a: nat, b: nat :| CutTo(s, s', a, b);
      IdleOnce(s);
      BeforeCut(s.idle, x, y, a, b);
    }
  }

  lemma IdleOnce(s: State)
    requires Inv(s)
    ensures NoDup(s.idle)
  {
    hide LockInv, TaskInv;
  }

  /** Of two idle workers, the one that was put back earlier is nearer the head of the container. */
  lemma {:induction false} OrderOfReturn(
    cfg: Config, states: seq<State>, steps: seq<Step>, x: WorkerId, j: nat, y: WorkerId, k: nat, n: nat)
    requires IsRun(cfg, states, steps) && PutBack(states, steps, x, j, n) && PutBack(states, steps, y, k, n) && j < k
    ensures Before(states[n].idle, x, y)
    decreases n
  {
    hide Inv, Next, Inserts, Before;
    assert Next(states[n - 1], states[n], steps[n - 1]);
    if n == k + 1 {
      InsertAppends(states[k], states[n], steps[k]);
      BeforeMore(states[k].idle, x, y, y);
    } else {
      OrderOfReturn(cfg, states, steps, x, j, y, k, n - 1);
      RunKeepsInv(cfg, states, steps, n - 1);
      StepKeepsBefore(states[n - 1], states[n], steps[n - 1], x, y);
    }
  }

  /** Submitter i takes w from the container in step n. */
  ghost predicate Takes(states: seq<State>, n: nat, i: SubId, w: WorkerId) {
    && n + 1 < |states| && i in states[n].subs && (states[n].subs[i].Locked? || states[n].subs[i].Awake?)
    && i in states[n + 1].subs && states[n + 1].subs[i].Sending? && states[n + 1].subs[i].w == w
  }

  lemma TakesOffered(cfg: Config, states: seq<State>, steps: seq<Step>, n: nat, i: SubId, w: WorkerId)
    requires IsRun(cfg, states, steps) && Takes(states, n, i, w)
    ensures var l := states[n].idle; l != [] && w == if cfg.backing == Stack then l[|l| - 1] else l[0]
  {
    assert Next(states[n], states[n + 1], steps[n]);
    hide Next;
    StaysOrTurns(states[n], states[n + 1], steps[n], i);
    hide SubNext;
  }

  /** detach: last put back, first out of the stack; first put back, first out of the ring. */
  lemma DetachOrder(cfg: Config, states: seq<State>, steps: seq<Step>, n: nat, i: SubId, w: WorkerId, j: nat, v: WorkerId, k: nat)
    requires IsRun(cfg, states, steps) && Takes(states, n, i, w)
    requires PutBack(states, steps, w, j, n) && PutBack(states, steps, v, k, n) && v != w
    ensures if cfg.backing == Stack then k < j else j < k
  {
    hide Next, Inv, Inserts, Before;
    TakesOffered(cfg, states, steps, n, i, w);
    RunKeepsInv(cfg, states, steps, n);
    IdleOnce(states[n]);
    assert j != k;
    hide NoDup;
    if j < k {
      OrderOfReturn(cfg, states, steps, w, j, v, k, n);
      BeforeIsOneWay(states[n].idle, w, v);
    } else if k < j {
      OrderOfReturn(cfg, states, steps, v, k, w, j, n);
      BeforeIsOneWay(states[n].idle, v, w);
    }
  }

  /** The scavenger takes a worker only together with all that were put back before it. */
  lemma ExpiryOrder(cfg: Config, states: seq<State>, steps: seq<Step>, n: nat, w: WorkerId, j: nat, v: WorkerId, k: nat)
    requires IsRun(cfg, states, steps) && n < |steps| && steps[n].CExpire?
    requires PutBack(states, steps, w, j, n) && PutBack(states, steps, v, k, n) && k < j
    requires w in states[n + 1].Expired()
    ensures v in states[n + 1].Expired()
  {
    assert Next(states[n], states[n + 1], steps[n]);
    OrderOfReturn(cfg, states, steps, v, k, w, j, n);
    RunKeepsInv(cfg, states, steps, n);
    IdleOnce(states[n]);
    hide Inv, Inserts, IsRun;
    ExpiresPrefix(states[n], states[n + 1], steps[n], v, w);
  }

  lemma ExpiresPrefix(s: State, s': State, e: Step, v: WorkerId, w: WorkerId)
    requires Next(s, s', e) && e.CExpire? && NoDup(s.idle) && Before(s.idle, v, w) && w in s'.Expired()
    ensures v in s'.Expired()
  {
    var p: nat, q: nat :| Places(s.idle, v, w, p, q);
    var u :| 0 <= u < e.n && s.idle[..e.n][u] == w;
    assert u == q;
    assert s.idle[..e.n][p] == v;
  }

  // ------------------------------------------------------- recycle times

  /** Between the end of its task and its return to the container. */
  predicate OnTheWay(pc: WorkerPc) { pc == Returned || pc == Rechecking || pc == Stamping || pc == WantLock || pc == HoldsLock }

  /** Time does not go back, and only worker w's own Stamp changes its recycleTime. */
  ghost predicate TimePasses(s: State, s': State, e: Step, w: WorkerId) {
    && s.clock <= s'.clock
    && if e == WStamp(w) then RecycleTime(s', w) == s.clock else RecycleTime(s', w) == RecycleTime(s, w)
  }

  lemma EffectsKeepTime(s: State, i: SubId)
    ensures forall pc, lock, b :: var s' := MoveSub(s, i, pc, lock, b); s'.clock == s.clock && s'.recycled == s.recycled
    ensures forall lock | i in s.subs :: var s' := Refuse(s, i, lock); s'.clock == s.clock && s'.recycled == s.recycled
    ensures forall k, b | i in s.subs && 0 <= k < |s.idle| && s.idle[k] in s.workers ::
              var s' := TakeIdle(s, i, k, b); s'.clock == s.clock && s'.recycled == s.recycled
  {
  }

  lemma SubTime(s: State, s': State, e: Step)
    requires SubNext(s, s', e)
    ensures s'.clock == s.clock && s'.recycled == s.recycled
  {
    hide MoveSub, Refuse, TakeIdle, Moved, Sent, CanSend;
    EffectsKeepTime(s, e.i);
  }

  lemma MoveKeepsTime(s: State)
    ensures forall w, x, lock, n :: var s' := MoveWorker(s, w, x, lock, n); s'.clock == s.clock && s'.recycled == s.recycled
  {
  }

  lemma WorkerTime(s: State, s': State, e: Step, w: WorkerId)
    requires WorkerNext(s, s', e)
    ensures TimePasses(s, s', e, w)
  {
    hide Moved, Begun, InsertFails, MoveWorker;
    MoveKeepsTime(s);
  }

  lemma OtherTime(s: State, s': State, e: Step)
    requires OtherNext(s, s', e)
    ensures s.clock <= s'.clock && s'.recycled == s.recycled
  {
    hide Sent, CanSend, Claim;
  }

  lemma StepTime(s: State, s': State, e: Step, w: WorkerId)
    requires Next(s, s', e)
    ensures TimePasses(s, s', e, w)
  {
    if SubNext(s, s', e) {
      SubTime(s, s', e);
    } else if WorkerNext(s, s', e) {
      WorkerTime(s, s', e, w);
    } else {
      OtherTime(s, s', e);
    }
    hide SubNext, WorkerNext, OtherNext;
  }

  /** How worker w gets behind its stamp. */
  ghost predicate Stamped(s: State, s': State, e: Step, w: WorkerId)
    requires w in s.workers && w in s'.workers
  {
    var pc, pc' := s.workers[w].pc, s'.workers[w].pc;
    && (pc' == WantLock ==> if e == WStamp(w) then pc == Stamping else pc == WantLock)
    && (pc' == HoldsLock ==> e != WStamp(w) && (pc == WantLock || pc == HoldsLock))
  }

  lemma StampWants(s: State, s': State, w: WorkerId)
    requires WorkerNext(s, s', WStamp(w))
    ensures w in s.workers && w in s'.workers && s.workers[w].pc == Stamping && s'.workers[w].pc == WantLock
  {
  }

  lemma OnlyStampWants(s: State, s': State, e: Step, w: WorkerId)
    requires WorkerNext(s, s', e) && e.w == w && w in s.workers && s.workers[w].pc == Stamping
    ensures e == WStamp(w)
  {
    hide Moved, InsertFails, MoveWorker, Begun;
  }

  lemma WorkerStamps(s: State, s': State, e: Step, w: WorkerId)
    requires WorkerNext(s, s', e) && w in s.workers && w in s'.workers
    ensures Stamped(s, s', e, w)
  {
    hide WorkerNext;
    if e == WStamp(w) {
      StampWants(s, s', w);
    } else {
      WorkerMovesAlone(s, s', e);
      if e.w == w && s.workers[w].pc == Stamping {
        OnlyStampWants(s, s', e, w);
      }
    }
  }

  lemma SubStamps(s: State, s': State, e: Step, w: WorkerId)
    requires SubNext(s, s', e) && w in s.workers && w in s'.workers
    ensures Stamped(s, s', e, w)
  {
    hide Retrieve, Retry, Enter, LockSub, Park, Wake, RetestClosed, Moved;
    if e.SRetrieve? || e.SRetry? {
      RetrieveKeepsPcs(s, s', e.i);
    } else if Stays(e) {
      WaitKeepsWorkers(s, s', e);
    }
  }

  lemma OtherStamps(s: State, s': State, e: Step, w: WorkerId)
    requires OtherNext(s, s', e) && w in s.workers && w in s'.workers
    ensures Stamped(s, s', e, w)
  {
  }

  lemma StepStamps(s: State, s': State, e: Step, w: WorkerId)
    requires Next(s, s', e) && w in s.workers && w in s'.workers
    ensures Stamped(s, s', e, w)
  {
    hide SubNext, WorkerNext, OtherNext, Stamped;
    if SubNext(s, s', e) {
      SubStamps(s, s', e, w);
    } else if WorkerNext(s, s', e) {
      WorkerStamps(s, s', e, w);
    } else {
      OtherStamps(s, s', e, w);
    }
  }

  /** w has ended a task in step j and from then to state n is on its way back. */
  ghost predicate ComingBack(states: seq<State>, steps: seq<Step>, w: WorkerId, j: nat, n: nat) {
    && j < n < |states| && j < |steps| && steps[j] == WTaskEnds(w, false)
    && forall k | j < k <= n :: w in states[k].workers && OnTheWay(states[k].workers[w].pc)
  }

  lemma TaskEndReturns(s: State, s': State, w: WorkerId)
    requires Next(s, s', WTaskEnds(w, false))
    ensures w in s'.workers && s'.workers[w].pc == Returned && s'.clock == s.clock
  {
  }

  lemma {:induction false} StampLiesBetween(cfg: Config, states: seq<State>, steps: seq<Step>, w: WorkerId, j: nat, n: nat)
    requires IsRun(cfg, states, steps) && ComingBack(states, steps, w, j, n)
    ensures states[j].clock <= states[n].clock
    ensures states[n].workers[w].pc == WantLock || states[n].workers[w].pc == HoldsLock ==>
              states[j].clock <= RecycleTime(states[n], w) <= states[n].clock
    decreases n
  {
    hide Next, RecycleTime;
    if n == j + 1 {
      TaskEndReturns(states[j], states[n], w);
    } else {
      StampLiesBetween(cfg, states, steps, w, j, n - 1);
      StepTime(states[n - 1], states[n], steps[n - 1], w);
      StepStamps(states[n - 1], states[n], steps[n - 1], w);
    }
  }

  /** A worker is put back with a recycleTime that is not before the end of its task and not after its return. */
  lemma PutBackWithItsTime(cfg: Config, states: seq<State>, steps: seq<Step>, w: WorkerId, j: nat, n: nat)
    requires IsRun(cfg, states, steps) && ComingBack(states, steps, w, j, n) && n < |steps|
    requires Inserts(states[n], steps[n]) && steps[n].w == w
    ensures w in states[n + 1].idle && states[j].clock <= RecycleTime(states[n + 1], w) <= states[n + 1].clock
  {
    assert Next(states[n], states[n + 1], steps[n]);
    hide Next, RecycleTime;
    StampLiesBetween(cfg, states, steps, w, j, n);
    StepTime(states[n], states[n + 1], steps[n], w);
    InsertAppends(states[n], states[n + 1], steps[n]);
  }
}
