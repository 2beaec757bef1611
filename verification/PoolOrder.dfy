/**
 The order of the idle container.  revertWorker stamps recycleTime before it
 takes the lock, so workers can be put back in another order than they were
 stamped in, and expiry, which relies on the order, can then be wrong.
 */
module PoolOrder {
  import opened PoolModel
  import opened PoolInvariant
  import opened PoolCapacity
  import opened PoolOverrun
  import opened Sets
  import opened Wrappers
  import Idle = IdleWorkers

  function RecycleTime(s: State, w: WorkerId): int { if w in s.recycled then s.recycled[w] else 0 }

  /** The idle container as its own operations see it. */
  function Content(s: State): (c: seq<Idle.GoWorker>)
    ensures |c| == |s.idle|
    ensures forall i | 0 <= i < |c| :: c[i] == Idle.GoWorker(s.idle[i], RecycleTime(s, s.idle[i]))
  {
    seq(|s.idle|, i requires 0 <= i < |s.idle| => Idle.GoWorker(s.idle[i], RecycleTime(s, s.idle[i])))
  }

  ghost predicate InOrder(s: State) { Idle.Sorted(Content(s)) }

  // ------------------------------------------------ which steps keep the order

  ghost predicate Inserts(s: State, e: Step) {
    e.WRevert? && e.w in s.workers && s.workers[e.w].pc == HoldsLock && !s.closed && !InsertFails(s)
  }

  /** w is put back behind no younger worker. */
  ghost predicate NotOlder(s: State, w: WorkerId) {
    s.idle == [] || RecycleTime(s, s.idle[|s.idle| - 1]) <= RecycleTime(s, w)
  }

  /** An insert keeps the order if and only if the newcomer is not older than the last. */
  lemma InsertKeepsOrderIff(s: State, s': State, w: WorkerId)
    requires InOrder(s) && Revert(s, s', w) && Inserts(s, WRevert(w))
    ensures InOrder(s') <==> NotOlder(s, w)
  {
    Idle.AddedSortedIff(Content(s), Idle.GoWorker(w, RecycleTime(s, w)));
    assert Content(s') == Content(s) + [Idle.GoWorker(w, RecycleTime(s, w))];
  }

  /** The container keeps its workers from a to b, and the times of all it had stay. */
  ghost predicate CutTo(s: State, s': State, a: nat, b: nat) {
    && a <= b <= |s.idle| && s'.idle == s.idle[a..b]
    && forall w | w in s.idle :: RecycleTime(s', w) == RecycleTime(s, w)
  }

  ghost predicate Shrinks(s: State, s': State) { exists a: nat, b: nat :: CutTo(s, s', a, b) }

  lemma ShrinkingKeepsOrder(s: State, s': State)
    requires InOrder(s) && Shrinks(s, s')
    ensures InOrder(s')
  {
    var a: nat, b: nat :| CutTo(s, s', a, b);
    assert Content(s') == Content(s)[a..b];
  }

  lemma Cuts(s: State, s': State, a: nat, b: nat)
    requires a <= b <= |s.idle| && s'.idle == s.idle[a..b] && s'.recycled == s.recycled
    ensures Shrinks(s, s')
  {
    assert CutTo(s, s', a, b);
  }

  lemma Unchanged(s: State, s': State)
    requires s'.idle == s.idle && s'.recycled == s.recycled
    ensures Shrinks(s, s')
  {
    assert s.idle == s.idle[0..|s.idle|];
    Cuts(s, s', 0, |s.idle|);
  }

  lemma TakeShrinks(s: State, i: SubId, blocking: int)
    requires i in s.subs && s.idle != [] && s.idle[DetachIndex(s)] in s.workers
    ensures Shrinks(s, TakeIdle(s, i, DetachIndex(s), blocking))
  {
    var s' := TakeIdle(s, i, DetachIndex(s), blocking);
    if s.cfg.backing == Stack {
      assert s'.idle == s.idle[0..|s.idle| - 1];
      Cuts(s, s', 0, |s.idle| - 1);
    } else {
      assert s'.idle == s.idle[1..|s.idle|];
      Cuts(s, s', 1, |s.idle|);
    }
  }

  lemma RetrieveShrinks(s: State, s': State, i: SubId)
    requires Retrieve(s, s', i) || Retry(s, s', i)
    ensures Shrinks(s, s')
  {
    hide Shrinks, Retrieve, Retry, Moved;
    var pc, lock, blocking := EitherSettles(s, s', i);
    if s.idle != [] && s.idle[DetachIndex(s)] in s.workers && s' == TakeIdle(s, i, DetachIndex(s), blocking) {
      TakeShrinks(s, i, blocking);
    } else {
      Unchanged(s, s');
    }
  }

  lemma SubShrinks(s: State, s': State, e: Step)
    requires SubNext(s, s', e)
    ensures Shrinks(s, s')
  {
    hide Shrinks, Enter, LockSub, Retrieve, Park, Wake, Retry, RetestClosed, Moved, Sent, CanSend;
    if e.SRetrieve? || e.SRetry? {
      RetrieveShrinks(s, s', e.i);
    } else if Stays(e) {
      WaitKeepsWorkers(s, s', e);
      Unchanged(s, s');
    } else {
      Unchanged(s, s');
    }
  }

  lemma StampShrinks(s: State, s': State, w: WorkerId)
    requires Inv(s) && Stamp(s, s', w)
    ensures Shrinks(s, s')
  {
    hide LockInv, TaskInv;
    assert w !in s.idle;
    assert s.idle == s.idle[0..|s.idle|];
    assert CutTo(s, s', 0, |s.idle|);
  }

  lemma WorkerShrinks(s: State, s': State, e: Step)
    requires Inv(s) && WorkerNext(s, s', e) && !Inserts(s, e)
    ensures Shrinks(s, s')
  {
    hide Inv, Shrinks, Stamp, Moved, Begun;
    if e.WStamp? {
      StampShrinks(s, s', e.w);
    } else {
      Unchanged(s, s');
    }
  }

  lemma OtherShrinks(s: State, s': State, e: Step)
    requires OtherNext(s, s', e)
    ensures Shrinks(s, s')
  {
    hide Shrinks, Claim, Sent, CanSend;
    if e.CExpire? {
      assert s'.idle == s.idle[e.n..|s.idle|];
      Cuts(s, s', e.n, |s.idle|);
    } else if e.RReset? {
      assert s'.idle == s.idle[1..|s.idle|];
      Cuts(s, s', 1, |s.idle|);
    } else {
      Unchanged(s, s');
    }
  }

  lemma OtherStepsShrink(s: State, s': State, e: Step)
    requires Inv(s) && Next(s, s', e) && !Inserts(s, e)
    ensures Shrinks(s, s')
  {
    hide Inv, SubNext, WorkerNext, OtherNext, Inserts, Shrinks;
    if SubNext(s, s', e) {
      SubShrinks(s, s', e);
    } else if WorkerNext(s, s', e) {
      WorkerShrinks(s, s', e);
    } else {
      OtherShrinks(s, s', e);
    }
  }

  lemma InsertIsRevert(s: State, s': State, e: Step)
    requires Next(s, s', e) && Inserts(s, e)
    ensures e.WRevert? && Revert(s, s', e.w)
  {
    hide Revert;
  }

  ghost predicate InsertsInOrder(s: State, e: Step) { Inserts(s, e) ==> NotOlder(s, e.w) }

  lemma InOrderStep(s: State, s': State, e: Step)
    requires Inv(s) && InOrder(s) && Next(s, s', e) && InsertsInOrder(s, e)
    ensures InOrder(s')
  {
    hide Next, Inv, InOrder, Inserts, Shrinks;
    if Inserts(s, e) {
      InsertIsRevert(s, s', e);
      InsertKeepsOrderIff(s, s', e.w);
    } else {
      OtherStepsShrink(s, s', e);
      ShrinkingKeepsOrder(s, s');
    }
  }

  lemma {:induction false} InOrderUpTo(cfg: Config, states: seq<State>, steps: seq<Step>, k: nat)
    requires IsRun(cfg, states, steps) && k < |states|
    requires forall n | 0 <= n < |steps| :: InsertsInOrder(states[n], steps[n])
    ensures InOrder(states[k])
  {
    hide Next, Inv, InsertsInOrder;
    if k > 0 {
      hide InOrder;
      InOrderUpTo(cfg, states, steps, k - 1);
      RunKeepsInv(cfg, states, steps, k - 1);
      InOrderStep(states[k - 1], states[k], steps[k - 1]);
    }
  }

  /** In any run the container is in order throughout, if and only if every worker is put back behind no younger one. */
  lemma OrderedIffInsertsAre(cfg: Config, states: seq<State>, steps: seq<Step>)
    requires IsRun(cfg, states, steps)
    ensures (forall k | 0 <= k < |states| :: InOrder(states[k]))
            <==> (forall n | 0 <= n < |steps| :: InsertsInOrder(states[n], steps[n]))
  {
    hide Next, InOrder;
    if forall n | 0 <= n < |steps| :: InsertsInOrder(states[n], steps[n]) {
      forall k | 0 <= k < |states| ensures InOrder(states[k]) {
        InOrderUpTo(cfg, states, steps, k);
      }
    }
    if forall k | 0 <= k < |states| :: InOrder(states[k]) {
      forall n | 0 <= n < |steps| ensures InsertsInOrder(states[n], steps[n]) {
        assert Next(states[n], states[n + 1], steps[n]);
        assert InOrder(states[n]) && InOrder(states[n + 1]);
        if Inserts(states[n], steps[n]) {
          InsertIsRevert(states[n], states[n + 1], steps[n]);
          InsertKeepsOrderIff(states[n], states[n + 1], steps[n].w);
        }
      }
    }
  }

  // ------------------------------------------------------------ the run

  lemma WNamed(s: State, s': State, w: WorkerId)
    ensures TaskEnds(s, s', w, false) ==> Next(s, s', WTaskEnds(w, false))
    ensures TestCapacity(s, s', w) ==> Next(s, s', WTestCapacity(w))
    ensures TestClosed(s, s', w) ==> Next(s, s', WTestClosed(w))
    ensures Stamp(s, s', w) ==> Next(s, s', WStamp(w))
    ensures RevertLock(s, s', w) ==> Next(s, s', WRevertLock(w))
    ensures Revert(s, s', w) ==> Next(s, s', WRevert(w))
  {
    hide TaskEnds, TestCapacity, TestClosed, Stamp, RevertLock, Revert;
  }

  /** s once worker w has finished its task, been stamped, and come to the lock. */
  function Stamped(s: State, w: WorkerId, t: TaskId): State {
    s.(workers := s.workers[w := Worker(WantLock, [], Self)], place := s.place[t := Done],
       recycled := s.recycled[w := s.clock])
  }

  lemma ReachStamped(cfg: Config, k: nat, s: State, w: WorkerId, t: TaskId)
    requires Reaches(cfg, k, s) && s.cfg == cfg && |s.subs| <= k && !s.closed
    requires w in s.workers && s.workers[w] == Worker(Executing(t), [], Self)
    requires cfg.capacity == -1 || s.running <= cfg.capacity
    ensures Reaches(cfg, k, Stamped(s, w, t))
  {
    hide Reaches, Next;
    var s1 := s.(workers := s.workers[w := Worker(Returned, [], Self)], place := s.place[t := Done]);
    assert TaskEnds(s, s1, w, false);
    WNamed(s, s1, w);
    Extend(cfg, k, s, s1, WTaskEnds(w, false));
    var s2 := MoveWorker(s1, w, Worker(Rechecking, [], Self), s.lock, s.running);
    assert TestCapacity(s1, s2, w);
    WNamed(s1, s2, w);
    Extend(cfg, k, s1, s2, WTestCapacity(w));
    var s3 := MoveWorker(s2, w, Worker(Stamping, [], Self), s.lock, s.running);
    assert TestClosed(s2, s3, w);
    WNamed(s2, s3, w);
    Extend(cfg, k, s2, s3, WTestClosed(w));
    var s4 := MoveWorker(s3, w, Worker(WantLock, [], Self), s.lock, s.running).(recycled := s.recycled[w := s.clock]);
    assert Stamp(s3, s4, w);
    WNamed(s3, s4, w);
    Extend(cfg, k, s3, s4, WStamp(w));
    assert s4.workers == s.workers[w := Worker(WantLock, [], Self)];
  }

  /** s once worker w has taken the lock and put itself back. */
  function PutBack(s: State, w: WorkerId): State {
    s.(workers := s.workers[w := Worker(Arriving, [], Owner.Idle)], idle := s.idle + [w])
  }

  lemma ReachPutBack(cfg: Config, k: nat, s: State, w: WorkerId)
    requires Reaches(cfg, k, s) && s.cfg == cfg && |s.subs| <= k && !s.closed && s.lock.None?
    requires w in s.workers && s.workers[w] == Worker(WantLock, [], Self)
    requires cfg.backing == Ring ==> |s.idle| < cfg.capacity
    ensures Reaches(cfg, k, PutBack(s, w))
  {
    hide Reaches, Next;
    var s1 := MoveWorker(s, w, Worker(HoldsLock, [], Self), Some(Wrk(w)), s.running);
    assert RevertLock(s, s1, w);
    WNamed(s, s1, w);
    Extend(cfg, k, s, s1, WRevertLock(w));
    var s2 := s1.(workers := s1.workers[w := Worker(Arriving, [], Owner.Idle)], idle := s.idle + [w], lock := None);
    assert Revert(s1, s2, w);
    WNamed(s1, s2, w);
    Extend(cfg, k, s1, s2, WRevert(w));
    assert s2.workers == s.workers[w := Worker(Arriving, [], Owner.Idle)];
  }

  lemma ReachLater(cfg: Config, k: nat, s: State)
    requires Reaches(cfg, k, s) && s.cfg == cfg && |s.subs| <= k
    ensures Reaches(cfg, k, s.(clock := s.clock + 1))
  {
    var s' := s.(clock := s.clock + 1);
    assert Pass(s, s', 1);
    assert OtherNext(s, s', TPass(1));
    Extend(cfg, k, s, s', TPass(1));
  }

  lemma {:induction false} TowerWorkerAt(n: nat, w: WorkerId)
    requires w < n
    ensures TowerWorkers(n, 0)[w] == Worker(Executing(w), [], Self)
  {
    if w < n - 1 {
      TowerWorkerAt(n - 1, w);
    }
  }

  /** Workers 0 and 1 are at the lock, stamped at times 0 and 1; any others are busy. */
  ghost predicate TwoStamped(cfg: Config, n: nat, s: State) {
    && s.cfg == cfg && s.subs == map[] && !s.closed && s.lock.None? && s.running == n && s.idle == [] && s.clock == 1
    && s.recycled == map[0 := 0, 1 := 1]
    && (forall w | 0 <= w < n :: w in s.workers)
    && (forall w | 0 <= w < n :: s.workers[w] == Worker(if w < 2 then WantLock else Executing(w), [], Self))
  }

  /** All n workers are busy, each with its own task. */
  ghost predicate AllBusy(cfg: Config, n: nat, s: State) {
    && s.cfg == cfg && s.subs == map[] && !s.closed && s.lock.None? && s.running == n && s.idle == [] && s.clock == 0
    && s.recycled == map[]
    && (forall w | 0 <= w < n :: w in s.workers)
    && (forall w | 0 <= w < n :: s.workers[w] == Worker(Executing(w), [], Self))
  }

  lemma ReachAllBusy(cfg: Config, k: nat, n: nat)
    requires cfg.Valid() && k >= 1 && (cfg.capacity == -1 || n <= cfg.capacity)
    ensures Reaches(cfg, k, Tower(cfg, n, 0, 0)) && AllBusy(cfg, n, Tower(cfg, n, 0, 0))
  {
    hide Reaches, TowerPlace, Upto;
    BusyWorkers(cfg, k, n);
    hide TowerWorkers;
    forall w: WorkerId | w < n ensures TowerWorkers(n, 0)[w] == Worker(Executing(w), [], Self) {
      TowerWorkerAt(n, w);
    }
  }

  lemma ReachTwoStamped(cfg: Config, k: nat, n: nat) returns (s: State)
    requires cfg.Valid() && k >= 1 && n >= 2 && (cfg.capacity == -1 || n <= cfg.capacity)
    ensures Reaches(cfg, k, s) && TwoStamped(cfg, n, s)
  {
    hide Reaches, Tower, AllBusy, TwoStamped, Stamped;
    ReachAllBusy(cfg, k, n);
    var s0 := Tower(cfg, n, 0, 0);
    FirstStamp(cfg, n, s0);
    ReachStamped(cfg, k, s0, 0, 0);
    var s1 := Stamped(s0, 0, 0);
    ReachLater(cfg, k, s1);
    var s2 := s1.(clock := s1.clock + 1);
    SecondStamp(cfg, n, s0);
    ReachStamped(cfg, k, s2, 1, 1);
    s := Stamped(s2, 1, 1);
  }

  lemma FirstStamp(cfg: Config, n: nat, s: State)
    requires AllBusy(cfg, n, s) && n >= 1
    ensures s.cfg == cfg && |s.subs| == 0 && !s.closed && s.running == n
    ensures 0 in s.workers && s.workers[0] == Worker(Executing(0), [], Self)
    ensures var s1 := Stamped(s, 0, 0); s1.cfg == cfg && |s1.subs| == 0 && s1.clock == 0
  {
  }

  lemma SecondStamp(cfg: Config, n: nat, s: State)
    requires AllBusy(cfg, n, s) && n >= 2
    ensures var s1 := Stamped(s, 0, 0);
            var s2 := s1.(clock := s1.clock + 1);
            && s2.cfg == cfg && |s2.subs| == 0 && !s2.closed && s2.running == n
            && 1 in s2.workers && s2.workers[1] == Worker(Executing(1), [], Self)
            && TwoStamped(cfg, n, Stamped(s2, 1, 1))
  {
    assert map[0 := 0][1 := 1] == map[0 := 0, 1 := 1];
  }

  /** Worker 0 was stamped before worker 1, and puts itself back after it. */
  lemma ReachOutOfOrder(cfg: Config, k: nat, n: nat) returns (s: State)
    requires cfg.Valid() && k >= 1 && n >= 2 && (cfg.capacity == -1 || n <= cfg.capacity)
    ensures Reaches(cfg, k, s) && s.cfg == cfg && s.subs == map[] && !s.closed && s.lock.None? && s.running == n
    ensures s.idle == [1, 0] && s.recycled == map[0 := 0, 1 := 1] && s.clock == 1
    ensures forall w | 2 <= w < n :: w in s.workers && s.workers[w] == Worker(Executing(w), [], Self)
  {
    hide Reaches;
    var s0 := ReachTwoStamped(cfg, k, n);
    ReachPutBack(cfg, k, s0, 1);
    var s1 := PutBack(s0, 1);
    ReachPutBack(cfg, k, s1, 0);
    s := PutBack(s1, 0);
  }

  // ------------------------------------------------- for which pools it is kept

  lemma ReachableFacts(cfg: Config, k: nat, s: State)
    requires Reaches(cfg, k, s) && cfg.capacity > 0
    ensures Inv(s) && s.cfg == cfg && |s.idle| <= cfg.capacity
  {
    var states, steps :| IsRun(cfg, states, steps) && AtMostInside(states, k) && EndsIn(states, s);
    hide Next, Inv;
    RunKeepsInv(cfg, states, steps, |states| - 1);
    IdleWithinCapacity(cfg, states, steps, |states| - 1);
  }

  /**
   The container stays in order in every run, however many goroutines are inside
   at once, if and only if the pool has capacity 1.
   */
  lemma InOrderIffCapacityOne(cfg: Config, k: nat)
    requires cfg.Valid() && k >= 1
    ensures (forall s :: Reaches(cfg, k, s) ==> InOrder(s)) <==> cfg.capacity == 1
  {
    hide Reaches;
    if cfg.capacity == 1 {
      forall s | Reaches(cfg, k, s) ensures InOrder(s) {
        ReachableFacts(cfg, k, s);
      }
    } else {
      var s := ReachOutOfOrder(cfg, k, 2);
      assert Content(s)[0].recycleTime == 1 && Content(s)[1].recycleTime == 0;
    }
  }

  /** How many workers retrieveExpiry hands out at expiry time t: the binary search of the stack, the scan of the ring. */
  function Expiring(backing: Backing, c: seq<Idle.GoWorker>, t: int): (n: int)
    ensures 0 <= n <= |c|
  {
    if backing == Stack then
      Idle.SearchFindsBoundary(c, 0, |c| - 1, t);
      Idle.Search(c, 0, |c| - 1, t) + 1
    else
      Idle.ScanFindsBoundary(c, t);
      Idle.Scan(c, t)
  }

  /** Expiry at time t hands out expired workers only. */
  ghost predicate OnlyOld(s: State, t: int) {
    forall i | 0 <= i < Expiring(s.cfg.backing, Content(s), t) :: Idle.Old(Content(s)[i], t)
  }

  /** Expiry at time t hands out the expired workers, all of them and no other. */
  ghost predicate Exactly(s: State, t: int) {
    Idle.ExactSplit(Content(s), t, Expiring(s.cfg.backing, Content(s), t))
  }

  lemma ScanIsOld(s: State, t: int)
    requires s.cfg.backing == Ring
    ensures OnlyOld(s, t)
  {
    Idle.ScanFindsBoundary(Content(s), t);
  }

  /** Two workers are too few for the binary search to go wrong. */
  lemma TwoAreOld(s: State, t: int)
    requires s.cfg.backing == Stack && |s.idle| <= 2
    ensures OnlyOld(s, t)
  {
    var c := Content(s);
    Idle.TwoSearch(c, t);
    hide Idle.Search, Content;
  }

  /** With three workers a run comes to a container whose binary search takes a fresh worker for expired. */
  lemma FreshWorkerExpires(cfg: Config, k: nat) returns (s: State)
    requires cfg.Valid() && cfg.backing == Stack && k >= 1 && (cfg.capacity == -1 || cfg.capacity >= 3)
    ensures Reaches(cfg, k, s) && !OnlyOld(s, 0)
  {
    var s1 := ReachOutOfOrder(cfg, k, 3);
    hide Reaches;
    ReachStamped(cfg, k, s1, 2, 2);
    var s2 := Stamped(s1, 2, 2);
    ReachPutBack(cfg, k, s2, 2);
    s := PutBack(s2, 2);
    SearchGoesWrong(s);
  }

  lemma SearchGoesWrong(s: State)
    requires s.cfg.backing == Stack && s.idle == [1, 0, 2] && s.recycled == map[0 := 0, 1 := 1, 2 := 1]
    ensures !OnlyOld(s, 0)
  {
    var c := Content(s);
    assert c[0].recycleTime == 1 && c[1].recycleTime == 0 && c[2].recycleTime == 1;
    hide Content;
    assert Idle.Search(c, 2, 2, 0) == Idle.Search(c, 2, 1, 0) == 1;
    assert Idle.Search(c, 0, 2, 0) == Idle.Search(c, 2, 2, 0);
    assert !Idle.Old(c[0], 0);
  }

  /**
   Expiry hands out expired workers only, in every run and at every time, if and
   only if the container is the ring or the pool has capacity 1 or 2.
   */
  lemma OnlyOldIffRingOrSmall(cfg: Config, k: nat)
    requires cfg.Valid() && k >= 1
    ensures (forall s, t :: Reaches(cfg, k, s) ==> OnlyOld(s, t)) <==> cfg.backing == Ring || 1 <= cfg.capacity <= 2
  {
    hide Reaches, OnlyOld;
    if cfg.backing == Ring || 1 <= cfg.capacity <= 2 {
      forall s, t | Reaches(cfg, k, s) ensures OnlyOld(s, t) {
        ReachableFacts(cfg, k, s);
        hide Inv;
        if cfg.backing == Ring {
          ScanIsOld(s, t);
        } else {
          TwoAreOld(s, t);
        }
      }
    } else {
      var s := FreshWorkerExpires(cfg, k);
    }
  }

  /** And it hands out all of them, if and only if the pool has capacity 1. */
  lemma ExactIffCapacityOne(cfg: Config, k: nat)
    requires cfg.Valid() && k >= 1
    ensures (forall s, t :: Reaches(cfg, k, s) ==> Exactly(s, t)) <==> cfg.capacity == 1
  {
    InOrderIffCapacityOne(cfg, k);
    hide Reaches, Exactly;
    forall s ensures InOrder(s) <==> forall t :: Exactly(s, t) {
      OrderedIffExact(s);
    }
    hide InOrder;
  }

  lemma OrderedIffExact(s: State)
    ensures InOrder(s) <==> forall t :: Exactly(s, t)
  {
    var c := Content(s);
    hide Exactly, Content, Idle.Partitioned, Idle.Sorted;
    forall t ensures Exactly(s, t) <==> Idle.Partitioned(c, t) {
      ExactIffPartitioned(s, t);
    }
    Idle.SortedIffPartitioned(c);
  }

  lemma ExactIffPartitioned(s: State, t: int)
    ensures Exactly(s, t) <==> Idle.Partitioned(Content(s), t)
  {
    hide Content, Idle.Partitioned, Idle.ExactSplit, Idle.Search, Idle.Scan;
    Idle.ExpiryExactIffPartitioned(Content(s), t);
  }
}
