/** What the pool lock protects, and that a Release that has begun can always finish. */
module PoolLock {
  import opened PoolModel
  import opened PoolInvariant
  import opened PoolDrain
  import opened Wrappers

  /** Who takes the step. */
  function ActorOf(e: Step): Option<Actor> {
    if e.SEnter? || e.SLock? || e.SRetrieve? || e.SPark? || e.SWake? || e.SRetry? || e.SRetest? || e.SGet? || e.SLaunch? || e.SSend?
    then Some(Sub(e.i))
    else if ByWorker(e) then Some(Wrk(e.w))
    else if e.CTick? || e.CLock? || e.CExpire? || e.CStop? || e.CRest? then Some(Scav)
    else if e.RClose? || e.RLock? || e.RReset? || e.RDone? then Some(Rel(e.r))
    else None
  }

  predicate Untouched(s: State, s': State) { s'.idle == s.idle && s'.blocking == s.blocking }

  lemma SubHolds(s: State, i: SubId)
    requires Inv(s) && i in s.subs && s.subs[i].HoldsLock()
    ensures s.lock == Some(Sub(i))
  {
    hide OwnerInv, TaskInv;
  }

  lemma TriesHold(s: State, s': State, e: Step)
    requires SubNext(s, s', e) && (e.SRetrieve? || e.SPark? || e.SRetry?)
    ensures e.i in s.subs && s.subs[e.i].HoldsLock()
  {
    hide MoveSub, Refuse, TakeIdle, TooManyBlocked, DetachIndex;
  }

  lemma OthersTouchNothing(s: State, s': State, e: Step)
    requires SubNext(s, s', e) && !e.SRetrieve? && !e.SPark? && !e.SRetry?
    ensures Untouched(s, s')
  {
    hide Moved, Sent, CanSend;
  }

  lemma SubTouches(s: State, s': State, e: Step)
    requires Inv(s) && SubNext(s, s', e)
    ensures Untouched(s, s') || (s.lock.Some? && s.lock == ActorOf(e))
  {
    hide Inv, SubNext, Untouched;
    if e.SRetrieve? || e.SPark? || e.SRetry? {
      TriesHold(s, s', e);
      SubHolds(s, e.i);
    } else {
      OthersTouchNothing(s, s', e);
    }
  }

  lemma WorkerHolds(s: State, w: WorkerId)
    requires Inv(s) && w in s.workers && s.workers[w].pc == HoldsLock
    ensures s.lock == Some(Wrk(w))
  {
    hide OwnerInv, TaskInv;
  }

  lemma OnlyRevertTouches(s: State, s': State, e: Step)
    requires WorkerNext(s, s', e)
    ensures e.WRevert? ==> e.w in s.workers && s.workers[e.w].pc == HoldsLock
    ensures !e.WRevert? ==> Untouched(s, s')
    ensures ByWorker(e)
  {
    hide Moved, Begun, InsertFails;
  }

  lemma WorkerTouches(s: State, s': State, e: Step)
    requires Inv(s) && WorkerNext(s, s', e)
    ensures Untouched(s, s') || (s.lock.Some? && s.lock == ActorOf(e))
  {
    hide Inv, WorkerNext, Untouched;
    OnlyRevertTouches(s, s', e);
    if e.WRevert? {
      WorkerHolds(s, e.w);
    }
  }

  lemma OtherTouches(s: State, s': State, e: Step)
    requires Inv(s) && OtherNext(s, s', e)
    ensures Untouched(s, s') || (s.lock.Some? && s.lock == ActorOf(e))
  {
    hide OwnerInv, TaskInv, Sent, CanSend, Claim;
  }

  /** The idle container and blockingNum change only in a step of the one that holds the lock. */
  lemma LockProtects(cfg: Config, states: seq<State>, steps: seq<Step>, n: nat)
    requires IsRun(cfg, states, steps) && n < |steps|
    requires states[n + 1].idle != states[n].idle || states[n + 1].blocking != states[n].blocking
    ensures states[n].lock.Some? && states[n].lock == ActorOf(steps[n])
  {
    var s, s', e := states[n], states[n + 1], steps[n];
    assert Next(s, s', e);
    RunKeepsInv(cfg, states, steps, n);
    hide Inv, SubNext, WorkerNext, OtherNext, IsRun;
    if SubNext(s, s', e) {
      SubTouches(s, s', e);
    } else if WorkerNext(s, s', e) {
      WorkerTouches(s, s', e);
    } else {
      OtherTouches(s, s', e);
    }
  }

  // ------------------------------------------------------ Release finishes

  lemma Goes(s: State, s': State, e: Step)
    requires Inv(s) && Next(s, s', e)
    ensures Inv(s') && LeadsTo(s, s', [e])
  {
    hide Inv, Next;
    StepKeepsInv(s, s', e);
    OneLeads(s, s', e);
  }

  /** The first idle worker of a reset gets to its receive. */
  lemma FirstArrives(s: State, w: WorkerId) returns (steps: seq<Step>, t: State)
    requires Inv(s) && s.idle != [] && s.idle[0] == w
    ensures LeadsTo(s, t, steps) && Inv(t) && t.idle == s.idle && t.rels == s.rels
    ensures w in t.workers && CanSend(t.cfg.chanCap, t.workers[w])
  {
    IdleFacts(s, w);
    var x := s.workers[w];
    if x.pc == Arriving {
      t := MoveWorker(s, w, x.(pc := Receiving), s.lock, s.running);
      assert WorkerNext(s, t, WArrive(w));
      hide Inv, LeadsTo;
      Goes(s, t, WArrive(w));
      steps := [WArrive(w)];
    } else {
      steps, t := [], s;
      LeadsNowhere(s);
    }
  }

  lemma ResetStops(s: State, r: RelId) returns (t: State)
    requires r in s.rels && s.rels[r] == Resetting && s.idle != [] && s.idle[0] in s.workers
    requires CanSend(s.cfg.chanCap, s.workers[s.idle[0]])
    ensures Next(s, t, RReset(r)) && t.idle == s.idle[1..] && t.rels == s.rels
  {
    hide CanSend, Sent;
    t := s.(workers := s.workers[s.idle[0] := Sent(s.cfg.chanCap, s.workers[s.idle[0]], Stop)], idle := s.idle[1..]);
    assert OtherNext(s, t, RReset(r));
  }

  /** A Release that holds the lock tells the first idle worker to stop. */
  lemma StopsFirst(s: State, r: RelId) returns (steps: seq<Step>, t: State)
    requires Inv(s) && r in s.rels && s.rels[r] == Resetting && s.idle != []
    ensures LeadsTo(s, t, steps) && Inv(t) && t.idle == s.idle[1..] && t.rels == s.rels
  {
    hide Inv, LeadsTo, CanSend, Next;
    var xs, s1 := FirstArrives(s, s.idle[0]);
    t := ResetStops(s1, r);
    Goes(s1, t, RReset(r));
    LeadsToTogether(s, s1, t, xs, [RReset(r)]);
    steps := xs + [RReset(r)];
  }

  /** And so on until none is idle, and it is done. */
  lemma {:induction false} ResetFinishes(s: State, r: RelId) returns (steps: seq<Step>, t: State)
    requires Inv(s) && r in s.rels && s.rels[r] == Resetting
    ensures LeadsTo(s, t, steps) && Inv(t) && t.released && t.rels == s.rels - {r} && t.lock.None?
    decreases |s.idle|
  {
    hide Inv, LeadsTo;
    if s.idle == [] {
      t := s.(rels := s.rels - {r}, lock := None, released := true);
      assert OtherNext(s, t, RDone(r));
      Goes(s, t, RDone(r));
      steps := [RDone(r)];
    } else {
      var xs, s1 := StopsFirst(s, r);
      var ys;
      ys, t := ResetFinishes(s1, r);
      LeadsToTogether(s, s1, t, xs, ys);
      steps := xs + ys;
    }
  }

  lemma ParkFrees(s: State, i: SubId) returns (t: State)
    requires i in s.subs && s.subs[i].LoopTop?
    ensures Next(s, t, SPark(i)) && t.lock.None? && t.rels == s.rels
  {
    t := if TooManyBlocked(s) then Refuse(s, i, None) else MoveSub(s, i, Parked(s.subs[i].m), None, s.blocking + 1);
    assert SubNext(s, t, SPark(i));
  }

  lemma RetrieveFrees(s: State, i: SubId) returns (t: State)
    requires i in s.subs && s.subs[i].Locked? && (s.idle != [] ==> s.idle[DetachIndex(s)] in s.workers)
    ensures Next(s, t, SRetrieve(i)) && t.rels == s.rels && (t.lock.None? || (i in t.subs && t.subs[i].LoopTop?))
  {
    var m := s.subs[i].m;
    t := if s.idle != [] then TakeIdle(s, i, DetachIndex(s), s.blocking)
         else if s.cfg.capacity == -1 || s.cfg.capacity > s.running then MoveSub(s, i, Spawning(m), None, s.blocking)
         else if s.cfg.nonblocking then Refuse(s, i, None)
         else MoveSub(s, i, LoopTop(m), s.lock, s.blocking);
    assert SubNext(s, t, SRetrieve(i));
  }

  lemma RetryFrees(s: State, i: SubId) returns (t: State)
    requires i in s.subs && s.subs[i].Awake? && (s.idle != [] ==> s.idle[DetachIndex(s)] in s.workers)
    ensures Next(s, t, SRetry(i)) && t.rels == s.rels && (t.lock.None? || (i in t.subs && t.subs[i].LoopTop?))
  {
    var m := s.subs[i].m;
    t := if s.running == 0 then MoveSub(s, i, ZeroSeen(m), None, s.blocking - 1)
         else if s.idle != [] then TakeIdle(s, i, DetachIndex(s), s.blocking - 1)
         else if s.running < s.cfg.capacity then MoveSub(s, i, Spawning(m), None, s.blocking - 1)
         else MoveSub(s, i, LoopTop(m), s.lock, s.blocking - 1);
    assert SubNext(s, t, SRetry(i));
  }

  /** From the middle of retrieveWorker its holder unlocks, or goes to the head of the waiting loop. */
  lemma TryFrees(s: State, i: SubId) returns (e: Step, t: State)
    requires Inv(s) && i in s.subs && (s.subs[i].Locked? || s.subs[i].Awake?)
    ensures Next(s, t, e) && t.rels == s.rels && (t.lock.None? || (i in t.subs && t.subs[i].LoopTop?))
  {
    hide Inv, Next;
    if s.idle != [] {
      IdleFacts(s, s.idle[DetachIndex(s)]);
    }
    if s.subs[i].Locked? {
      e := SRetrieve(i);
      t := RetrieveFrees(s, i);
    } else {
      e := SRetry(i);
      t := RetryFrees(s, i);
    }
  }

  lemma SubFrees(s: State, i: SubId) returns (steps: seq<Step>, t: State)
    requires Inv(s) && i in s.subs && s.subs[i].HoldsLock()
    ensures LeadsTo(s, t, steps) && Inv(t) && t.lock.None? && t.rels == s.rels
  {
    hide Inv, Next, LeadsTo;
    var xs: seq<Step>, s1 := [], s;
    LeadsNowhere(s);
    if !s.subs[i].LoopTop? {
      var e;
      e, s1 := TryFrees(s, i);
      Goes(s, s1, e);
      xs := [e];
    }
    if s1.lock.None? && !s.subs[i].LoopTop? {
      steps, t := xs, s1;
    } else {
      t := ParkFrees(s1, i);
      Goes(s1, t, SPark(i));
      LeadsToTogether(s, s1, t, xs, [SPark(i)]);
      steps := xs + [SPark(i)];
    }
  }

  lemma WorkerFrees(s: State, w: WorkerId) returns (t: State)
    requires w in s.workers && s.workers[w].pc == HoldsLock
    ensures Next(s, t, WRevert(w)) && t.lock.None? && t.rels == s.rels
  {
    t := if s.closed || InsertFails(s) then MoveWorker(s, w, s.workers[w].(pc := Exiting), None, s.running)
         else s.(workers := s.workers[w := s.workers[w].(pc := Arriving, owner := Idle)], idle := s.idle + [w], lock := None);
    assert WorkerNext(s, t, WRevert(w));
  }

  lemma ScavFrees(s: State) returns (t: State)
    requires s.scav == Scavenging
    ensures Next(s, t, CExpire(0)) && t.lock.None? && t.rels == s.rels
  {
    t := s.(scav := Stopping(s.idle[..0]), idle := s.idle[0..], workers := Claim(s.workers, s.idle[..0]), lock := None);
    assert OtherNext(s, t, CExpire(0));
  }

  lemma HolderIs(s: State)
    requires Inv(s) && s.lock.Some?
    ensures match s.lock.value
            case Sub(i) => i in s.subs && s.subs[i].HoldsLock()
            case Wrk(w) => w in s.workers && s.workers[w].pc == HoldsLock
            case Rel(r) => r in s.rels && s.rels[r] == Resetting
            case Scav => s.scav == Scavenging
  {
    hide OwnerInv, TaskInv;
  }

  /** Whoever holds the lock can give it back; a Release among them by finishing. */
  lemma LockCanBeFreed(s: State) returns (steps: seq<Step>, t: State)
    requires Inv(s) && s.lock.Some?
    ensures LeadsTo(s, t, steps) && Inv(t) && t.lock.None?
    ensures t.rels == if s.lock.value.Rel? then s.rels - {s.lock.value.r} else s.rels
    ensures s.lock.value.Rel? ==> t.released
  {
    HolderIs(s);
    hide Inv, Next, LeadsTo;
    match s.lock.value
    case Sub(i) => steps, t := SubFrees(s, i);
    case Wrk(w) =>
      t := WorkerFrees(s, w);
      Goes(s, t, WRevert(w));
      steps := [WRevert(w)];
    case Rel(r) => steps, t := ResetFinishes(s, r);
    case Scav =>
      t := ScavFrees(s);
      Goes(s, t, CExpire(0));
      steps := [CExpire(0)];
  }

  /** From every state in which Release has been called it can go on to its end, whoever holds the lock. */
  lemma ReleaseCanFinish(s: State, r: RelId) returns (steps: seq<Step>, t: State)
    requires Inv(s) && r in s.rels
    ensures LeadsTo(s, t, steps) && t.released && r !in t.rels
  {
    hide Next, LeadsTo;
    var xs: seq<Step>, s1 := [], s;
    LeadsNowhere(s);
    if s.lock.Some? {
      xs, s1 := LockCanBeFreed(s);
      if r !in s1.rels {
        steps, t := xs, s1;
        return;
      }
    }
    NobodyResets(s1, r);
    var s2 := s1.(rels := s1.rels[r := Resetting], lock := Some(Rel(r)));
    hide Inv;
    LockGoes(s1, s2, r);
    var ys;
    ys, t := ResetFinishes(s2, r);
    LeadsToTogether(s, s1, s2, xs, [RLock(r)]);
    LeadsToTogether(s, s2, t, xs + [RLock(r)], ys);
    steps := xs + [RLock(r)] + ys;
  }

  lemma NobodyResets(s: State, r: RelId)
    requires Inv(s) && s.lock.None? && r in s.rels
    ensures s.rels[r] == WantReset
  {
    hide OwnerInv, TaskInv;
  }

  lemma LockGoes(s: State, s': State, r: RelId)
    requires Inv(s) && s.lock.None? && r in s.rels && s.rels[r] == WantReset
    requires s' == s.(rels := s.rels[r := Resetting], lock := Some(Rel(r)))
    ensures Inv(s') && LeadsTo(s, s', [RLock(r)])
  {
    hide Inv;
    assert OtherNext(s, s', RLock(r));
    Goes(s, s', RLock(r));
  }
}
