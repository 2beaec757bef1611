/**
 What every step of the pool keeps: the lock discipline, worker ownership, task
 accounting and the counters.  Each invariant is a predicate over the fields it
 mentions, so that a step only has to be considered where it changes them.
 */
module PoolInvariant {
  import opened PoolModel
  import opened Wrappers

  type Workers = map<WorkerId, Worker>
  type Subs = map<SubId, SubPc>

  // ------------------------------------------------------------- the lock

  /** The lock has at most one holder, and the holder is inside a critical section. */
  ghost predicate LockInv(lock: Option<Actor>, subs: Subs, ws: Workers, scav: ScavPc, rels: map<RelId, RelPc>) {
    && (forall i | i in subs :: subs[i].HoldsLock() <==> lock == Some(Sub(i)))
    && (forall w | w in ws :: ws[w].pc == HoldsLock <==> lock == Some(Wrk(w)))
    && (forall r | r in rels :: rels[r] == Resetting <==> lock == Some(Rel(r)))
    && (scav == Scavenging <==> lock == Some(Scav))
    && (lock.Some? ==>
          match lock.value
          case Sub(i) => i in subs
          case Wrk(w) => w in ws
          case Rel(r) => r in rels
          case Scav => true)
  }

  // ------------------------------------------------------------ ownership

  ghost predicate NoDup(ws: seq<WorkerId>) { forall j, k | 0 <= j < k < |ws| :: ws[j] != ws[k] }

  /** What a worker's own record allows, by owner. */
  ghost predicate WorkerOk(x: Worker) {
    && |x.chan| <= 1
    && (x.chan != [] ==> x.pc.Ready() && x.owner == Self)
    && (x.owner == Idle || x.owner == ByScav ==> x.pc.Ready())
    && (x.owner.BySub? ==> x.pc.Ready() || x.pc == Taken)
    && (x.owner == Self ==> x.pc != Taken && (x.pc.Ready() ==> x.chan != []))
  }

  ghost predicate WorkersOk(ws: Workers) { forall w | w in ws :: WorkerOk(ws[w]) }

  /** The list holds exactly the workers of that owner. */
  ghost predicate Owned(ws: Workers, list: seq<WorkerId>, o: Owner) {
    NoDup(list) && forall w :: w in list <==> w in ws && ws[w].owner == o
  }

  ghost predicate SubOwns(ws: Workers, i: SubId, pc: SubPc) {
    pc.Launching? || pc.Sending? ==>
      pc.w in ws && ws[pc.w].owner == BySub(i) && (pc.Launching? <==> ws[pc.w].pc == Taken)
  }

  ghost predicate SubsOwn(ws: Workers, subs: Subs) { forall i | i in subs :: SubOwns(ws, i, subs[i]) }

  ghost predicate KnownOwner(subs: Subs, w: WorkerId, o: Owner) { o.BySub? ==> o.i in subs && subs[o.i].Has(w) }

  ghost predicate KnownOwners(ws: Workers, subs: Subs) { forall w | w in ws :: KnownOwner(subs, w, ws[w].owner) }

  /** The owner recorded for a worker is where the worker really is. */
  ghost predicate OwnerInv(ws: Workers, idle: seq<WorkerId>, exp: seq<WorkerId>, subs: Subs) {
    WorkersOk(ws) && Owned(ws, idle, Idle) && Owned(ws, exp, ByScav) && SubsOwn(ws, subs) && KnownOwners(ws, subs)
  }

  // ------------------------------------------------------ task accounting

  ghost predicate PlaceOk(t: TaskId, p: Place, n: nat, subs: Subs, ws: Workers) {
    match p
    case WithSub(i) => i in subs && subs[i].m == Task(t) && n == 0
    case InChan(w) => w in ws && ws[w].chan == [Task(t)] && n == 0
    case OnWorker(w) => w in ws && ws[w].pc == Executing(t) && n == 1
    case Done => n == 1
    case Refused => n == 0
  }

  ghost predicate SubPlaced(place: map<TaskId, Place>, i: SubId, m: Msg) {
    m.Task? ==> m.id in place && place[m.id] == WithSub(i)
  }

  ghost predicate SubsPlaced(place: map<TaskId, Place>, subs: Subs) {
    forall i | i in subs :: SubPlaced(place, i, subs[i].m)
  }

  ghost predicate WorkerPlaced(place: map<TaskId, Place>, w: WorkerId, x: Worker) {
    && (x.chan != [] && x.chan[0].Task? ==> x.chan[0].id in place && place[x.chan[0].id] == InChan(w))
    && (x.pc.Executing? ==> x.pc.t in place && place[x.pc.t] == OnWorker(w))
  }

  ghost predicate WorkersPlaced(place: map<TaskId, Place>, ws: Workers) {
    forall w | w in ws :: WorkerPlaced(place, w, ws[w])
  }

  ghost predicate PlacesOk(place: map<TaskId, Place>, started: multiset<TaskId>, subs: Subs, ws: Workers) {
    && (forall t | t in place :: PlaceOk(t, place[t], started[t], subs, ws))
    && (forall t | t in started :: t in place)
  }

  /** The place recorded for a task is where it really is. */
  ghost predicate TaskInv(place: map<TaskId, Place>, started: multiset<TaskId>, subs: Subs, ws: Workers) {
    SubsPlaced(place, subs) && WorkersPlaced(place, ws) && PlacesOk(place, started, subs, ws)
  }

  // ------------------------------------------------------------- counters

  ghost function LiveWorkers(ws: Workers): set<WorkerId> { set w | w in ws && ws[w].pc.Live() }

  ghost function Waiters(subs: Subs): set<SubId> { set i | i in subs && subs[i].Waiting() }

  ghost function Spawners(subs: Subs): set<SubId> { set i | i in subs && subs[i].Authorised() }

  ghost predicate BlockingOk(n: int, max: int) { max != 0 && n > 0 ==> n <= max }

  ghost predicate CloseInv(s: State) {
    && (s.rels != map[] ==> s.closed)
    && (s.released ==> s.closed && s.idle == [])
  }

  ghost predicate Inv(s: State) {
    && s.cfg.Valid()
    && LockInv(s.lock, s.subs, s.workers, s.scav, s.rels)
    && OwnerInv(s.workers, s.idle, s.Expired(), s.subs)
    && TaskInv(s.place, s.started, s.subs, s.workers)
    && s.running == |LiveWorkers(s.workers)|
    && s.blocking == |Waiters(s.subs)|
    && BlockingOk(s.blocking, s.cfg.maxBlocking)
    && CloseInv(s)
  }

  lemma InitInv(cfg: Config)
    requires cfg.Valid()
    ensures Inv(Init(cfg))
  {
  }

  // ------------------------------------------ ownership changes, one by one

  /** A submitter that has no worker moves, enters or leaves. */
  lemma OwnerSubMove(ws: Workers, idle: seq<WorkerId>, exp: seq<WorkerId>, subs: Subs, subs': Subs, i: SubId)
    requires OwnerInv(ws, idle, exp, subs)
    requires subs' - {i} == subs - {i}
    requires i in subs ==> !subs[i].Launching? && !subs[i].Sending?
    requires i in subs' ==> !subs'[i].Launching? && !subs'[i].Sending?
    ensures OwnerInv(ws, idle, exp, subs')
  {
    assert forall j | j != i :: j in subs' <==> j in subs' - {i};
    assert forall j | j != i :: j in subs <==> j in subs - {i};
    assert forall j | j in subs' && j != i :: subs'[j] == (subs' - {i})[j] == subs[j];
  }

  /** A worker that owns itself moves on. */
  lemma OwnerSelf(ws: Workers, idle: seq<WorkerId>, exp: seq<WorkerId>, subs: Subs, w: WorkerId, x: Worker)
    requires OwnerInv(ws, idle, exp, subs)
    requires w in ws && ws[w].owner == Self && x.owner == Self && WorkerOk(x)
    ensures OwnerInv(ws[w := x], idle, exp, subs)
  {
  }

  lemma RemoveAt(ws: seq<WorkerId>, k: nat)
    requires NoDup(ws) && k < |ws|
    ensures NoDup(ws[..k] + ws[k + 1..])
    ensures forall w :: w in ws[..k] + ws[k + 1..] <==> w in ws && w != ws[k]
  {
    var r := ws[..k] + ws[k + 1..];
    forall w ensures w in r <==> w in ws && w != ws[k] {
      if w in ws && w != ws[k] {
        var j :| 0 <= j < |ws| && ws[j] == w;
        assert r[if j < k then j else j - 1] == w;
      }
    }
  }

  /** A submitter takes the idle worker w. */
  lemma OwnerTake(ws: Workers, idle: seq<WorkerId>, idle': seq<WorkerId>, exp: seq<WorkerId>, subs: Subs,
                  i: SubId, w: WorkerId, pc: SubPc)
    requires OwnerInv(ws, idle, exp, subs)
    requires w in idle && NoDup(idle') && forall v :: v in idle' <==> v in idle && v != w
    requires i in subs && !subs[i].Launching? && !subs[i].Sending? && pc.Sending? && pc.w == w
    ensures w in ws
    ensures OwnerInv(ws[w := ws[w].(owner := BySub(i))], idle', exp, subs[i := pc])
  {
  }

  /** A worker puts itself back. */
  lemma OwnerRevert(ws: Workers, idle: seq<WorkerId>, exp: seq<WorkerId>, subs: Subs, w: WorkerId)
    requires OwnerInv(ws, idle, exp, subs)
    requires w in ws && ws[w].owner == Self && ws[w].pc == HoldsLock
    ensures OwnerInv(ws[w := ws[w].(pc := Arriving, owner := Idle)], idle + [w], exp, subs)
  {
  }

  /** The scavenger takes the n oldest idle workers. */
  lemma OwnerExpire(ws: Workers, idle: seq<WorkerId>, subs: Subs, n: nat)
    requires OwnerInv(ws, idle, [], subs) && n <= |idle|
    ensures OwnerInv(Claim(ws, idle[..n]), idle[n..], idle[..n], subs)
  {
    forall w ensures w in idle <==> w in idle[..n] || w in idle[n..] {
      assert idle == idle[..n] + idle[n..];
    }
  }

  /** Stop goes to the first worker of `exp`, which then owns itself. */
  lemma OwnerStopExpired(ws: Workers, idle: seq<WorkerId>, exp: seq<WorkerId>, subs: Subs, x: Worker)
    requires OwnerInv(ws, idle, exp, subs) && exp != [] && x.owner == Self && WorkerOk(x)
    ensures OwnerInv(ws[exp[0] := x], idle, exp[1..], subs)
  {
    hide WorkerOk;
    RemoveAt(exp, 0);
    assert exp[..0] + exp[1..] == exp[1..];
    assert exp[0] in exp;
  }

  lemma OwnerReset(ws: Workers, idle: seq<WorkerId>, exp: seq<WorkerId>, subs: Subs, x: Worker)
    requires OwnerInv(ws, idle, exp, subs) && idle != [] && x.owner == Self && WorkerOk(x)
    ensures OwnerInv(ws[idle[0] := x], idle[1..], exp, subs)
  {
    hide WorkerOk;
    RemoveAt(idle, 0);
    assert idle[..0] + idle[1..] == idle[1..];
    assert idle[0] in idle;
  }

  /** A submitter takes a cached or new worker. */
  lemma OwnerGet(ws: Workers, idle: seq<WorkerId>, exp: seq<WorkerId>, subs: Subs, i: SubId, w: WorkerId, pc: SubPc)
    requires OwnerInv(ws, idle, exp, subs)
    requires i in subs && !subs[i].Launching? && !subs[i].Sending? && pc.Launching? && pc.w == w
    requires w in ws ==> ws[w].pc == Cached
    ensures OwnerInv(ws[w := Worker(Taken, [], BySub(i))], idle, exp, subs[i := pc])
  {
  }

  lemma OwnerLaunch(ws: Workers, idle: seq<WorkerId>, exp: seq<WorkerId>, subs: Subs, i: SubId, pc: SubPc)
    requires OwnerInv(ws, idle, exp, subs)
    requires i in subs && subs[i].Launching? && pc.Sending? && pc.w == subs[i].w
    ensures subs[i].w in ws
    ensures OwnerInv(ws[subs[i].w := ws[subs[i].w].(pc := Arriving)], idle, exp, subs[i := pc])
  {
  }

  /** A worker gets to its receive, whoever owns it. */
  lemma OwnerArrive(ws: Workers, idle: seq<WorkerId>, exp: seq<WorkerId>, subs: Subs, w: WorkerId)
    requires OwnerInv(ws, idle, exp, subs) && w in ws && ws[w].pc == Arriving
    ensures OwnerInv(ws[w := ws[w].(pc := Receiving)], idle, exp, subs)
  {
  }

  /** A submitter sends, and its worker owns itself. */
  lemma OwnerSend(ws: Workers, idle: seq<WorkerId>, exp: seq<WorkerId>, subs: Subs, i: SubId, x: Worker)
    requires OwnerInv(ws, idle, exp, subs)
    requires i in subs && subs[i].Sending? && x.owner == Self && WorkerOk(x)
    ensures OwnerInv(ws[subs[i].w := x], idle, exp, subs - {i})
  {
  }

  // ------------------------------------------------ task moves, one by one

  ghost predicate Idles(x: Worker) { !x.pc.Executing? && (x.chan == [] || x.chan[0].Stop?) }

  lemma TaskSubMove(place: map<TaskId, Place>, started: multiset<TaskId>, subs: Subs, ws: Workers, i: SubId, pc: SubPc)
    requires TaskInv(place, started, subs, ws) && i in subs && pc.m == subs[i].m
    ensures TaskInv(place, started, subs[i := pc], ws)
  {
  }

  /** A worker without a task stays without one. */
  lemma TaskIdles(place: map<TaskId, Place>, started: multiset<TaskId>, subs: Subs, ws: Workers, w: WorkerId, x: Worker)
    requires TaskInv(place, started, subs, ws) && (w in ws ==> Idles(ws[w])) && Idles(x)
    ensures TaskInv(place, started, subs, ws[w := x])
  {
  }

  /** A worker keeps its channel and does not execute. */
  lemma TaskArrive(place: map<TaskId, Place>, started: multiset<TaskId>, subs: Subs, ws: Workers, w: WorkerId)
    requires TaskInv(place, started, subs, ws) && w in ws && ws[w].pc == Arriving
    ensures TaskInv(place, started, subs, ws[w := ws[w].(pc := Receiving)])
  {
  }

  lemma TaskClaim(place: map<TaskId, Place>, started: multiset<TaskId>, subs: Subs, ws: Workers, taken: seq<WorkerId>)
    requires TaskInv(place, started, subs, ws)
    ensures TaskInv(place, started, subs, Claim(ws, taken))
  {
  }

  lemma TaskEnter(place: map<TaskId, Place>, started: multiset<TaskId>, subs: Subs, ws: Workers, i: SubId, pc: SubPc)
    requires TaskInv(place, started, subs, ws) && i !in subs && (pc.m.Task? ==> pc.m.id !in place)
    ensures TaskInv(Moved(place, pc.m, WithSub(i)), started, subs[i := pc], ws)
  {
  }

  lemma TaskRefuse(place: map<TaskId, Place>, started: multiset<TaskId>, subs: Subs, ws: Workers, i: SubId)
    requires TaskInv(place, started, subs, ws) && i in subs
    ensures TaskInv(Moved(place, subs[i].m, Refused), started, subs - {i}, ws)
  {
  }

  /** A task that is nowhere goes into the channel of a worker without one. */
  lemma TaskQueue(place: map<TaskId, Place>, started: multiset<TaskId>, subs: Subs, ws: Workers,
                  t: TaskId, w: WorkerId, x: Worker)
    requires TaskInv(place, started, subs, ws) && t in place && place[t] == Refused
    requires w in ws && Idles(ws[w]) && x.chan == [Task(t)] && !x.pc.Executing?
    ensures TaskInv(place[t := InChan(w)], started, subs, ws[w := x])
  {
    forall u | u in place && u != t ensures PlaceOk(u, place[u], started[u], subs, ws[w := x]) {
      assert PlaceOk(u, place[u], started[u], subs, ws);
    }
    assert PlaceOk(t, Refused, started[t], subs, ws);
  }

  lemma TaskStart(place: map<TaskId, Place>, started: multiset<TaskId>, subs: Subs, ws: Workers, t: TaskId, w: WorkerId)
    requires TaskInv(place, started, subs, ws) && t in place && place[t] == Refused && w in ws && Idles(ws[w])
    ensures TaskInv(place[t := OnWorker(w)], started + multiset{t}, subs, ws[w := Worker(Executing(t), [], Self)])
  {
  }

  /** A submitter's message goes to a worker without a task, into the channel or by hand-over. */
  lemma TaskSend(place: map<TaskId, Place>, started: multiset<TaskId>, subs: Subs, ws: Workers,
                 i: SubId, w: WorkerId, cap: nat)
    requires TaskInv(place, started, subs, ws) && i in subs && w in ws && Idles(ws[w]) && ws[w].chan == []
    ensures var m := subs[i].m;
            TaskInv(Moved(place, m, if cap == 0 then OnWorker(w) else InChan(w)),
                    if m.Task? && cap == 0 then started + multiset{m.id} else started,
                    subs - {i}, ws[w := Sent(cap, ws[w], m)])
  {
    var m := subs[i].m;
    TaskRefuse(place, started, subs, ws, i);
    var place' := Moved(place, m, Refused);
    if m.Stop? {
      TaskIdles(place', started, subs - {i}, ws, w, Sent(cap, ws[w], m));
    } else if cap == 0 {
      TaskStart(place', started, subs - {i}, ws, m.id, w);
      assert place'[m.id := OnWorker(w)] == place[m.id := OnWorker(w)];
    } else {
      TaskQueue(place', started, subs - {i}, ws, m.id, w, Sent(cap, ws[w], m));
      assert place'[m.id := InChan(w)] == place[m.id := InChan(w)];
    }
  }

  lemma TaskReceive(place: map<TaskId, Place>, started: multiset<TaskId>, subs: Subs, ws: Workers, w: WorkerId)
    requires TaskInv(place, started, subs, ws) && w in ws && |ws[w].chan| == 1 && !ws[w].pc.Executing?
    ensures var m := ws[w].chan[0];
            TaskInv(Moved(place, m, OnWorker(w)), if m.Task? then started + multiset{m.id} else started,
                    subs, ws[w := Begun(m)])
  {
    var m := ws[w].chan[0];
    if m.Stop? {
      TaskIdles(place, started, subs, ws, w, Begun(m));
    } else {
      var x := ws[w].(chan := []);
      TaskUnqueue(place, started, subs, ws, w, x);
      TaskStart(place[m.id := Refused], started, subs, ws[w := x], m.id, w);
      hide TaskInv;
      assert place[m.id := Refused][m.id := OnWorker(w)] == place[m.id := OnWorker(w)];
      assert ws[w := x][w := Begun(m)] == ws[w := Begun(m)];
    }
  }

  /** A queued task is taken out. */
  lemma TaskUnqueue(place: map<TaskId, Place>, started: multiset<TaskId>, subs: Subs, ws: Workers, w: WorkerId, x: Worker)
    requires TaskInv(place, started, subs, ws) && w in ws && |ws[w].chan| == 1 && !ws[w].pc.Executing?
    requires ws[w].chan[0].Task? && Idles(x)
    ensures TaskInv(place[ws[w].chan[0].id := Refused], started, subs, ws[w := x])
  {
  }

  lemma TaskFinish(place: map<TaskId, Place>, started: multiset<TaskId>, subs: Subs, ws: Workers, w: WorkerId, x: Worker)
    requires TaskInv(place, started, subs, ws) && w in ws && ws[w].pc.Executing? && ws[w].chan == [] && Idles(x)
    ensures TaskInv(place[ws[w].pc.t := Done], started, subs, ws[w := x])
  {
  }

  // ------------------------------------------------- counters, one by one

  lemma LiveUpdate(ws: Workers, w: WorkerId, x: Worker)
    ensures var was, will := w in ws && ws[w].pc.Live(), x.pc.Live();
            |LiveWorkers(ws[w := x])| == |LiveWorkers(ws)| + (if will then 1 else 0) - (if was then 1 else 0)
  {
    if x.pc.Live() {
      assert LiveWorkers(ws[w := x]) == LiveWorkers(ws) + {w};
    } else {
      assert LiveWorkers(ws[w := x]) == LiveWorkers(ws) - {w};
    }
  }

  lemma WaitersUpdate(subs: Subs, i: SubId, pc: SubPc)
    ensures var was, will := i in subs && subs[i].Waiting(), pc.Waiting();
            |Waiters(subs[i := pc])| == |Waiters(subs)| + (if will then 1 else 0) - (if was then 1 else 0)
  {
    if pc.Waiting() {
      assert Waiters(subs[i := pc]) == Waiters(subs) + {i};
    } else {
      assert Waiters(subs[i := pc]) == Waiters(subs) - {i};
    }
  }

  lemma WaitersLeave(subs: Subs, i: SubId)
    requires i in subs && !subs[i].Waiting()
    ensures Waiters(subs - {i}) == Waiters(subs)
  {
  }

  // ------------------------------------------------- the lock, one by one

  /** a keeps, takes or releases the lock. */
  ghost predicate LockMove(lock: Option<Actor>, lock': Option<Actor>, a: Actor) {
    lock' == lock || (lock == None && lock' == Some(a)) || (lock == Some(a) && lock' == None)
  }

  lemma LockSubMove(lock: Option<Actor>, lock': Option<Actor>, subs: Subs, subs': Subs, ws: Workers,
                    scav: ScavPc, rels: map<RelId, RelPc>, i: SubId)
    requires LockInv(lock, subs, ws, scav, rels) && LockMove(lock, lock', Sub(i)) && subs' - {i} == subs - {i}
    requires lock' == Some(Sub(i)) <==> i in subs' && subs'[i].HoldsLock()
    ensures LockInv(lock', subs', ws, scav, rels)
  {
    assert forall j | j != i :: j in subs' <==> j in subs' - {i};
    assert forall j | j != i :: j in subs <==> j in subs - {i};
    assert forall j | j in subs' && j != i :: subs'[j] == (subs' - {i})[j] == subs[j];
  }

  lemma LockWorkerMove(lock: Option<Actor>, lock': Option<Actor>, subs: Subs, ws: Workers, w: WorkerId, x: Worker,
                       scav: ScavPc, rels: map<RelId, RelPc>)
    requires LockInv(lock, subs, ws, scav, rels) && LockMove(lock, lock', Wrk(w))
    requires lock' == Some(Wrk(w)) <==> x.pc == HoldsLock
    ensures LockInv(lock', subs, ws[w := x], scav, rels)
  {
  }

  lemma LockScavMove(lock: Option<Actor>, subs: Subs, ws: Workers, scav: ScavPc, scav': ScavPc, rels: map<RelId, RelPc>)
    requires LockInv(lock, subs, ws, scav, rels) && (scav == Scavenging <==> scav' == Scavenging)
    ensures LockInv(lock, subs, ws, scav', rels)
  {
  }

  // ------------------------------------------- effects keep the invariant

  /** A worker that is neither waiting for a message nor about to be launched owns itself. */
  lemma OwnsItself(s: State, w: WorkerId)
    requires Inv(s) && w in s.workers
    ensures var x := s.workers[w];
            && |x.chan| <= 1
            && (x.chan != [] ==> x.pc.Ready() && x.owner == Self)
            && (!x.pc.Ready() && x.pc != Taken ==> x.owner == Self)
            && (x.pc == HoldsLock <==> s.lock == Some(Wrk(w)))
  {
  }

  lemma SubFacts(s: State, i: SubId)
    requires Inv(s) && i in s.subs
    ensures s.subs[i].HoldsLock() <==> s.lock == Some(Sub(i))
    ensures s.subs[i].Launching? || s.subs[i].Sending? ==> s.subs[i].w in s.workers
    ensures s.subs[i].Sending? ==>
              var x := s.workers[s.subs[i].w]; x.pc.Ready() && x.chan == [] && x.owner == BySub(i)
    ensures s.subs[i].Launching? ==> s.workers[s.subs[i].w] == Worker(Taken, [], BySub(i))
  {
  }

  /** An idle worker, or one the scavenger holds, is at or near its receive with an empty channel. */
  lemma IdleFacts(s: State, w: WorkerId)
    requires Inv(s) && (w in s.idle || w in s.Expired())
    ensures w in s.workers && s.workers[w].pc.Ready() && s.workers[w].chan == []
    ensures s.workers[w].owner == if w in s.idle then Idle else ByScav
    ensures NoDup(s.idle)
  {
  }

  lemma KeptByMoveSub(s: State, i: SubId, pc: SubPc, lock: Option<Actor>, blocking: int)
    requires Inv(s) && i in s.subs && pc.m == s.subs[i].m
    requires !s.subs[i].Launching? && !s.subs[i].Sending? && !pc.Launching? && !pc.Sending?
    requires LockMove(s.lock, lock, Sub(i)) && (lock == Some(Sub(i)) <==> pc.HoldsLock())
    requires blocking == s.blocking + (if pc.Waiting() then 1 else 0) - (if s.subs[i].Waiting() then 1 else 0)
    requires blocking <= s.blocking || !TooManyBlocked(s)
    ensures Inv(MoveSub(s, i, pc, lock, blocking))
  {
    hide LockInv, OwnerInv, TaskInv;
    var subs' := s.subs[i := pc];
    LockSubMove(s.lock, lock, s.subs, subs', s.workers, s.scav, s.rels, i);
    OwnerSubMove(s.workers, s.idle, s.Expired(), s.subs, subs', i);
    TaskSubMove(s.place, s.started, s.subs, s.workers, i, pc);
    WaitersUpdate(s.subs, i, pc);
    WaitersUpdate(s.subs, i, s.subs[i]);
  }

  lemma NewcomerHasNoLock(s: State, i: SubId)
    requires Inv(s) && i !in s.subs
    ensures s.lock != Some(Sub(i))
  {
    hide OwnerInv, TaskInv;
  }

  lemma KeptByEnter(s: State, s': State, i: SubId, m: Msg)
    requires Inv(s) && Enter(s, s', i, m)
    ensures Inv(s')
  {
    hide LockInv, OwnerInv, TaskInv, LiveWorkers, Waiters, Moved;
    NewcomerHasNoLock(s, i);
    LockSubMove(s.lock, s.lock, s.subs, s'.subs, s.workers, s.scav, s.rels, i);
    OwnerSubMove(s.workers, s.idle, s.Expired(), s.subs, s'.subs, i);
    TaskEnter(s.place, s.started, s.subs, s.workers, i, Entered(m));
    WaitersUpdate(s.subs, i, Entered(m));
  }

  lemma KeptByRefuse(s: State, i: SubId, lock: Option<Actor>)
    requires Inv(s) && i in s.subs && !s.subs[i].Launching? && !s.subs[i].Sending? && !s.subs[i].Waiting()
    requires LockMove(s.lock, lock, Sub(i)) && lock != Some(Sub(i))
    ensures Inv(Refuse(s, i, lock))
  {
    hide LockInv, OwnerInv, TaskInv;
    LockSubMove(s.lock, lock, s.subs, s.subs - {i}, s.workers, s.scav, s.rels, i);
    OwnerSubMove(s.workers, s.idle, s.Expired(), s.subs, s.subs - {i}, i);
    TaskRefuse(s.place, s.started, s.subs, s.workers, i);
    WaitersLeave(s.subs, i);
  }

  lemma KeptByTakeIdle(s: State, i: SubId, k: nat, blocking: int)
    requires Inv(s) && i in s.subs && s.subs[i].HoldsLock() && k < |s.idle| && s.idle[k] in s.workers
    requires blocking == s.blocking - if s.subs[i].Waiting() then 1 else 0
    ensures Inv(TakeIdle(s, i, k, blocking))
  {
    hide LockInv, OwnerInv, TaskInv;
    var w := s.idle[k];
    SubFacts(s, i);
    IdleFacts(s, w);
    var x, pc, idle' := s.workers[w].(owner := BySub(i)), Sending(s.subs[i].m, w), s.idle[..k] + s.idle[k + 1..];
    LockSubMove(s.lock, None, s.subs, s.subs[i := pc], s.workers, s.scav, s.rels, i);
    LockWorkerMove(None, None, s.subs[i := pc], s.workers, w, x, s.scav, s.rels);
    RemoveAt(s.idle, k);
    OwnerTake(s.workers, s.idle, idle', s.Expired(), s.subs, i, w, pc);
    TaskSubMove(s.place, s.started, s.subs, s.workers, i, pc);
    TaskIdles(s.place, s.started, s.subs[i := pc], s.workers, w, x);
    WaitersUpdate(s.subs, i, pc);
    LiveUpdate(s.workers, w, x);
  }

  /** A cached worker, or a new one, has neither the lock nor a task. */
  lemma CachedIsIdle(s: State, w: WorkerId)
    requires Inv(s) && (w in s.workers ==> s.workers[w].pc == Cached)
    ensures s.lock != Some(Wrk(w)) && (w in s.workers ==> Idles(s.workers[w]))
  {
    hide TaskInv;
    if w in s.workers {
      OwnsItself(s, w);
    }
  }

  lemma KeptByGet(s: State, s': State, i: SubId, w: WorkerId)
    requires Inv(s) && Get(s, s', i, w)
    ensures Inv(s')
  {
    hide LockInv, OwnerInv, TaskInv;
    SubFacts(s, i);
    CachedIsIdle(s, w);
    var x, pc := Worker(Taken, [], BySub(i)), Launching(s.subs[i].m, w);
    LockSubMove(s.lock, s.lock, s.subs, s'.subs, s.workers, s.scav, s.rels, i);
    LockWorkerMove(s.lock, s.lock, s'.subs, s.workers, w, x, s.scav, s.rels);
    OwnerGet(s.workers, s.idle, s.Expired(), s.subs, i, w, pc);
    TaskSubMove(s.place, s.started, s.subs, s.workers, i, pc);
    TaskIdles(s.place, s.started, s'.subs, s.workers, w, x);
    WaitersUpdate(s.subs, i, pc);
    LiveUpdate(s.workers, w, x);
  }

  lemma KeptByLaunch(s: State, s': State, i: SubId)
    requires Inv(s) && Launch(s, s', i)
    ensures Inv(s')
  {
    hide LockInv, OwnerInv, TaskInv;
    var w := s.subs[i].w;
    SubFacts(s, i);
    OwnsItself(s, w);
    var x, pc := s'.workers[w], s'.subs[i];
    LockSubMove(s.lock, s.lock, s.subs, s'.subs, s.workers, s.scav, s.rels, i);
    LockWorkerMove(s.lock, s.lock, s'.subs, s.workers, w, x, s.scav, s.rels);
    OwnerLaunch(s.workers, s.idle, s.Expired(), s.subs, i, pc);
    TaskSubMove(s.place, s.started, s.subs, s.workers, i, pc);
    TaskIdles(s.place, s.started, s'.subs, s.workers, w, x);
    WaitersUpdate(s.subs, i, pc);
    LiveUpdate(s.workers, w, x);
  }

  lemma KeptBySend(s: State, s': State, i: SubId)
    requires Inv(s) && SendTask(s, s', i)
    ensures Inv(s')
  {
    hide LockInv, OwnerInv, TaskInv;
    var w := s.subs[i].w;
    SubFacts(s, i);
    OwnsItself(s, w);
    var x := s'.workers[w];
    LockSubMove(s.lock, s.lock, s.subs, s'.subs, s.workers, s.scav, s.rels, i);
    LockWorkerMove(s.lock, s.lock, s'.subs, s.workers, w, x, s.scav, s.rels);
    OwnerSend(s.workers, s.idle, s.Expired(), s.subs, i, x);
    TaskSend(s.place, s.started, s.subs, s.workers, i, w, s.cfg.chanCap);
    WaitersLeave(s.subs, i);
    LiveUpdate(s.workers, w, x);
  }

  lemma KeptByMoveWorker(s: State, w: WorkerId, x: Worker, lock: Option<Actor>, running: int)
    requires Inv(s) && w in s.workers && s.workers[w].owner == Self && x.owner == Self && WorkerOk(x)
    requires Idles(s.workers[w]) && Idles(x)
    requires LockMove(s.lock, lock, Wrk(w)) && (lock == Some(Wrk(w)) <==> x.pc == HoldsLock)
    requires running == s.running + (if x.pc.Live() then 1 else 0) - (if s.workers[w].pc.Live() then 1 else 0)
    ensures Inv(MoveWorker(s, w, x, lock, running))
  {
    hide LockInv, OwnerInv, TaskInv;
    LockWorkerMove(s.lock, lock, s.subs, s.workers, w, x, s.scav, s.rels);
    OwnerSelf(s.workers, s.idle, s.Expired(), s.subs, w, x);
    TaskIdles(s.place, s.started, s.subs, s.workers, w, x);
    LiveUpdate(s.workers, w, x);
  }

  lemma KeptByArrive(s: State, s': State, w: WorkerId)
    requires Inv(s) && Arrive(s, s', w)
    ensures Inv(s')
  {
    OwnsItself(s, w);
    hide LockInv, OwnerInv, TaskInv;
    var x := s'.workers[w];
    LockWorkerMove(s.lock, s.lock, s.subs, s.workers, w, x, s.scav, s.rels);
    OwnerArrive(s.workers, s.idle, s.Expired(), s.subs, w);
    TaskArrive(s.place, s.started, s.subs, s.workers, w);
    LiveUpdate(s.workers, w, x);
  }

  lemma KeptByStamp(s: State, s': State, w: WorkerId)
    requires Inv(s) && Stamp(s, s', w)
    ensures Inv(s')
  {
    OwnsItself(s, w);
    KeptByMoveWorker(s, w, s.workers[w].(pc := WantLock), s.lock, s.running);
    hide LockInv, OwnerInv, TaskInv;
  }

  lemma KeptByReceive(s: State, s': State, w: WorkerId)
    requires Inv(s) && Receive(s, s', w)
    ensures Inv(s')
  {
    hide LockInv, OwnerInv, TaskInv;
    OwnsItself(s, w);
    var x := s'.workers[w];
    LockWorkerMove(s.lock, s.lock, s.subs, s.workers, w, x, s.scav, s.rels);
    OwnerSelf(s.workers, s.idle, s.Expired(), s.subs, w, x);
    TaskReceive(s.place, s.started, s.subs, s.workers, w);
    LiveUpdate(s.workers, w, x);
  }

  lemma KeptByTaskEnds(s: State, s': State, w: WorkerId, quits: bool)
    requires Inv(s) && TaskEnds(s, s', w, quits)
    ensures Inv(s')
  {
    hide LockInv, OwnerInv, TaskInv;
    OwnsItself(s, w);
    var x := s'.workers[w];
    LockWorkerMove(s.lock, s.lock, s.subs, s.workers, w, x, s.scav, s.rels);
    OwnerSelf(s.workers, s.idle, s.Expired(), s.subs, w, x);
    TaskFinish(s.place, s.started, s.subs, s.workers, w, x);
    LiveUpdate(s.workers, w, x);
  }

  lemma KeptByRevert(s: State, s': State, w: WorkerId)
    requires Inv(s) && Revert(s, s', w)
    ensures Inv(s')
  {
    hide LockInv, OwnerInv, TaskInv;
    OwnsItself(s, w);
    if s.closed || InsertFails(s) {
      KeptByMoveWorker(s, w, s.workers[w].(pc := Exiting), None, s.running);
    } else {
      var x := s'.workers[w];
      LockWorkerMove(s.lock, None, s.subs, s.workers, w, x, s.scav, s.rels);
      OwnerRevert(s.workers, s.idle, s.Expired(), s.subs, w);
      TaskIdles(s.place, s.started, s.subs, s.workers, w, x);
      LiveUpdate(s.workers, w, x);
    }
  }

  lemma KeptByExpire(s: State, s': State, n: nat)
    requires Inv(s) && Expire(s, s', n)
    ensures Inv(s')
  {
    hide LockInv, OwnerInv, TaskInv, LiveWorkers, Waiters, Claim;
    LockExpire(s.lock, s.subs, s.workers, s.rels, s'.scav, s.idle[..n]);
    OwnerExpire(s.workers, s.idle, s.subs, n);
    TaskClaim(s.place, s.started, s.subs, s.workers, s.idle[..n]);
    LiveClaim(s.workers, s.idle[..n]);
  }

  /** The scavenger lets the lock go with the workers it takes. */
  lemma LockExpire(lock: Option<Actor>, subs: Subs, ws: Workers, rels: map<RelId, RelPc>, scav: ScavPc, taken: seq<WorkerId>)
    requires LockInv(lock, subs, ws, Scavenging, rels) && scav != Scavenging
    ensures LockInv(None, subs, Claim(ws, taken), scav, rels)
  {
  }

  lemma LiveClaim(ws: Workers, taken: seq<WorkerId>)
    ensures LiveWorkers(Claim(ws, taken)) == LiveWorkers(ws)
  {
  }

  lemma KeptByStopExpired(s: State, s': State)
    requires Inv(s) && StopExpired(s, s')
    ensures Inv(s')
  {
    hide LockInv, OwnerInv, TaskInv;
    var w := s.scav.ws[0];
    IdleFacts(s, w);
    OwnsItself(s, w);
    var x := s'.workers[w];
    LockScavMove(s.lock, s.subs, s.workers, s.scav, s'.scav, s.rels);
    LockWorkerMove(s.lock, s.lock, s.subs, s.workers, w, x, s'.scav, s.rels);
    OwnerStopExpired(s.workers, s.idle, s.Expired(), s.subs, x);
    TaskIdles(s.place, s.started, s.subs, s.workers, w, x);
    LiveUpdate(s.workers, w, x);
  }

  lemma KeptByReset(s: State, s': State, r: RelId)
    requires Inv(s) && ResetOne(s, s', r)
    ensures Inv(s')
  {
    hide LockInv, OwnerInv, TaskInv;
    var w := s.idle[0];
    IdleFacts(s, w);
    OwnsItself(s, w);
    var x := s'.workers[w];
    LockWorkerMove(s.lock, s.lock, s.subs, s.workers, w, x, s.scav, s.rels);
    OwnerReset(s.workers, s.idle, s.Expired(), s.subs, x);
    TaskIdles(s.place, s.started, s.subs, s.workers, w, x);
    LiveUpdate(s.workers, w, x);
  }

  lemma KeptByTick(s: State, s': State)
    requires Inv(s) && (Tick(s, s') || Rest(s, s') || exists n :: Pass(s, s', n))
    ensures Inv(s')
  {
    hide LockInv, OwnerInv, TaskInv;
    LockScavMove(s.lock, s.subs, s.workers, s.scav, s'.scav, s.rels);
  }

  lemma KeptByScavLock(s: State, s': State)
    requires Inv(s) && ScavLock(s, s')
    ensures Inv(s')
  {
    hide OwnerInv, TaskInv;
  }

  lemma LockRelMove(lock: Option<Actor>, lock': Option<Actor>, subs: Subs, ws: Workers, scav: ScavPc,
                    rels: map<RelId, RelPc>, rels': map<RelId, RelPc>, r: RelId)
    requires LockInv(lock, subs, ws, scav, rels) && LockMove(lock, lock', Rel(r)) && rels' - {r} == rels - {r}
    requires lock' == Some(Rel(r)) <==> r in rels' && rels'[r] == Resetting
    ensures LockInv(lock', subs, ws, scav, rels')
  {
    assert forall q | q != r :: q in rels' <==> q in rels' - {r};
    assert forall q | q != r :: q in rels <==> q in rels - {r};
    assert forall q | q in rels' && q != r :: rels'[q] == (rels' - {r})[q] == rels[q];
  }

  lemma RelFacts(s: State, r: RelId)
    requires Inv(s)
    ensures s.lock == Some(Rel(r)) <==> r in s.rels && s.rels[r] == Resetting
  {
    hide OwnerInv, TaskInv;
  }

  lemma KeptByRelMoves(s: State, s': State, r: RelId)
    requires Inv(s) && (Close(s, s', r) || ResetLock(s, s', r) || ResetDone(s, s', r))
    ensures Inv(s')
  {
    hide LockInv, OwnerInv, TaskInv, LiveWorkers, Waiters;
    RelFacts(s, r);
    assert s'.rels - {r} == s.rels - {r};
    LockRelMove(s.lock, s'.lock, s.subs, s.workers, s.scav, s.rels, s'.rels, r);
  }

  lemma KeptByWorkerMoves(s: State, s': State, w: WorkerId)
    requires Inv(s)
    requires TestCapacity(s, s', w) || TestClosed(s, s', w) || RevertLock(s, s', w)
    ensures Inv(s')
  {
    hide Inv, MoveWorker;
    OwnsItself(s, w);
    if TestCapacity(s, s', w) {
      var pc := if s.cfg.capacity > 0 && s.running > s.cfg.capacity then Exiting else Rechecking;
      KeptByMoveWorker(s, w, s.workers[w].(pc := pc), s.lock, s.running);
    } else if TestClosed(s, s', w) {
      KeptByMoveWorker(s, w, s.workers[w].(pc := if s.closed then Exiting else Stamping), s.lock, s.running);
    } else {
      KeptByMoveWorker(s, w, s.workers[w].(pc := HoldsLock), Some(Wrk(w)), s.running);
    }
  }

  lemma KeptByWorkerExit(s: State, s': State, w: WorkerId)
    requires Inv(s) && (DecRunning(s, s', w) || PutCache(s, s', w))
    ensures Inv(s')
  {
    hide Inv, MoveWorker;
    OwnsItself(s, w);
    if DecRunning(s, s', w) {
      KeptByMoveWorker(s, w, s.workers[w].(pc := Exited), s.lock, s.running - 1);
    } else {
      KeptByMoveWorker(s, w, s.workers[w].(pc := Cached), s.lock, s.running);
    }
  }

  lemma KeptByLocking(s: State, s': State, i: SubId)
    requires Inv(s) && (LockSub(s, s', i) || Wake(s, s', i))
    ensures Inv(s')
  {
    hide Inv, MoveSub;
    SubFacts(s, i);
    if LockSub(s, s', i) {
      KeptByMoveSub(s, i, Locked(s.subs[i].m), Some(Sub(i)), s.blocking);
    } else {
      KeptByMoveSub(s, i, Awake(s.subs[i].m), Some(Sub(i)), s.blocking);
    }
  }

  /** What a submitter does with the lock held: it moves on, gives up, or takes an idle worker. */
  ghost predicate Settles(s: State, s': State, i: SubId, pc: SubPc, lock: Option<Actor>, blocking: int) {
    && i in s.subs
    && (|| s' == MoveSub(s, i, pc, lock, blocking)
        || s' == Refuse(s, i, None)
        || (s.idle != [] && s.idle[DetachIndex(s)] in s.workers && s' == TakeIdle(s, i, DetachIndex(s), blocking)))
  }

  lemma RetrieveSettles(s: State, s': State, i: SubId) returns (pc: SubPc, lock: Option<Actor>)
    requires Retrieve(s, s', i)
    ensures !s.subs[i].Sending? && Settles(s, s', i, pc, lock, s.blocking)
  {
    hide MoveSub, Refuse, TakeIdle;
    pc, lock := LoopTop(s.subs[i].m), s.lock;
    if s.cfg.capacity == -1 || s.cfg.capacity > s.running {
      pc, lock := Spawning(s.subs[i].m), None;
    }
  }

  lemma RetrySettles(s: State, s': State, i: SubId) returns (pc: SubPc, lock: Option<Actor>)
    requires Retry(s, s', i)
    ensures !s.subs[i].Sending? && Settles(s, s', i, pc, lock, s.blocking - 1)
  {
    hide MoveSub, Refuse, TakeIdle;
    pc, lock := LoopTop(s.subs[i].m), s.lock;
    if s.running == 0 {
      pc, lock := ZeroSeen(s.subs[i].m), None;
    } else if s.running < s.cfg.capacity {
      pc, lock := Spawning(s.subs[i].m), None;
    }
  }

  /** Both at once: the blocking count is all that differs. */
  lemma EitherSettles(s: State, s': State, i: SubId) returns (pc: SubPc, lock: Option<Actor>, blocking: int)
    requires Retrieve(s, s', i) || Retry(s, s', i)
    ensures i in s.subs && !s.subs[i].Sending? && Settles(s, s', i, pc, lock, blocking)
  {
    hide Settles;
    if Retrieve(s, s', i) {
      blocking := s.blocking;
      pc, lock := RetrieveSettles(s, s', i);
    } else {
      blocking := s.blocking - 1;
      pc, lock := RetrySettles(s, s', i);
    }
  }

  lemma KeptByRetrieve(s: State, s': State, i: SubId)
    requires Inv(s) && Retrieve(s, s', i)
    ensures Inv(s')
  {
    hide Inv, MoveSub, Refuse, TakeIdle;
    SubFacts(s, i);
    if s.idle != [] {
      KeptByTakeIdle(s, i, DetachIndex(s), s.blocking);
    } else if s.cfg.capacity == -1 || s.cfg.capacity > s.running {
      KeptByMoveSub(s, i, Spawning(s.subs[i].m), None, s.blocking);
    } else if s.cfg.nonblocking {
      KeptByRefuse(s, i, None);
    } else {
      KeptByMoveSub(s, i, LoopTop(s.subs[i].m), s.lock, s.blocking);
    }
  }

  lemma KeptByPark(s: State, s': State, i: SubId)
    requires Inv(s) && Park(s, s', i)
    ensures Inv(s')
  {
    hide Inv, MoveSub, Refuse;
    SubFacts(s, i);
    if TooManyBlocked(s) {
      KeptByRefuse(s, i, None);
    } else {
      KeptByMoveSub(s, i, Parked(s.subs[i].m), None, s.blocking + 1);
    }
  }

  lemma KeptByRetry(s: State, s': State, i: SubId)
    requires Inv(s) && Retry(s, s', i)
    ensures Inv(s')
  {
    hide Inv, MoveSub, TakeIdle;
    SubFacts(s, i);
    if s.running == 0 {
      KeptByMoveSub(s, i, ZeroSeen(s.subs[i].m), None, s.blocking - 1);
    } else if s.idle != [] {
      KeptByTakeIdle(s, i, DetachIndex(s), s.blocking - 1);
    } else if s.running < s.cfg.capacity {
      KeptByMoveSub(s, i, Spawning(s.subs[i].m), None, s.blocking - 1);
    } else {
      KeptByMoveSub(s, i, LoopTop(s.subs[i].m), s.lock, s.blocking - 1);
    }
  }

  lemma KeptByRetest(s: State, s': State, i: SubId)
    requires Inv(s) && RetestClosed(s, s', i)
    ensures Inv(s')
  {
    hide Inv, MoveSub, Refuse;
    SubFacts(s, i);
    if s.closed {
      KeptByRefuse(s, i, s.lock);
    } else {
      KeptByMoveSub(s, i, Spawning(s.subs[i].m), s.lock, s.blocking);
    }
  }

  lemma KeptBySub(s: State, s': State, e: Step)
    requires Inv(s) && SubNext(s, s', e)
    ensures Inv(s')
  {
    hide Inv, Enter, LockSub, Retrieve, Park, Wake, Retry, RetestClosed, Get, Launch, SendTask;
    match e
    case SEnter(i, m) => KeptByEnter(s, s', i, m);
    case SLock(i) => KeptByLocking(s, s', i);
    case SRetrieve(i) => KeptByRetrieve(s, s', i);
    case SPark(i) => KeptByPark(s, s', i);
    case SWake(i) => KeptByLocking(s, s', i);
    case SRetry(i) => KeptByRetry(s, s', i);
    case SRetest(i) => KeptByRetest(s, s', i);
    case SGet(i, w) => KeptByGet(s, s', i, w);
    case SLaunch(i) => KeptByLaunch(s, s', i);
    case SSend(i) => KeptBySend(s, s', i);
  }

  lemma KeptByWorker(s: State, s': State, e: Step)
    requires Inv(s) && WorkerNext(s, s', e)
    ensures Inv(s')
  {
    hide Inv, Arrive, Receive, TaskEnds, TestCapacity, TestClosed, Stamp, RevertLock, Revert, DecRunning, PutCache;
    match e
    case WArrive(w) => KeptByArrive(s, s', w);
    case WReceive(w) => KeptByReceive(s, s', w);
    case WTaskEnds(w, quits) => KeptByTaskEnds(s, s', w, quits);
    case WTestCapacity(w) => KeptByWorkerMoves(s, s', w);
    case WTestClosed(w) => KeptByWorkerMoves(s, s', w);
    case WStamp(w) => KeptByStamp(s, s', w);
    case WRevertLock(w) => KeptByWorkerMoves(s, s', w);
    case WRevert(w) => KeptByRevert(s, s', w);
    case WDecRunning(w) => KeptByWorkerExit(s, s', w);
    case WPutCache(w) => KeptByWorkerExit(s, s', w);
  }

  lemma KeptByOther(s: State, s': State, e: Step)
    requires Inv(s) && OtherNext(s, s', e)
    ensures Inv(s')
  {
    hide Inv, Tick, ScavLock, Expire, StopExpired, Rest, Close, ResetLock, ResetOne, ResetDone, Pass;
    match e
    case CTick => KeptByTick(s, s');
    case CLock => KeptByScavLock(s, s');
    case CExpire(n) => KeptByExpire(s, s', n);
    case CStop => KeptByStopExpired(s, s');
    case CRest => KeptByTick(s, s');
    case TPass(n) => KeptByTick(s, s');
    case RClose(r) => KeptByRelMoves(s, s', r);
    case RLock(r) => KeptByRelMoves(s, s', r);
    case RReset(r) => KeptByReset(s, s', r);
    case RDone(r) => KeptByRelMoves(s, s', r);
  }

  /** Every step keeps the invariant. */
  lemma StepKeepsInv(s: State, s': State, e: Step)
    requires Inv(s) && Next(s, s', e)
    ensures Inv(s')
  {
    hide Inv, SubNext, WorkerNext, OtherNext;
    if SubNext(s, s', e) {
      KeptBySub(s, s', e);
    } else if WorkerNext(s, s', e) {
      KeptByWorker(s, s', e);
    } else {
      KeptByOther(s, s', e);
    }
  }

  // --------------------------------------- what a submitter's step leaves alone

  /** Entering, locking, parking, waking and testing again touch no worker. */
  predicate Stays(e: Step) { e.SEnter? || e.SLock? || e.SPark? || e.SWake? || e.SRetest? }

  ghost predicate SameWorkers(s: State, s': State) {
    s'.workers == s.workers && s'.idle == s.idle && s'.recycled == s.recycled && s'.running == s.running
  }

  lemma EffectsKeepWorkers(s: State, i: SubId)
    ensures forall pc, lock, b :: SameWorkers(s, MoveSub(s, i, pc, lock, b))
    ensures forall lock | i in s.subs :: SameWorkers(s, Refuse(s, i, lock))
  {
    hide Moved;
  }

  lemma WaitKeepsWorkers(s: State, s': State, e: Step)
    requires SubNext(s, s', e) && Stays(e)
    ensures SameWorkers(s, s')
  {
    hide Moved, MoveSub, Refuse, Enter, Retrieve, Retry, Get, Launch, SendTask;
    EffectsKeepWorkers(s, e.i);
    if e.SEnter? {
      EnterKeepsWorkers(s, s', e.i, e.m);
    }
  }

  lemma EnterKeepsWorkers(s: State, s': State, i: SubId, m: Msg)
    requires Enter(s, s', i, m)
    ensures SameWorkers(s, s')
  {
    hide Moved;
  }

  // ------------------------------------------------- a worker's step in itself

  predicate ByWorker(e: Step) {
    e.WArrive? || e.WReceive? || e.WTaskEnds? || e.WTestCapacity? || e.WTestClosed? || e.WStamp? || e.WRevertLock?
    || e.WRevert? || e.WDecRunning? || e.WPutCache?
  }

  /** How a worker goes on by its own step, in a closed pool or in an open one. */
  ghost predicate GoesOn(x: Worker, x': Worker, closed: bool) {
    match x.pc
    case Arriving => x' == x.(pc := Receiving)
    case Receiving => x.chan != [] && x' == Begun(x.chan[0])
    case Executing(_) => x' == x.(pc := Returned) || x' == x.(pc := Exiting)
    case Returned => x' == x.(pc := Rechecking) || x' == x.(pc := Exiting)
    case Rechecking => x' == x.(pc := if closed then Exiting else Stamping)
    case Stamping => x' == x.(pc := WantLock)
    case WantLock => x' == x.(pc := HoldsLock)
    case HoldsLock => x' == x.(pc := Exiting) || (!closed && x' == x.(pc := Arriving, owner := Idle))
    case Exiting => x' == x.(pc := Exited)
    case Exited => x' == x.(pc := Cached)
    case _ => false
  }

  /** Worker w goes on; no other worker changes, and no submitter. */
  ghost predicate MovesAlone(s: State, s': State, w: WorkerId) {
    && w in s.workers && w in s'.workers && GoesOn(s.workers[w], s'.workers[w], s.closed)
    && (s'.running == s.running || (s'.running == s.running - 1 && s.workers[w].pc == Exiting))
    && s'.workers.Keys == s.workers.Keys && s'.workers == s.workers[w := s'.workers[w]]
    && s'.cfg == s.cfg && s'.closed == s.closed && s'.released == s.released && s'.subs == s.subs && s'.scav == s.scav
  }

  lemma MoveIsAlone(s: State, s': State, w: WorkerId)
    requires TestCapacity(s, s', w) || TestClosed(s, s', w) || Stamp(s, s', w) || RevertLock(s, s', w)
             || Arrive(s, s', w) || DecRunning(s, s', w) || PutCache(s, s', w)
    ensures MovesAlone(s, s', w)
  {
  }

  lemma ReceiveIsAlone(s: State, s': State, w: WorkerId)
    requires Receive(s, s', w)
    ensures MovesAlone(s, s', w)
  {
    hide Moved, Begun;
  }

  lemma TaskIsAlone(s: State, s': State, w: WorkerId, quits: bool)
    requires TaskEnds(s, s', w, quits)
    ensures MovesAlone(s, s', w)
  {
    hide Begun;
  }

  lemma RevertIsAlone(s: State, s': State, w: WorkerId)
    requires Revert(s, s', w)
    ensures MovesAlone(s, s', w)
  {
    hide Begun, InsertFails;
    if s.closed || InsertFails(s) {
      assert s'.workers[w] == s.workers[w].(pc := Exiting);
    } else {
      assert s'.workers[w] == s.workers[w].(pc := Arriving, owner := Idle);
    }
  }

  lemma WorkerMovesAlone(s: State, s': State, e: Step)
    requires WorkerNext(s, s', e)
    ensures ByWorker(e) && MovesAlone(s, s', e.w)
  {
    hide MovesAlone, Arrive, Receive, TaskEnds, TestCapacity, TestClosed, Stamp, RevertLock, Revert, DecRunning, PutCache;
    if e.WReceive? {
      ReceiveIsAlone(s, s', e.w);
    } else if e.WTaskEnds? {
      TaskIsAlone(s, s', e.w, e.quits);
    } else if e.WRevert? {
      RevertIsAlone(s, s', e.w);
    } else {
      MoveIsAlone(s, s', e.w);
    }
  }

  /** The invariant holds in every state of every run. */
  lemma {:induction false} RunKeepsInv(cfg: Config, states: seq<State>, steps: seq<Step>, k: nat)
    requires IsRun(cfg, states, steps) && k < |states|
    ensures Inv(states[k])
  {
    hide Inv, Next;
    if k == 0 {
      InitInv(cfg);
    } else {
      RunKeepsInv(cfg, states, steps, k - 1);
      StepKeepsInv(states[k - 1], states[k], steps[k - 1]);
    }
  }
}
