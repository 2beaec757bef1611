/**
 The bound c + k - 1 on running workers is reached, for every capacity c and
 every number k of goroutines inside Submit at once; so the pool keeps to its
 capacity exactly when submitters come one at a time.
 */
module PoolOverrun {
  import opened PoolModel
  import opened PoolInvariant
  import opened PoolCapacity
  import opened Wrappers

  ghost predicate EndsIn(states: seq<State>, s: State) { states != [] && states[|states| - 1] == s }

  /** Some run with at most k goroutines inside ends in s. */
  ghost predicate Reaches(cfg: Config, k: nat, s: State) {
    exists states, steps :: IsRun(cfg, states, steps) && AtMostInside(states, k) && EndsIn(states, s)
  }

  lemma StartReached(cfg: Config, k: nat)
    requires cfg.Valid()
    ensures Reaches(cfg, k, Init(cfg))
  {
    assert IsRun(cfg, [Init(cfg)], []);
    assert AtMostInside([Init(cfg)], k);
    assert EndsIn([Init(cfg)], Init(cfg));
  }

  lemma RunLength(cfg: Config, states: seq<State>, steps: seq<Step>)
    requires IsRun(cfg, states, steps)
    ensures |states| == |steps| + 1
  {
    hide Next;
  }

  lemma RunExtends(cfg: Config, states: seq<State>, steps: seq<Step>, s': State, e: Step)
    requires IsRun(cfg, states, steps) && Next(states[|states| - 1], s', e) && s'.cfg == cfg
    ensures IsRun(cfg, states + [s'], steps + [e])
  {
    hide Next;
    var states', steps' := states + [s'], steps + [e];
    forall n | 0 <= n < |steps'| ensures Next(states'[n], states'[n + 1], steps'[n]) {
      if n < |steps| {
        assert Next(states[n], states[n + 1], steps[n]);
      }
    }
  }

  lemma Extend(cfg: Config, k: nat, s: State, s': State, e: Step)
    requires Reaches(cfg, k, s) && Next(s, s', e) && s'.cfg == cfg && |s'.subs| <= k
    ensures Reaches(cfg, k, s')
  {
    hide Next, IsRun;
    var states, steps :| IsRun(cfg, states, steps) && AtMostInside(states, k) && EndsIn(states, s);
    RunLength(cfg, states, steps);
    RunExtends(cfg, states, steps, s', e);
    assert AtMostInside(states + [s'], k) && EndsIn(states + [s'], s');
  }

  lemma Named(s: State, s': State, i: SubId, w: WorkerId, m: Msg)
    ensures Enter(s, s', i, m) ==> Next(s, s', SEnter(i, m))
    ensures LockSub(s, s', i) ==> Next(s, s', SLock(i))
    ensures Retrieve(s, s', i) ==> Next(s, s', SRetrieve(i))
    ensures Get(s, s', i, w) ==> Next(s, s', SGet(i, w))
    ensures Launch(s, s', i) ==> Next(s, s', SLaunch(i))
    ensures SendTask(s, s', i) ==> Next(s, s', SSend(i))
    ensures Arrive(s, s', w) ==> Next(s, s', WArrive(w))
    ensures Receive(s, s', w) ==> Next(s, s', WReceive(w))
  {
    hide Enter, LockSub, Retrieve, Park, Wake, Retry, RetestClosed, Get, Launch, SendTask, Receive, TaskEnds, TestCapacity,
         TestClosed, RevertLock, Revert, DecRunning, PutCache, Tick, ScavLock, Expire, StopExpired, Rest, Close, ResetLock,
         ResetOne, ResetDone, Arrive, Stamp, Pass;
  }

  function Upto(n: nat): multiset<TaskId> { if n == 0 then multiset{} else Upto(n - 1) + multiset{n - 1} }

  /** The workers: n busy ones, then l that submitters have just started. */
  function TowerWorkers(n: nat, l: nat): (r: map<WorkerId, Worker>)
    ensures forall w: WorkerId :: w in r <==> w < n + l
    decreases n + l
  {
    if l > 0 then TowerWorkers(n, l - 1)[n + l - 1 := Worker(Arriving, [], BySub(l - 1))]
    else if n > 0 then TowerWorkers(n - 1, 0)[n - 1 := Worker(Executing(n - 1), [], Self)]
    else map[]
  }

  /** The submitters: k authorised to spawn, of which the first l have their worker. */
  function TowerSubs(n: nat, k: nat, l: nat): (r: map<SubId, SubPc>)
    ensures forall i: SubId :: i in r <==> i < k
    ensures |r| == k
  {
    if k == 0 then map[] else TowerSubs(n, k - 1, l)[k - 1 := TowerSub(n, l, k - 1)]
  }

  function TowerSub(n: nat, l: nat, i: SubId): SubPc {
    if i < l then Sending(Task(n + i), n + i) else Spawning(Task(n + i))
  }

  function TowerPlace(n: nat, k: nat): (r: map<TaskId, Place>)
    ensures forall t: TaskId :: t in r <==> t < n + k
    decreases n + k
  {
    if k > 0 then TowerPlace(n, k - 1)[n + k - 1 := WithSub(k - 1)]
    else if n > 0 then TowerPlace(n - 1, 0)[n - 1 := OnWorker(n - 1)]
    else map[]
  }

  function Tower(cfg: Config, n: nat, k: nat, l: nat): State {
    State(cfg, false, None, n + l, 0, [], TowerWorkers(n, l), TowerSubs(n, k, l), Sleeping, map[], 0, map[],
          TowerPlace(n, k), Upto(n), false)
  }

  /** Submitter l gets its worker. */
  lemma TowerSubsNext(n: nat, k: nat, l: nat)
    requires l < k
    ensures TowerSubs(n, k, l)[l := Sending(Task(n + l), n + l)] == TowerSubs(n, k, l + 1)
    ensures TowerSubs(n, k, l)[l] == Spawning(Task(n + l))
  {
    hide TowerSubs;
    var a, b := TowerSubs(n, k, l)[l := Sending(Task(n + l), n + l)], TowerSubs(n, k, l + 1);
    forall i: SubId | i < k ensures a[i] == b[i] {
      TowerSubsAt(n, k, l, i);
      TowerSubsAt(n, k, l + 1, i);
    }
    TowerSubsAt(n, k, l, l);
  }

  lemma {:induction false} TowerSubsAt(n: nat, k: nat, l: nat, i: SubId)
    requires i < k
    ensures TowerSubs(n, k, l)[i] == TowerSub(n, l, i)
  {
    hide TowerSub;
    if i < k - 1 {
      TowerSubsAt(n, k - 1, l, i);
    }
  }

  lemma Extended(cfg: Config, max: nat, s: State, s': State, i: SubId, w: WorkerId, m: Msg)
    requires Reaches(cfg, max, s) && s'.cfg == cfg && |s'.subs| <= max
    requires Enter(s, s', i, m) || LockSub(s, s', i) || Retrieve(s, s', i) || Get(s, s', i, w) || Launch(s, s', i)
             || SendTask(s, s', i) || Arrive(s, s', w) || Receive(s, s', w)
    ensures Reaches(cfg, max, s')
  {
    hide Enter, LockSub, Retrieve, Park, Wake, Retry, RetestClosed, Get, Launch, SendTask, Receive, TaskEnds, TestCapacity,
         TestClosed, RevertLock, Revert, DecRunning, PutCache, Tick, ScavLock, Expire, StopExpired, Rest, Close, ResetLock,
         ResetOne, ResetDone, Arrive, Stamp, Pass;
    hide Reaches, Next;
    Named(s, s', i, w, m);
    if {
      case Enter(s, s', i, m) => Extend(cfg, max, s, s', SEnter(i, m));
      case LockSub(s, s', i) => Extend(cfg, max, s, s', SLock(i));
      case Retrieve(s, s', i) => Extend(cfg, max, s, s', SRetrieve(i));
      case Get(s, s', i, w) => Extend(cfg, max, s, s', SGet(i, w));
      case Launch(s, s', i) => Extend(cfg, max, s, s', SLaunch(i));
      case SendTask(s, s', i) => Extend(cfg, max, s, s', SSend(i));
      case Arrive(s, s', w) => Extend(cfg, max, s, s', WArrive(w));
      case Receive(s, s', w) => Extend(cfg, max, s, s', WReceive(w));
    }
  }

  // ---------------------------------------------------- one step at a time

  lemma ReachLock(cfg: Config, max: nat, s: State, i: SubId)
    requires Reaches(cfg, max, s) && s.cfg == cfg && |s.subs| <= max
    requires i in s.subs && s.subs[i].Entered? && s.lock.None?
    ensures Reaches(cfg, max, MoveSub(s, i, Locked(s.subs[i].m), Some(Sub(i)), s.blocking))
    ensures |MoveSub(s, i, Locked(s.subs[i].m), Some(Sub(i)), s.blocking).subs| == |s.subs|
  {
    hide Reaches, Next;
    var s' := MoveSub(s, i, Locked(s.subs[i].m), Some(Sub(i)), s.blocking);
    assert LockSub(s, s', i) && s'.subs.Keys == s.subs.Keys;
    Extended(cfg, max, s, s', i, 0, Stop);
  }

  lemma ReachRetrieve(cfg: Config, max: nat, s: State, i: SubId)
    requires Reaches(cfg, max, s) && s.cfg == cfg && |s.subs| <= max
    requires i in s.subs && s.subs[i].Locked? && s.idle == [] && (cfg.capacity == -1 || cfg.capacity > s.running)
    ensures Reaches(cfg, max, MoveSub(s, i, Spawning(s.subs[i].m), None, s.blocking))
  {
    hide Reaches, Next;
    var s' := MoveSub(s, i, Spawning(s.subs[i].m), None, s.blocking);
    assert Retrieve(s, s', i) && s'.subs.Keys == s.subs.Keys;
    Extended(cfg, max, s, s', i, 0, Stop);
  }

  /** s with submitter i about to start worker w. */
  function Fetched(s: State, i: SubId, w: WorkerId, m: Msg): State {
    s.(subs := s.subs[i := Launching(m, w)], workers := s.workers[w := Worker(Taken, [], BySub(i))])
  }

  /** s with submitter i about to send to worker w, which it has started. */
  function Started(s: State, i: SubId, w: WorkerId, m: Msg): State {
    s.(subs := s.subs[i := Sending(m, w)], workers := s.workers[w := Worker(Arriving, [], BySub(i))],
       running := s.running + 1)
  }

  lemma ReachGet(cfg: Config, max: nat, s: State, i: SubId, w: WorkerId)
    requires Reaches(cfg, max, s) && s.cfg == cfg && |s.subs| <= max
    requires i in s.subs && s.subs[i].Spawning? && w !in s.workers
    ensures Reaches(cfg, max, Fetched(s, i, w, s.subs[i].m))
    ensures |Fetched(s, i, w, s.subs[i].m).subs| == |s.subs|
  {
    hide Reaches, Next;
    var s' := Fetched(s, i, w, s.subs[i].m);
    assert Get(s, s', i, w) && s'.subs.Keys == s.subs.Keys;
    Extended(cfg, max, s, s', i, w, Stop);
  }

  lemma ReachLaunch(cfg: Config, max: nat, s: State, i: SubId, w: WorkerId)
    requires Reaches(cfg, max, s) && s.cfg == cfg && |s.subs| <= max
    requires i in s.subs && s.subs[i].Launching? && s.subs[i].w == w
    requires w in s.workers && s.workers[w] == Worker(Taken, [], BySub(i))
    ensures Reaches(cfg, max, Started(s, i, w, s.subs[i].m))
  {
    hide Reaches, Next;
    var s' := Started(s, i, w, s.subs[i].m);
    assert Launch(s, s', i) && s'.subs.Keys == s.subs.Keys;
    Extended(cfg, max, s, s', i, w, Stop);
  }

  lemma MovedTwice(s: State, i: SubId, x: SubPc, y: SubPc, lock: Option<Actor>)
    requires s.lock.None?
    ensures MoveSub(MoveSub(s, i, x, lock, s.blocking), i, y, None, s.blocking) == s.(subs := s.subs[i := y])
  {
  }

  lemma StartedTwice(s: State, i: SubId, w: WorkerId, m: Msg)
    ensures Started(Fetched(s, i, w, m), i, w, m) == Started(s, i, w, m)
  {
  }

  // ------------------------------------------------------------- the tower

  /** One more submitter comes in. */
  lemma ReachEnter(cfg: Config, max: nat, n: nat, k: nat) returns (s: State)
    requires Reaches(cfg, max, Tower(cfg, n, k, 0)) && k < max
    ensures Reaches(cfg, max, s) && |s.subs| == k + 1
    ensures s == Tower(cfg, n, k + 1, 0).(subs := TowerSubs(n, k, 0)[k := Entered(Task(n + k))])
  {
    TowerPlaces(n, k);
    hide Reaches, Next, TowerPlace, TowerWorkers, Upto;
    var s0, m := Tower(cfg, n, k, 0), Task(n + k);
    s := s0.(subs := s0.subs[k := Entered(m)], place := s0.place[n + k := WithSub(k)]);
    assert Enter(s0, s, k, m);
    Extended(cfg, max, s0, s, k, 0, m);
  }

  lemma TowerPlaces(n: nat, k: nat)
    ensures TowerPlace(n, k + 1) == TowerPlace(n, k)[n + k := WithSub(k)]
  {
  }

  /** And passes the capacity test. */
  lemma Join(cfg: Config, max: nat, n: nat, k: nat)
    requires Reaches(cfg, max, Tower(cfg, n, k, 0)) && (cfg.capacity == -1 || n < cfg.capacity) && k < max
    ensures Reaches(cfg, max, Tower(cfg, n, k + 1, 0))
  {
    var s := ReachEnter(cfg, max, n, k);
    Entrant(cfg, n, k, s);
    hide Reaches, Tower, TowerSubs;
    var m := Task(n + k);
    ReachLock(cfg, max, s, k);
    ReachRetrieve(cfg, max, MoveSub(s, k, Locked(m), Some(Sub(k)), 0), k);
    MovedTwice(s, k, Locked(m), Spawning(m), Some(Sub(k)));
  }

  lemma Entrant(cfg: Config, n: nat, k: nat, s: State)
    requires s == Tower(cfg, n, k + 1, 0).(subs := TowerSubs(n, k, 0)[k := Entered(Task(n + k))])
    ensures s.cfg == cfg && k in s.subs && s.subs[k] == Entered(Task(n + k)) && s.lock.None? && s.idle == []
    ensures s.running == n && s.blocking == 0
    ensures s.(subs := s.subs[k := Spawning(Task(n + k))]) == Tower(cfg, n, k + 1, 0)
  {
    hide TowerSubs, TowerPlace, TowerWorkers, Upto;
    JoinsTower(n, k);
    UpdatedTwice(TowerSubs(n, k, 0), k, Entered(Task(n + k)), Spawning(Task(n + k)));
  }

  lemma JoinsTower(n: nat, k: nat)
    ensures TowerSubs(n, k + 1, 0) == TowerSubs(n, k, 0)[k := Spawning(Task(n + k))]
  {
  }

  lemma UpdatedTwice<K, V>(m: map<K, V>, k: K, x: V, y: V)
    ensures m[k := x][k := y] == m[k := y]
  {
  }

  /** The next authorised submitter starts a worker. */
  lemma Spawn(cfg: Config, max: nat, n: nat, k: nat, l: nat)
    requires Reaches(cfg, max, Tower(cfg, n, k, l)) && l < k <= max
    ensures Reaches(cfg, max, Tower(cfg, n, k, l + 1))
  {
    hide Reaches, Tower;
    var s, w, m := Tower(cfg, n, k, l), n + l, Task(n + l);
    Spawner(cfg, n, k, l);
    ReachGet(cfg, max, s, l, w);
    ReachLaunch(cfg, max, Fetched(s, l, w, m), l, w);
    StartedTwice(s, l, w, m);
  }

  lemma Spawner(cfg: Config, n: nat, k: nat, l: nat)
    requires l < k
    ensures var s := Tower(cfg, n, k, l);
            && s.cfg == cfg && |s.subs| == k && l in s.subs && s.subs[l] == Spawning(Task(n + l)) && n + l !in s.workers
            && Started(s, l, n + l, Task(n + l)) == Tower(cfg, n, k, l + 1)
  {
    TowerSubsNext(n, k, l);
    TowerWorkersNext(n, l);
    hide TowerSubs, TowerWorkers, TowerPlace, Upto;
  }

  lemma TowerWorkersNext(n: nat, l: nat)
    ensures TowerWorkers(n, l)[n + l := Worker(Arriving, [], BySub(l))] == TowerWorkers(n, l + 1)
  {
  }

  /** The lone submitter's worker gets to its receive. */
  lemma ReachReceiving(cfg: Config, max: nat, n: nat) returns (s: State)
    requires max >= 1 && Reaches(cfg, max, Tower(cfg, n, 1, 1))
    ensures Reaches(cfg, max, s) && n in TowerWorkers(n, 1)
    ensures s == Tower(cfg, n, 1, 1).(workers := TowerWorkers(n, 1)[n := Worker(Receiving, [], BySub(0))])
  {
    LoneTower(n);
    hide Reaches, Next, TowerWorkers, TowerSubs, TowerPlace, Upto;
    var before := Tower(cfg, n, 1, 1);
    s := MoveWorker(before, n, Worker(Receiving, [], BySub(0)), None, n + 1);
    assert Arrive(before, s, n);
    Extended(cfg, max, before, s, 0, n, Stop);
  }

  lemma LoneTower(n: nat)
    ensures n in TowerWorkers(n, 1) && TowerWorkers(n, 1)[n] == Worker(Arriving, [], BySub(0))
    ensures TowerSubs(n, 1, 1) == map[0 := Sending(Task(n), n)]
  {
    assert TowerSubs(n, 0, 1) == map[];
  }

  /** A lone submitter hands its task over, and its worker is busy. */
  lemma Settle(cfg: Config, max: nat, n: nat)
    requires cfg.Valid() && max >= 1 && Reaches(cfg, max, Tower(cfg, n, 1, 1))
    ensures Reaches(cfg, max, Tower(cfg, n + 1, 0, 0))
  {
    LoneTower(n);
    TowerUp(n);
    hide Reaches, Next, TowerWorkers, TowerSubs, TowerPlace, Upto;
    var s0 := ReachReceiving(cfg, max, n);
    var m, ws := Task(n), TowerWorkers(n, 1);
    var s1 := s0.(subs := s0.subs - {0}, workers := s0.workers[n := Sent(cfg.chanCap, s0.workers[n], m)],
                  place := s0.place[n := if cfg.chanCap == 0 then OnWorker(n) else InChan(n)],
                  started := if cfg.chanCap == 0 then s0.started + multiset{n} else s0.started);
    assert SendTask(s0, s1, 0);
    assert s1.subs == map[];
    Extended(cfg, max, s0, s1, 0, n, m);
    UpdatedTwice(ws, n, Worker(Receiving, [], BySub(0)), Sent(cfg.chanCap, s0.workers[n], m));
    if cfg.chanCap != 0 {
      assert Sent(cfg.chanCap, s0.workers[n], m) == Worker(Receiving, [m], Self);
      TakeUp(cfg, max, n, s1);
    }
  }

  /** One more busy worker, and the submitter gone. */
  lemma TowerUp(n: nat)
    ensures TowerWorkers(n, 1)[n := Begun(Task(n))] == TowerWorkers(n + 1, 0)
    ensures TowerPlace(n, 1)[n := OnWorker(n)] == TowerPlace(n + 1, 0)
    ensures Upto(n + 1) == Upto(n) + multiset{n} && TowerSubs(n + 1, 0, 0) == map[]
  {
  }

  lemma TakeUp(cfg: Config, max: nat, n: nat, s: State)
    requires Reaches(cfg, max, s)
    requires s == Tower(cfg, n, 1, 1).(subs := map[], place := TowerPlace(n, 1)[n := InChan(n)],
                                       workers := TowerWorkers(n, 1)[n := Worker(Receiving, [Task(n)], Self)])
    ensures Reaches(cfg, max, Tower(cfg, n + 1, 0, 0))
  {
    hide Reaches, Next, TowerWorkers, TowerPlace, TowerSubs, Upto;
    TowerUp(n);
    var s' := s.(workers := s.workers[n := Begun(Task(n))], place := s.place[n := OnWorker(n)], started := Upto(n + 1));
    assert Receive(s, s', n);
    Extended(cfg, max, s, s', 0, n, Stop);
    assert s'.workers == TowerWorkers(n, 1)[n := Begun(Task(n))];
    assert s'.place == TowerPlace(n, 1)[n := OnWorker(n)];
  }

  lemma TowerOfNone(cfg: Config)
    ensures Tower(cfg, 0, 0, 0) == Init(cfg)
  {
  }

  /** One submitter at a time can make n workers busy, for every n up to the capacity, if there is one. */
  lemma {:induction false} BusyWorkers(cfg: Config, max: nat, n: nat)
    requires cfg.Valid() && (cfg.capacity == -1 || n <= cfg.capacity) && max >= 1
    ensures Reaches(cfg, max, Tower(cfg, n, 0, 0))
  {
    hide Reaches, Tower;
    if n == 0 {
      TowerOfNone(cfg);
      StartReached(cfg, max);
    } else {
      BusyWorkers(cfg, max, n - 1);
      Join(cfg, max, n - 1, 0);
      Spawn(cfg, max, n - 1, 1, 0);
      Settle(cfg, max, n - 1);
    }
  }

  lemma {:induction false} ManyJoin(cfg: Config, max: nat, n: nat, k: nat)
    requires cfg.Valid() && n < cfg.capacity && k <= max && max >= 1
    ensures Reaches(cfg, max, Tower(cfg, n, k, 0))
  {
    hide Reaches, Tower;
    if k == 0 {
      BusyWorkers(cfg, max, n);
    } else {
      ManyJoin(cfg, max, n, k - 1);
      Join(cfg, max, n, k - 1);
    }
  }

  lemma {:induction false} ManySpawn(cfg: Config, max: nat, n: nat, l: nat)
    requires cfg.Valid() && n < cfg.capacity && l <= max && max >= 1
    ensures Reaches(cfg, max, Tower(cfg, n, max, l))
  {
    hide Reaches, Tower;
    if l == 0 {
      ManyJoin(cfg, max, n, max);
    } else {
      ManySpawn(cfg, max, n, l - 1);
      Spawn(cfg, max, n, max, l - 1);
    }
  }

  /** The bound of CapacityBound is reached. */
  lemma BoundIsReached(cfg: Config, k: nat)
    requires cfg.Valid() && cfg.capacity > 0 && k >= 1
    ensures exists s :: Reaches(cfg, k, s) && s.running == cfg.capacity + k - 1
  {
    hide Reaches;
    ManySpawn(cfg, k, cfg.capacity - 1, k);
  }

  /** The capacity is kept in every run with at most k goroutines inside, if and only if k is 1. */
  lemma CapacityKeptIffOneInside(cfg: Config, k: nat)
    requires cfg.Valid() && cfg.capacity > 0 && k >= 1
    ensures (forall s :: Reaches(cfg, k, s) ==> s.running <= cfg.capacity) <==> k == 1
  {
    if k == 1 {
      forall s | Reaches(cfg, 1, s) ensures s.running <= cfg.capacity {
        var states, steps :| IsRun(cfg, states, steps) && AtMostInside(states, 1) && EndsIn(states, s);
        hide Next;
        OneSubmitterKeepsCapacity(cfg, states, steps, |states| - 1);
      }
    } else {
      BoundIsReached(cfg, k);
    }
  }
}
