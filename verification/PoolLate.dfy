/**
 Workers started after Release.  A submitter that found the pool open before it
 was closed goes on to spawn, since retrieveWorker does not test IsClosed; the
 bound of DrainBound on such late starts is reached for every number of them.
 */
module PoolLate {
  import opened PoolModel
  import opened PoolInvariant
  import opened PoolCapacity
  import opened PoolOverrun
  import opened PoolDrain
  import opened Sets
  import opened Wrappers

  /** A run in which a Release finishes at step j with n submitters owing, and l workers are launched after it. */
  ghost predicate LateRun(cfg: Config, states: seq<State>, steps: seq<Step>, j: nat, n: nat, l: nat) {
    && IsRun(cfg, states, steps) && j < |steps| && steps[j].RDone?
    && |Owing(states[j + 1].subs)| == n && Launches(steps, j + 1, |steps|) == l
  }

  ghost predicate LateReaches(cfg: Config, n: nat, l: nat, s: State) {
    exists states, steps, j: nat :: LateRun(cfg, states, steps, j, n, l) && EndsIn(states, s)
  }

  lemma {:induction false} LaunchesOfPrefix(steps: seq<Step>, e: Step, j: nat, k: nat)
    requires j <= k <= |steps|
    ensures Launches(steps + [e], j, k) == Launches(steps, j, k)
  {
    if j < k {
      LaunchesOfPrefix(steps, e, j, k - 1);
    }
  }

  lemma LateStart(cfg: Config, k: nat, s: State, s': State, r: RelId)
    requires Reaches(cfg, k, s) && Next(s, s', RDone(r)) && s'.cfg == cfg
    ensures LateReaches(cfg, |Owing(s'.subs)|, 0, s')
  {
    hide Next, IsRun, Owing;
    var states, steps :| IsRun(cfg, states, steps) && AtMostInside(states, k) && EndsIn(states, s);
    RunExtends(cfg, states, steps, s', RDone(r));
    var states', steps' := states + [s'], steps + [RDone(r)];
    RunLength(cfg, states, steps);
    assert LateRun(cfg, states', steps', |steps|, |Owing(s'.subs)|, 0) && EndsIn(states', s');
  }

  lemma LateExtend(cfg: Config, n: nat, l: nat, s: State, s': State, e: Step)
    requires LateReaches(cfg, n, l, s) && Next(s, s', e) && s'.cfg == cfg
    ensures LateReaches(cfg, n, if e.SLaunch? then l + 1 else l, s')
  {
    hide Next, Owing, IsRun;
    var states, steps, j: nat :| LateRun(cfg, states, steps, j, n, l) && EndsIn(states, s);
    RunLength(cfg, states, steps);
    RunExtends(cfg, states, steps, s', e);
    LaunchesOfPrefix(steps, e, j + 1, |steps|);
    var states', steps' := states + [s'], steps + [e];
    assert LateRun(cfg, states', steps', j, n, if e.SLaunch? then l + 1 else l) && EndsIn(states', s');
  }

  // -------------------------------------------------------------- the crowd

  /** Of the submitters, the first l have launched a worker, those up to a may spawn, the rest have just entered. */
  function CrowdSub(a: nat, l: nat, i: SubId): SubPc {
    if i < l then Sending(Task(i), i) else if i < a then Spawning(Task(i)) else Entered(Task(i))
  }

  function Crowd(n: nat, a: nat, l: nat): (r: map<SubId, SubPc>)
    ensures forall i: SubId :: i in r <==> i < n
    ensures |r| == n
  {
    if n == 0 then map[] else Crowd(n - 1, a, l)[n - 1 := CrowdSub(a, l, n - 1)]
  }

  lemma {:induction false} CrowdAt(n: nat, a: nat, l: nat, i: SubId)
    requires i < n
    ensures Crowd(n, a, l)[i] == CrowdSub(a, l, i)
  {
    hide CrowdSub;
    if i < n - 1 {
      CrowdAt(n - 1, a, l, i);
    }
  }

  /** One submitter of the crowd moves on. */
  lemma CrowdMoves(n: nat, a: nat, l: nat, a': nat, l': nat, i: SubId)
    requires i < n && forall j: SubId | j < n && j != i :: CrowdSub(a', l', j) == CrowdSub(a, l, j)
    ensures Crowd(n, a, l)[i := CrowdSub(a', l', i)] == Crowd(n, a', l')
  {
    hide CrowdSub;
    var x, y := Crowd(n, a, l)[i := CrowdSub(a', l', i)], Crowd(n, a', l');
    hide Crowd;
    forall j: SubId | j < n ensures x[j] == y[j] {
      CrowdAt(n, a, l, j);
      CrowdAt(n, a', l', j);
    }
  }

  lemma CrowdOwes(n: nat)
    ensures |Owing(Crowd(n, 0, 0))| == n
  {
    var subs := Crowd(n, 0, 0);
    forall i: SubId | i < n ensures !subs[i].Sending? {
      CrowdAt(n, 0, 0, i);
    }
    assert Owing(subs) == subs.Keys;
  }

  /** The pool with the crowd inside, before or after Release. */
  function Full(cfg: Config, closed: bool, n: nat, a: nat, l: nat): State {
    State(cfg, closed, None, l, 0, [], TowerWorkers(0, l), Crowd(n, a, l), Sleeping, map[], 0, map[],
          TowerPlace(0, n), multiset{}, closed)
  }

  lemma EnterCrowd(cfg: Config, max: nat, n: nat)
    requires Reaches(cfg, max, Full(cfg, false, n, 0, 0)) && n < max
    ensures Reaches(cfg, max, Full(cfg, false, n + 1, 0, 0))
  {
    var s, s', m := Full(cfg, false, n, 0, 0), Full(cfg, false, n + 1, 0, 0), Task(n);
    assert s'.place == s.place[n := WithSub(n)];
    assert s'.subs == s.subs[n := Entered(m)];
    hide Reaches, Next, Crowd, TowerPlace;
    assert Enter(s, s', n, m);
    Extended(cfg, max, s, s', n, 0, m);
  }

  lemma {:induction false} Crowded(cfg: Config, max: nat, n: nat)
    requires cfg.Valid() && n <= max
    ensures Reaches(cfg, max, Full(cfg, false, n, 0, 0))
  {
    hide Reaches;
    if n == 0 {
      StartReached(cfg, max);
    } else {
      Crowded(cfg, max, n - 1);
      EnterCrowd(cfg, max, n - 1);
    }
  }

  lemma RNamed(s: State, s': State, r: RelId)
    ensures Close(s, s', r) ==> Next(s, s', RClose(r))
    ensures ResetLock(s, s', r) ==> Next(s, s', RLock(r))
    ensures ResetDone(s, s', r) ==> Next(s, s', RDone(r))
  {
    hide Close, ResetLock, ResetDone;
  }

  lemma ReleaseCrowd(cfg: Config, n: nat)
    requires cfg.Valid() && cfg.backing == Stack
    ensures LateReaches(cfg, n, 0, Full(cfg, true, n, 0, 0))
  {
    Crowded(cfg, n, n);
    CrowdOwes(n);
    hide Reaches, LateReaches, Next, Crowd, TowerPlace, TowerWorkers, Owing;
    var s := Full(cfg, false, n, 0, 0);
    var s1 := s.(closed := true, rels := s.rels[0 := WantReset]);
    assert Close(s, s1, 0);
    RNamed(s, s1, 0);
    Extend(cfg, n, s, s1, RClose(0));
    var s2 := s1.(rels := s1.rels[0 := Resetting], lock := Some(Rel(0)));
    assert ResetLock(s1, s2, 0);
    RNamed(s1, s2, 0);
    Extend(cfg, n, s1, s2, RLock(0));
    var s3 := s2.(rels := s2.rels - {0}, lock := None, released := true);
    assert ResetDone(s2, s3, 0);
    RNamed(s2, s3, 0);
    assert s3.rels == map[];
    LateStart(cfg, n, s2, s3, 0);
  }

  lemma LateLock(cfg: Config, n: nat, l: nat, s: State, i: SubId)
    requires LateReaches(cfg, n, l, s) && s.cfg == cfg && i in s.subs && s.subs[i].Entered? && s.lock.None?
    ensures LateReaches(cfg, n, l, MoveSub(s, i, Locked(s.subs[i].m), Some(Sub(i)), s.blocking))
  {
    hide LateReaches, Next;
    var s' := MoveSub(s, i, Locked(s.subs[i].m), Some(Sub(i)), s.blocking);
    assert LockSub(s, s', i);
    Named(s, s', i, 0, Stop);
    LateExtend(cfg, n, l, s, s', SLock(i));
  }

  lemma LateRetrieve(cfg: Config, n: nat, l: nat, s: State, i: SubId)
    requires LateReaches(cfg, n, l, s) && s.cfg == cfg && i in s.subs && s.subs[i].Locked? && s.idle == []
    requires cfg.capacity == -1 || cfg.capacity > s.running
    ensures LateReaches(cfg, n, l, MoveSub(s, i, Spawning(s.subs[i].m), None, s.blocking))
  {
    hide LateReaches, Next;
    var s' := MoveSub(s, i, Spawning(s.subs[i].m), None, s.blocking);
    assert Retrieve(s, s', i);
    Named(s, s', i, 0, Stop);
    LateExtend(cfg, n, l, s, s', SRetrieve(i));
  }

  lemma LateGet(cfg: Config, n: nat, l: nat, s: State, i: SubId, w: WorkerId)
    requires LateReaches(cfg, n, l, s) && s.cfg == cfg && i in s.subs && s.subs[i].Spawning? && w !in s.workers
    ensures LateReaches(cfg, n, l, Fetched(s, i, w, s.subs[i].m))
  {
    hide LateReaches, Next;
    var s' := Fetched(s, i, w, s.subs[i].m);
    assert Get(s, s', i, w);
    Named(s, s', i, w, Stop);
    LateExtend(cfg, n, l, s, s', SGet(i, w));
  }

  lemma LateLaunch(cfg: Config, n: nat, l: nat, s: State, i: SubId, w: WorkerId)
    requires LateReaches(cfg, n, l, s) && s.cfg == cfg && i in s.subs && s.subs[i].Launching? && s.subs[i].w == w
    requires w in s.workers && s.workers[w] == Worker(Taken, [], BySub(i))
    ensures LateReaches(cfg, n, l + 1, Started(s, i, w, s.subs[i].m))
  {
    hide LateReaches, Next;
    var s' := Started(s, i, w, s.subs[i].m);
    assert Launch(s, s', i);
    Named(s, s', i, w, Stop);
    LateExtend(cfg, n, l, s, s', SLaunch(i));
  }

  /** The next submitter finds nothing idle and room for a worker, in the closed pool. */
  lemma JoinLate(cfg: Config, n: nat, a: nat)
    requires cfg.Valid() && LateReaches(cfg, n, 0, Full(cfg, true, n, a, 0)) && a < n
    ensures LateReaches(cfg, n, 0, Full(cfg, true, n, a + 1, 0))
  {
    hide LateReaches, Crowd, TowerPlace, TowerWorkers;
    CrowdAt(n, a, 0, a);
    CrowdMoves(n, a, 0, a + 1, 0, a);
    var s, m := Full(cfg, true, n, a, 0), Task(a);
    LateLock(cfg, n, 0, s, a);
    LateRetrieve(cfg, n, 0, MoveSub(s, a, Locked(m), Some(Sub(a)), 0), a);
    MovedTwice(s, a, Locked(m), Spawning(m), Some(Sub(a)));
  }

  /** The next submitter that may spawn launches its worker. */
  lemma LaunchLate(cfg: Config, n: nat, l: nat)
    requires LateReaches(cfg, n, l, Full(cfg, true, n, n, l)) && l < n
    ensures LateReaches(cfg, n, l + 1, Full(cfg, true, n, n, l + 1))
  {
    hide LateReaches, Full;
    var s, m := Full(cfg, true, n, n, l), Task(l);
    LateSpawner(cfg, n, l);
    LateGet(cfg, n, l, s, l, l);
    LateLaunch(cfg, n, l, Fetched(s, l, l, m), l, l);
    StartedTwice(s, l, l, m);
  }

  lemma LateSpawner(cfg: Config, n: nat, l: nat)
    requires l < n
    ensures var s := Full(cfg, true, n, n, l);
            && s.cfg == cfg && l in s.subs && s.subs[l] == Spawning(Task(l)) && l !in s.workers
            && Started(s, l, l, Task(l)) == Full(cfg, true, n, n, l + 1)
  {
    TowerWorkersNext(0, l);
    CrowdAt(n, n, l, l);
    CrowdMoves(n, n, l, n, l + 1, l);
    hide Crowd, TowerPlace, TowerWorkers;
  }

  lemma {:induction false} ManyJoinLate(cfg: Config, n: nat, a: nat)
    requires cfg.Valid() && cfg.backing == Stack && a <= n
    ensures LateReaches(cfg, n, 0, Full(cfg, true, n, a, 0))
  {
    hide LateReaches;
    if a == 0 {
      ReleaseCrowd(cfg, n);
    } else {
      ManyJoinLate(cfg, n, a - 1);
      JoinLate(cfg, n, a - 1);
    }
  }

  lemma {:induction false} ManyLaunchLate(cfg: Config, n: nat, l: nat)
    requires cfg.Valid() && cfg.backing == Stack && l <= n
    ensures LateReaches(cfg, n, l, Full(cfg, true, n, n, l))
  {
    hide LateReaches;
    if l == 0 {
      ManyJoinLate(cfg, n, n);
    } else {
      ManyLaunchLate(cfg, n, l - 1);
      LaunchLate(cfg, n, l - 1);
    }
  }

  /**
   For every stack-backed pool and every n there is a run in which n submitters
   are inside when Release finishes and every one of them then starts a worker;
   whatever the capacity, n workers run in the closed pool.
   */
  lemma LateLaunchesReachBound(cfg: Config, n: nat)
    requires cfg.Valid() && cfg.backing == Stack
    ensures exists s :: LateReaches(cfg, n, n, s) && s.closed && s.running == n
  {
    hide LateReaches;
    ManyLaunchLate(cfg, n, n);
    assert Full(cfg, true, n, n, n).running == n;
  }

  /** And never more of them: exactly n launches is the most that n owing submitters make. */
  lemma LateLaunchesBounded(cfg: Config, n: nat, l: nat, s: State)
    requires LateReaches(cfg, n, l, s)
    ensures l <= n
  {
    hide IsRun, Owing;
    var states: seq<State>, steps: seq<Step>, j: nat :|
      LateRun(cfg, states, steps, j, n, l) && EndsIn(states, s);
    RunLength(cfg, states, steps);
    IdleStaysEmptyAfterRelease(cfg, states, steps, j, steps[j].r, j + 1);
    DrainBound(cfg, states, steps, j + 1, |steps|);
  }
}
