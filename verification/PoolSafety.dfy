/**
 What holds in every state of every run of the pool, stated on the idle
 container, the channels and the program points alone.
 */
module PoolSafety {
  import opened PoolModel
  import opened PoolInvariant

  // ------------------------------------------------------------ ownership

  /** Everyone who can touch a live worker next. */
  datatype Holder = Container | Submitter(i: SubId) | Scavenger | Itself

  ghost predicate Holds(s: State, h: Holder, w: WorkerId) {
    match h
    case Container => w in s.idle
    case Submitter(i) => i in s.subs && s.subs[i].Sending? && s.subs[i].w == w
    case Scavenger => w in s.Expired()
    case Itself => w in s.workers && (!s.workers[w].pc.Ready() || s.workers[w].chan != [])
  }

  function HolderOf(o: Owner): Holder {
    match o
    case Self => Itself
    case Idle => Container
    case BySub(i) => Submitter(i)
    case ByScav => Scavenger
  }

  /** In every reachable state a live worker has exactly one holder, and its channel at most one message. */
  lemma ExactlyOneHolder(cfg: Config, states: seq<State>, steps: seq<Step>, k: nat, w: WorkerId)
    requires IsRun(cfg, states, steps) && k < |states|
    requires w in states[k].workers && states[k].workers[w].pc.Live()
    ensures |states[k].workers[w].chan| <= 1
    ensures exists h :: Holds(states[k], h, w)
    ensures forall h, h' | Holds(states[k], h, w) && Holds(states[k], h', w) :: h == h'
  {
    RunKeepsInv(cfg, states, steps, k);
    hide Next, IsRun;
    var s := states[k];
    assert Holds(s, HolderOf(s.workers[w].owner), w);
    forall h | Holds(s, h, w) ensures h == HolderOf(s.workers[w].owner) {
    }
  }

  /** A worker that leaves its loop, or is back in the cache, has no message waiting. */
  lemma NoExitWithMessage(cfg: Config, states: seq<State>, steps: seq<Step>, k: nat, w: WorkerId)
    requires IsRun(cfg, states, steps) && k < |states|
    requires w in states[k].workers && states[k].workers[w].chan != []
    ensures states[k].workers[w].pc.Ready() && |states[k].workers[w].chan| == 1
  {
    RunKeepsInv(cfg, states, steps, k);
    OwnsItself(states[k], w);
  }

  function Arrived(s: State, w: WorkerId): State
    requires w in s.workers
  {
    MoveWorker(s, w, s.workers[w].(pc := Receiving), s.lock, s.running)
  }

  /** w has nothing to do but get to its receive, which no lock can keep it from, and is then ready for a message. */
  ghost predicate OnItsWay(s: State, w: WorkerId) {
    w in s.workers && Next(s, Arrived(s, w), WArrive(w)) && CanSend(s.cfg.chanCap, Arrived(s, w).workers[w])
  }

  /**
   Whoever is about to send to a worker, be it Submit, Invoke, the scavenger or
   reset: a buffered channel always has room, and at an unbuffered one the
   worker is at its receive or one lock-free step of its own before it.
   */
  lemma SendsWaitForArrivalOnly(cfg: Config, states: seq<State>, steps: seq<Step>, k: nat, w: WorkerId)
    requires IsRun(cfg, states, steps) && k < |states|
    requires var s := states[k];
             w in s.idle || w in s.Expired() || exists i :: i in s.subs && s.subs[i].Sending? && s.subs[i].w == w
    ensures w in states[k].workers && states[k].workers[w].chan == []
    ensures cfg.chanCap == 1 ==> CanSend(1, states[k].workers[w])
    ensures cfg.chanCap == 0 ==> CanSend(0, states[k].workers[w]) || OnItsWay(states[k], w)
  {
    RunKeepsInv(cfg, states, steps, k);
    var s := states[k];
    assert s.cfg == cfg;
    if w in s.idle || w in s.Expired() {
      IdleFacts(s, w);
    } else {
      var i :| i in s.subs && s.subs[i].Sending? && s.subs[i].w == w;
      SubFacts(s, i);
    }
    hide Inv, IsRun;
    if s.workers[w].pc == Arriving {
      assert WorkerNext(s, Arrived(s, w), WArrive(w));
    }
  }

  // ----------------------------------------------------------------- tasks

  /** The order in which a task changes place. */
  ghost predicate Advances(p: Place, q: Place) {
    q == p || p.WithSub? || (p.InChan? && (q.OnWorker? || q.Done?)) || (p.OnWorker? && q.Done?)
  }

  ghost predicate Progress(s: State, s': State) {
    && s'.cfg == s.cfg
    && (s.closed ==> s'.closed)
    && (s.released ==> s'.released)
    && forall t | t in s.place :: t in s'.place && Advances(s.place[t], s'.place[t])
  }

  /** Only a task that a submitter still has, or a new one, can be meant. */
  ghost predicate Loose(s: State, m: Msg) {
    m.Task? && m.id in s.place ==> exists i :: i in s.subs && s.subs[i].m == m
  }

  /** What a submitter's step does to the places of tasks. */
  ghost predicate MovesLoose(s: State, s': State, m: Msg, p: Place) {
    && s'.cfg == s.cfg && s'.closed == s.closed && s'.released == s.released
    && (s'.place == s.place || (s'.place == Moved(s.place, m, p) && Loose(s, m)))
  }

  lemma RetrieveMoves(s: State, s': State, i: SubId)
    requires Retrieve(s, s', i) || Retry(s, s', i)
    ensures i in s.subs && MovesLoose(s, s', s.subs[i].m, Refused)
  {
    hide Retrieve, Retry, Moved, DetachIndex;
    var pc, lock, blocking := EitherSettles(s, s', i);
  }

  lemma EffectsMoveLoose(s: State, i: SubId)
    requires i in s.subs
    ensures forall pc, lock, b :: MovesLoose(s, MoveSub(s, i, pc, lock, b), s.subs[i].m, Refused)
    ensures forall lock :: MovesLoose(s, Refuse(s, i, lock), s.subs[i].m, Refused)
  {
    hide Moved;
  }

  lemma EnterMoves(s: State, s': State, i: SubId, m: Msg)
    requires Enter(s, s', i, m)
    ensures MovesLoose(s, s', m, WithSub(i))
  {
    hide Moved;
  }

  lemma WaitMoves(s: State, s': State, e: Step) returns (m: Msg, p: Place)
    requires SubNext(s, s', e) && Stays(e)
    ensures MovesLoose(s, s', m, p)
  {
    hide Moved, MovesLoose, MoveSub, Refuse, Enter, Retrieve, Retry, Get, Launch, SendTask;
    if e.SEnter? {
      EnterMoves(s, s', e.i, e.m);
      m, p := e.m, WithSub(e.i);
    } else {
      EffectsMoveLoose(s, e.i);
      m, p := s.subs[e.i].m, Refused;
    }
  }

  lemma SendMoves(s: State, s': State, e: Step) returns (m: Msg, p: Place)
    requires SubNext(s, s', e) && (e.SGet? || e.SLaunch? || e.SSend?)
    ensures MovesLoose(s, s', m, p)
  {
    hide Moved, Sent, CanSend, Enter, LockSub, Retrieve, Park, Wake, Retry, RetestClosed;
    m := s.subs[e.i].m;
    p := if e.SSend? then (if s.cfg.chanCap == 0 then OnWorker(s.subs[e.i].w) else InChan(s.subs[e.i].w)) else Refused;
  }

  lemma SubMoves(s: State, s': State, e: Step) returns (m: Msg, p: Place)
    requires SubNext(s, s', e)
    ensures MovesLoose(s, s', m, p)
  {
    hide MovesLoose, Enter, LockSub, Retrieve, Park, Wake, Retry, RetestClosed, Get, Launch, SendTask;
    if e.SRetrieve? || e.SRetry? {
      RetrieveMoves(s, s', e.i);
      m, p := s.subs[e.i].m, Refused;
    } else if Stays(e) {
      m, p := WaitMoves(s, s', e);
    } else {
      m, p := SendMoves(s, s', e);
    }
  }

  lemma ProgressBySub(s: State, s': State, e: Step)
    requires Inv(s) && SubNext(s, s', e)
    ensures Progress(s, s')
  {
    hide LockInv, OwnerInv, SubNext;
    var m, p := SubMoves(s, s', e);
  }

  /** A step that moves no task and opens nothing. */
  ghost predicate MovesNone(s: State, s': State) {
    s'.cfg == s.cfg && (s.closed ==> s'.closed) && (s.released ==> s'.released) && s'.place == s.place
  }

  lemma NoneIsProgress(s: State, s': State)
    requires MovesNone(s, s')
    ensures Progress(s, s')
  {
  }

  lemma ReceiveProgress(s: State, s': State, w: WorkerId)
    requires Inv(s) && Receive(s, s', w)
    ensures Progress(s, s')
  {
    hide LockInv, OwnerInv;
    assert WorkerPlaced(s.place, w, s.workers[w]);
    hide TaskInv, WorkerPlaced, Begun;
  }

  lemma TaskEndsProgress(s: State, s': State, w: WorkerId, quits: bool)
    requires Inv(s) && TaskEnds(s, s', w, quits)
    ensures Progress(s, s')
  {
    hide LockInv, OwnerInv;
    assert WorkerPlaced(s.place, w, s.workers[w]);
    hide TaskInv, WorkerPlaced;
  }

  lemma WorkerMovesNone(s: State, s': State, e: Step)
    requires WorkerNext(s, s', e) && !e.WReceive? && !e.WTaskEnds?
    ensures MovesNone(s, s')
  {
    hide Receive, TaskEnds, InsertFails;
  }

  lemma ProgressByWorker(s: State, s': State, e: Step)
    requires Inv(s) && WorkerNext(s, s', e)
    ensures Progress(s, s')
  {
    hide Inv, Progress, Arrive, Receive, TaskEnds, TestCapacity, TestClosed, Stamp, RevertLock, Revert, DecRunning, PutCache;
    if e.WReceive? {
      ReceiveProgress(s, s', e.w);
    } else if e.WTaskEnds? {
      TaskEndsProgress(s, s', e.w, e.quits);
    } else {
      WorkerMovesNone(s, s', e);
      NoneIsProgress(s, s');
    }
  }

  lemma ProgressByOther(s: State, s': State, e: Step)
    requires OtherNext(s, s', e)
    ensures Progress(s, s')
  {
    assert MovesNone(s, s') by {
      hide Claim, Sent, CanSend;
    }
    hide OtherNext;
    NoneIsProgress(s, s');
  }

  lemma StepProgress(s: State, s': State, e: Step)
    requires Inv(s) && Next(s, s', e)
    ensures Progress(s, s')
  {
    hide Inv, SubNext, WorkerNext, OtherNext, Progress;
    if SubNext(s, s', e) {
      ProgressBySub(s, s', e);
    } else if WorkerNext(s, s', e) {
      ProgressByWorker(s, s', e);
    } else {
      ProgressByOther(s, s', e);
    }
  }

  lemma {:induction false} RunProgress(cfg: Config, states: seq<State>, steps: seq<Step>, j: nat, k: nat)
    requires IsRun(cfg, states, steps) && j <= k < |states|
    ensures Progress(states[j], states[k])
    decreases k - j
  {
    hide Inv, Next;
    if j < k {
      RunProgress(cfg, states, steps, j, k - 1);
      RunKeepsInv(cfg, states, steps, k - 1);
      StepProgress(states[k - 1], states[k], steps[k - 1]);
    }
  }

  /** Task t waits in the channel of a live worker and has not been started. */
  ghost predicate Waits(s: State, t: TaskId, w: WorkerId) {
    w in s.workers && s.workers[w].pc.Live() && s.workers[w].chan == [Task(t)]
  }

  ghost predicate Runs(s: State, t: TaskId, w: WorkerId) {
    w in s.workers && s.workers[w].pc == Executing(t)
  }

  ghost predicate Ended(s: State, t: TaskId) { t in s.place && s.place[t] == Done }

  /**
   Once Submit has sent task t, then in every later state t waits in the channel
   of a live worker and was never started, or was started exactly once and runs
   on a worker or has ended; and it is with one worker only.
   */
  lemma AcceptedTaskIsKept(cfg: Config, states: seq<State>, steps: seq<Step>, j: nat, i: SubId, t: TaskId, k: nat)
    requires IsRun(cfg, states, steps) && j < |steps| && steps[j] == SSend(i)
    requires i in states[j].subs && states[j].subs[i].m == Task(t)
    requires j < k < |states|
    ensures var s := states[k];
            || (s.started[t] == 0 && !Ended(s, t) && (exists w :: Waits(s, t, w)) && (forall w :: !Runs(s, t, w)))
            || (s.started[t] == 1 && !Ended(s, t) && (exists w :: Runs(s, t, w)) && (forall w :: !Waits(s, t, w)))
            || (s.started[t] == 1 && Ended(s, t) && (forall w :: !Waits(s, t, w) && !Runs(s, t, w)))
    ensures var s := states[k];
            forall w, w' | (Waits(s, t, w) || Runs(s, t, w)) && (Waits(s, t, w') || Runs(s, t, w')) :: w == w'
  {
    hide Next, Inv, Waits, Runs;
    assert Next(states[j], states[j + 1], steps[j]);
    SentIsPlaced(states[j], states[j + 1], i, t);
    RunProgress(cfg, states, steps, j + 1, k);
    RunKeepsInv(cfg, states, steps, k);
    hide IsRun;
    TaskPlaces(states[k], t);
  }

  lemma SentIsPlaced(s: State, s': State, i: SubId, t: TaskId)
    requires Next(s, s', SSend(i)) && i in s.subs && s.subs[i].m == Task(t)
    ensures t in s'.place && (s'.place[t].InChan? || s'.place[t].OnWorker?)
  {
    hide CanSend, Sent;
  }

  lemma LeavingIsRefusal(s: State, s': State, e: Step, i: SubId, t: TaskId)
    requires SubNext(s, s', e) && e.i == i && !e.SSend?
    requires i in s.subs && s.subs[i].m == Task(t) && i !in s'.subs
    ensures t in s'.place && s'.place[t] == Refused
  {
    hide TakeIdle, MoveSub, Enter, LockSub, Wake, Get, Launch, SendTask;
    if e.SRetrieve? || e.SRetry? || e.SPark? || e.SRetest? {
      StillInside(s, i);
    } else {
      OnlyTheseLeave(s, s', e);
    }
  }

  lemma StillInside(s: State, i: SubId)
    ensures forall pc, lock, b :: i in MoveSub(s, i, pc, lock, b).subs
    ensures forall k, b | i in s.subs && 0 <= k < |s.idle| && s.idle[k] in s.workers :: i in TakeIdle(s, i, k, b).subs
  {
  }

  lemma OnlyTheseLeave(s: State, s': State, e: Step)
    requires SubNext(s, s', e) && !e.SRetrieve? && !e.SRetry? && !e.SPark? && !e.SRetest? && !e.SSend?
    ensures e.i in s'.subs
  {
  }

  /** A task whose Submit returned without sending it is never started. */
  lemma RefusedTaskNeverRuns(cfg: Config, states: seq<State>, steps: seq<Step>, j: nat, i: SubId, t: TaskId, k: nat)
    requires IsRun(cfg, states, steps) && j < |steps| && SubNext(states[j], states[j + 1], steps[j])
    requires steps[j].i == i && !steps[j].SSend?
    requires i in states[j].subs && states[j].subs[i].m == Task(t) && i !in states[j + 1].subs
    requires j < k < |states|
    ensures states[k].started[t] == 0 && forall w :: !Waits(states[k], t, w) && !Runs(states[k], t, w)
  {
    hide SubNext, Next, Inv;
    LeavingIsRefusal(states[j], states[j + 1], steps[j], i, t);
    RunProgress(cfg, states, steps, j + 1, k);
    RunKeepsInv(cfg, states, steps, k);
    TaskPlaces(states[k], t);
  }

  lemma TaskPlaces(s: State, t: TaskId)
    requires Inv(s) && t in s.place
    ensures forall w | Waits(s, t, w) :: s.place[t] == InChan(w)
    ensures forall w | Runs(s, t, w) :: s.place[t] == OnWorker(w)
    ensures s.place[t].InChan? ==> Waits(s, t, s.place[t].w) && s.started[t] == 0
    ensures s.place[t].OnWorker? ==> Runs(s, t, s.place[t].w) && s.started[t] == 1
    ensures s.place[t] == Done ==> s.started[t] == 1
    ensures s.place[t] == Refused ==> s.started[t] == 0
  {
    hide LockInv;
  }
}
