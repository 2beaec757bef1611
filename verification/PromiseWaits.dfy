/**
 Promises that wait for one another.  resolve waits for the promise it is given
 with the mutex of its own promise held (util/process/progoroutine.go:154-178),
 so promises resolved with one another can be stuck; and given a nil promise it
 panics with the mutex held, so that the recovering reject waits for ever.  Every
 other pending promise can still settle.
 */
module PromiseWaits {
  import opened Promise
  import opened Sets
  import opened Wrappers

  /** p is pending, and the call that holds its mutex waits for q or is about to. */
  predicate WaitsFor(s: State, p: nat, q: nat) {
    && p < |s.promises| && s.promises[p].pending
    && s.promises[p].owner.Some? && s.promises[p].owner.value < |s.calls|
    && var pc := s.calls[s.promises[p].owner.value].pc; pc == Waiting(q) || pc == Checking(Resolve(Prom(q)))
  }

  predicate WaitsWithin(s: State, p: nat, stuck: set<nat>) { exists q | q in stuck :: WaitsFor(s, p, q) }

  /** p is pending, and the call that holds its mutex has panicked on a nil promise or is about to. */
  predicate Crashes(s: State, p: nat) {
    && p < |s.promises| && s.promises[p].pending
    && s.promises[p].owner.Some? && s.promises[p].owner.value < |s.calls|
    && var pc := s.calls[s.promises[p].owner.value].pc; pc == Crashed || pc == Checking(Resolve(NilProm))
  }

  predicate Blocked(s: State, p: nat, stuck: set<nat>) { Crashes(s, p) || WaitsWithin(s, p, stuck) }

  /** Every promise of the set has its mutex lost to a nil promise, or waits for one of the set. */
  predicate Stuck(s: State, stuck: set<nat>) {
    forall p {:trigger Blocked(s, p, stuck)} | p in stuck :: Blocked(s, p, stuck)
  }

  lemma StuckIsPending(s: State, stuck: set<nat>, p: nat)
    requires Inv(s) && Stuck(s, stuck) && p in stuck
    ensures p < |s.promises| && s.promises[p].pending && s.promises[p].wg == 1
  {
    assert Blocked(s, p, stuck);
    Every(s, p);
    hide Explained;
  }

  lemma StaysWaiting(s: State, step: Step, p: nat, q: nat)
    requires Inv(s) && Enabled(s, step) && WaitsFor(s, p, q) && q < |s.promises| && s.promises[q].wg == 1
    ensures WaitsFor(Apply(s, step), p, q)
  {
    var c := s.promises[p].owner.value;
    OwnerKnown(s, p);
    if step.Act? && step.call != c {
      OthersKeepTheirs(s, step.call, c);
    }
    hide Inv, OwnerOk;
  }

  lemma StaysCrashing(s: State, step: Step, p: nat)
    requires Inv(s) && Enabled(s, step) && Crashes(s, p)
    ensures Crashes(Apply(s, step), p)
  {
    var c := s.promises[p].owner.value;
    OwnerKnown(s, p);
    if step.Act? && step.call != c {
      OthersKeepTheirs(s, step.call, c);
    }
    hide Inv, OwnerOk;
  }

  lemma StuckStays(s: State, step: Step, stuck: set<nat>)
    requires Inv(s) && Enabled(s, step) && Stuck(s, stuck)
    ensures Stuck(Apply(s, step), stuck)
  {
    hide Inv, Enabled, Apply;
    forall p | p in stuck ensures Blocked(Apply(s, step), p, stuck) {
      assert Blocked(s, p, stuck);
      if Crashes(s, p) {
        StaysCrashing(s, step, p);
      } else {
        var q :| q in stuck && WaitsFor(s, p, q);
        StuckIsPending(s, stuck, q);
        StaysWaiting(s, step, p, q);
      }
    }
  }

  /** Promises whose mutex is lost, or that wait for such or for one another, stay pending in every continuation. */
  lemma {:induction false} StuckNeverSettles(s: State, steps: seq<Step>, stuck: set<nat>, p: nat)
    requires Inv(s) && CanRun(s, steps) && Stuck(s, stuck) && p in stuck
    ensures p < |Run(s, steps).promises| && Run(s, steps).promises[p].pending
    decreases |steps|
  {
    hide Inv, Stuck;
    if steps == [] {
      StuckIsPending(s, stuck, p);
    } else {
      StepKeepsInv(s, steps[0]);
      StuckStays(s, steps[0], stuck);
      StuckNeverSettles(Apply(s, steps[0]), steps[1..], stuck, p);
    }
  }

  /** A promise resolved with itself, as far as the wait. */
  lemma SelfResolveIsStuck() returns (steps: seq<Step>)
    ensures CanRun(START, steps) && Stuck(Run(START, steps), {0})
  {
    var r := Resolve(Prom(0));
    var s1 := Apply(START, New);
    var s2 := Apply(s1, Invoke(0, r));
    var s3 := Apply(s2, Act(0));
    var s4 := Apply(s3, Act(0));
    assert WaitsFor(s4, 0, 0);
    assert Blocked(s4, 0, {0});
    hide Apply, Enabled;
    RunOne(s3, Act(0), []);
    RunOne(s2, Act(0), [Act(0)] + []);
    RunOne(s1, Invoke(0, r), [Act(0)] + ([Act(0)] + []));
    RunOne(START, New, [Invoke(0, r)] + ([Act(0)] + ([Act(0)] + [])));
    steps := [New] + ([Invoke(0, r)] + ([Act(0)] + ([Act(0)] + [])));
  }

  /** A promise resolved with a nil promise, as far as the panic. */
  lemma NilResolveIsStuck() returns (steps: seq<Step>)
    ensures CanRun(START, steps) && Stuck(Run(START, steps), {0})
  {
    var r := Resolve(NilProm);
    var s1 := Apply(START, New);
    var s2 := Apply(s1, Invoke(0, r));
    var s3 := Apply(s2, Act(0));
    var s4 := Apply(s3, Act(0));
    assert Crashes(s4, 0);
    assert Blocked(s4, 0, {0});
    hide Apply, Enabled;
    RunOne(s3, Act(0), []);
    RunOne(s2, Act(0), [Act(0)] + []);
    RunOne(s1, Invoke(0, r), [Act(0)] + ([Act(0)] + []));
    RunOne(START, New, [Invoke(0, r)] + ([Act(0)] + ([Act(0)] + [])));
    steps := [New] + ([Invoke(0, r)] + ([Act(0)] + ([Act(0)] + [])));
  }

  // ------------------------------------------------ every other promise can settle

  /** q is settled and its counter is 0, so that waiting for it is over. */
  predicate Over(ps: seq<Promise>, q: nat) { q < |ps| && !ps[q].pending && ps[q].wg == 0 }

  /** Nothing but its own steps is between the call and a settled promise. */
  predicate Drivable(ps: seq<Promise>, call: Call) {
    && call.target < |ps|
    && match call.pc
       case Entering(r) => Flat(r) && ps[call.target].pending && ps[call.target].owner.None?
       case Checking(r) => ps[call.target].pending && (Flat(r) || (r.value.Prom? && Over(ps, r.value.id)))
       case Waiting(q) => Over(ps, q)
       case Reading(q) => Over(ps, q)
       case Crashed => false
       case Leaving => false
       case Returned => false
       case _ => true
  }

  function StepsLeft(pc: Pc): nat {
    match pc
    case Entering(_) => 6
    case Checking(r) => if Flat(r) then 5 else 10
    case Waiting(_) => 9
    case Reading(_) => 8
    case Passing(_) => 7
    case Crashed => 0
    case Storing(_) => 4
    case Clearing(_) => 3
    case Signalling => 2
    case Leaving => 1
    case Returned => 0
  }

  /** Only call c and its promise differ. */
  predicate OnlyOne(s: State, t: State, c: nat, p: nat) {
    && |t.promises| == |s.promises| && |t.calls| == |s.calls|
    && (forall q | 0 <= q < |s.promises| && q != p :: t.promises[q] == s.promises[q])
    && (forall d | 0 <= d < |s.calls| && d != c :: t.calls[d] == s.calls[d])
  }

  lemma DriveOnce(s: State, c: nat)
    requires Inv(s) && c < |s.calls| && Drivable(s.promises, s.calls[c])
    ensures Enabled(s, Act(c)) && OnlyOne(s, Apply(s, Act(c)), c, s.calls[c].target)
    ensures var t := Apply(s, Act(c));
            && t.calls[c].target == s.calls[c].target && StepsLeft(t.calls[c].pc) < StepsLeft(s.calls[c].pc)
            && (if s.calls[c].pc.Signalling? then Over(t.promises, s.calls[c].target) else Drivable(t.promises, t.calls[c]))
  {
    var call := s.calls[c];
    assert CallOk(s.promises, c, call);
    Every(s, call.target);
    hide Explained, Amounts, Inv;
  }

  /** A call that can be driven settles its promise by its own steps alone. */
  lemma {:induction false} Drive(s: State, c: nat) returns (steps: seq<Step>)
    requires Inv(s) && c < |s.calls| && Drivable(s.promises, s.calls[c])
    ensures CanRun(s, steps) && Inv(Run(s, steps))
    ensures var t := Run(s, steps); OnlyOne(s, t, c, s.calls[c].target) && Over(t.promises, s.calls[c].target)
    decreases StepsLeft(s.calls[c].pc)
  {
    hide Inv, Enabled, Apply, Drivable, Over;
    DriveOnce(s, c);
    StepKeepsInv(s, Act(c));
    var t := Apply(s, Act(c));
    var rest := [];
    if !s.calls[c].pc.Signalling? {
      rest := Drive(t, c);
    }
    RunOne(s, Act(c), rest);
    steps := [Act(c)] + rest;
  }

  /** The promises of the set, and the calls that hold them, are as they were. */
  predicate Untouched(s: State, t: State, held: set<nat>) {
    && |s.promises| <= |t.promises|
    && forall v | v in held && v < |s.promises| ::
         && t.promises[v] == s.promises[v]
         && (s.promises[v].owner.Some? && s.promises[v].owner.value < |s.calls| ==>
               s.promises[v].owner.value < |t.calls| && t.calls[s.promises[v].owner.value] == s.calls[s.promises[v].owner.value])
  }

  lemma OneLeavesUntouched(s: State, t: State, c: nat, p: nat, held: set<nat>)
    requires Inv(s) && c < |s.calls| && s.calls[c].target == p && OnlyOne(s, t, c, p) && p !in held
    ensures Untouched(s, t, held)
  {
    forall v | v in held && v < |s.promises| ensures OwnerOk(v, s.promises[v].owner, s.calls) {
      OwnerKnown(s, v);
    }
    hide Inv;
  }

  lemma UntouchedTwice(s: State, t: State, u: State, held: set<nat>)
    requires Untouched(s, t, held) && Untouched(t, u, held)
    ensures Untouched(s, u, held)
  {
  }

  lemma {:induction false} RunTogether(s: State, xs: seq<Step>, ys: seq<Step>)
    requires CanRun(s, xs) && CanRun(Run(s, xs), ys)
    ensures CanRun(s, xs + ys) && Run(s, xs + ys) == Run(Run(s, xs), ys)
    decreases |xs|
  {
    hide Enabled, Apply;
    if xs == [] {
      assert xs + ys == ys;
    } else {
      RunTogether(Apply(s, xs[0]), xs[1..], ys);
      assert (xs + ys)[1..] == xs[1..] + ys;
    }
  }

  /** What a run does to settle p while it leaves `held` alone. */
  predicate EndsOver(s: State, steps: seq<Step>, p: nat, held: set<nat>) {
    CanRun(s, steps) && Over(Run(s, steps).promises, p) && Untouched(s, Run(s, steps), held)
  }

  lemma DriveOwner(s: State, p: nat, held: set<nat>) returns (steps: seq<Step>)
    requires Inv(s) && p < |s.promises| && p !in held && s.promises[p].owner.Some?
    requires s.promises[p].owner.value < |s.calls| && Drivable(s.promises, s.calls[s.promises[p].owner.value])
    ensures EndsOver(s, steps, p, held) && Inv(Run(s, steps))
  {
    var c := s.promises[p].owner.value;
    OwnerKnown(s, p);
    hide Inv, Drivable, Over, OnlyOne, Untouched, CanRun, Run;
    steps := Drive(s, c);
    OneLeavesUntouched(s, Run(s, steps), c, p, held);
  }

  /** A free promise is settled by a call of its own. */
  lemma RejectFree(s: State, p: nat, held: set<nat>) returns (steps: seq<Step>)
    requires Inv(s) && p < |s.promises| && p !in held && s.promises[p].owner.None? && s.promises[p].pending
    ensures EndsOver(s, steps, p, held) && Inv(Run(s, steps))
  {
    var step := Invoke(p, Reject(None));
    StepKeepsInv(s, step);
    var t, c := Apply(s, step), |s.calls|;
    assert Drivable(t.promises, t.calls[c]);
    assert Untouched(s, t, held);
    hide Inv, Drivable, Over, OnlyOne, CanRun, Run, Untouched;
    var rest := Drive(t, c);
    OneLeavesUntouched(t, Run(t, rest), c, p, held);
    UntouchedTwice(s, t, Run(t, rest), held);
    RunOne(s, step, rest);
    steps := [step] + rest;
  }

  /** A promise whose holder waits for nobody settles. */
  lemma SettleOne(s: State, p: nat, held: set<nat>) returns (steps: seq<Step>)
    requires Inv(s) && p < |s.promises| && p !in held
    requires !Crashes(s, p) && forall q :: WaitsFor(s, p, q) ==> Over(s.promises, q)
    ensures EndsOver(s, steps, p, held) && Inv(Run(s, steps))
  {
    Every(s, p);
    OwnerKnown(s, p);
    if Over(s.promises, p) {
      steps := [];
    } else if s.promises[p].owner.None? {
      hide Inv;
      steps := RejectFree(s, p, held);
    } else {
      OwnerDrivable(s, p);
      hide Inv, EndsOver;
      steps := DriveOwner(s, p, held);
    }
  }

  lemma OwnerDrivable(s: State, p: nat)
    requires Inv(s) && p < |s.promises| && !Over(s.promises, p) && s.promises[p].owner.Some?
    requires !Crashes(s, p) && forall q :: WaitsFor(s, p, q) ==> Over(s.promises, q)
    ensures s.promises[p].owner.value < |s.calls| && Drivable(s.promises, s.calls[s.promises[p].owner.value])
  {
    Every(s, p);
    var c := s.promises[p].owner.value;
    var call := s.calls[c];
    assert CallOk(s.promises, c, call);
    match call.pc {
      case Checking(r) =>
        if !Flat(r) && s.promises[p].pending && r.value.Prom? { assert WaitsFor(s, p, r.value.id); }
      case Waiting(q) => assert WaitsFor(s, p, q);
      case Reading(q) => Every(s, q);
      case _ =>
    }
    hide Inv, Explained, Amounts;
  }

  lemma WaitsForOne(s: State, p: nat, q: nat, r: nat)
    requires WaitsFor(s, p, q) && WaitsFor(s, p, r)
    ensures q == r
  {
  }

  lemma WaitedForExists(s: State, p: nat, q: nat)
    requires Inv(s) && WaitsFor(s, p, q)
    ensures q < |s.promises|
  {
    var c := s.promises[p].owner.value;
    assert CallOk(s.promises, c, s.calls[c]);
    hide PromiseOk;
  }

  lemma UntouchedWaits(s: State, t: State, held: set<nat>, p: nat, q: nat)
    requires Untouched(s, t, held) && p in held && p < |s.promises|
    requires s.promises[p].owner.Some? ==> s.promises[p].owner.value < |s.calls|
    ensures WaitsFor(t, p, q) <==> WaitsFor(s, p, q)
    ensures Crashes(t, p) <==> Crashes(s, p)
  {
  }

  /** Everything of the set waits for something of the set or for p. */
  predicate ChainTo(s: State, held: set<nat>, p: nat) {
    forall v {:trigger WaitsWithin(s, v, held + {p})} | v in held :: WaitsWithin(s, v, held + {p})
  }

  lemma ChainGrows(s: State, held: set<nat>, p: nat, q: nat)
    requires ChainTo(s, held, p) && WaitsFor(s, p, q)
    ensures ChainTo(s, held + {p}, q)
  {
    forall v | v in held + {p} ensures WaitsWithin(s, v, held + {p} + {q}) {
      if v in held {
        assert WaitsWithin(s, v, held + {p});
        var r :| r in held + {p} && WaitsFor(s, v, r);
      }
    }
  }

  /** A chain that comes back to itself, or to a promise whose mutex is lost, is stuck. */
  lemma ChainIsStuck(s: State, held: set<nat>, p: nat)
    requires ChainTo(s, held, p) && (p in held || Crashes(s, p))
    ensures Stuck(s, held + {p})
  {
    forall v | v in held + {p} ensures Blocked(s, v, held + {p}) {
      assert v in held ==> WaitsWithin(s, v, held + {p});
    }
  }

  ghost predicate Doomed(s: State, p: nat) { exists stuck: set<nat> :: p in stuck && Stuck(s, stuck) }

  /** Following who waits for whom from a promise that is in no stuck set comes to one that waits for nobody. */
  lemma {:induction false} SettleFrom(s: State, p: nat, held: set<nat>, first: nat) returns (steps: seq<Step>)
    requires Inv(s) && p < |s.promises| && (forall v | v in held :: v < |s.promises|) && ChainTo(s, held, p)
    requires first in held + {p} && !Doomed(s, first)
    ensures EndsOver(s, steps, p, held) && Inv(Run(s, steps))
    decreases |s.promises| - |held|
  {
    hide Inv, ChainTo, Doomed, Stuck, WaitsFor, Crashes, EndsOver, Over, CanRun, Run;
    NotBack(s, p, held, first);
    RoomLeft(held, |s.promises|, p);
    if q :| WaitsFor(s, p, q) && !Over(s.promises, q) {
      WaitedForExists(s, p, q);
      ChainGrows(s, held, p, q);
      var xs := SettleFrom(s, q, held + {p}, first);
      steps := ThenSettle(s, p, q, held, xs);
    } else {
      steps := SettleOne(s, p, held);
    }
  }

  lemma NotBack(s: State, p: nat, held: set<nat>, first: nat)
    requires ChainTo(s, held, p) && first in held + {p} && !Doomed(s, first)
    ensures p !in held && !Crashes(s, p)
  {
    if p in held || Crashes(s, p) {
      ChainIsStuck(s, held, p);
    }
  }

  lemma RoomLeft(held: set<nat>, n: nat, p: nat)
    requires (forall v | v in held :: v < n) && p < n && p !in held
    ensures |held| < n
  {
    assert held + {p} <= Below(n);
    SubsetSize(held + {p}, Below(n));
  }

  /** Once q is settled its waiter p can settle too. */
  lemma ThenSettle(s: State, p: nat, q: nat, held: set<nat>, xs: seq<Step>) returns (steps: seq<Step>)
    requires Inv(s) && WaitsFor(s, p, q) && !Crashes(s, p) && p !in held && EndsOver(s, xs, q, held + {p}) && Inv(Run(s, xs))
    ensures EndsOver(s, steps, p, held) && Inv(Run(s, steps))
  {
    var t := Run(s, xs);
    forall r | WaitsFor(t, p, r) ensures Over(t.promises, r) {
      UntouchedWaits(s, t, held + {p}, p, r);
      WaitsForOne(s, p, q, r);
    }
    UntouchedWaits(s, t, held + {p}, p, q);
    assert Untouched(s, t, held);
    assert p < |t.promises|;
    hide Inv, WaitsFor, Crashes, Untouched, Over, CanRun, Run;
    var ys := SettleOne(t, p, held);
    RunTogether(s, xs, ys);
    UntouchedTwice(s, t, Run(t, ys), held);
    steps := xs + ys;
  }

  ghost predicate CanSettle(s: State, p: nat) {
    exists steps :: CanRun(s, steps) && Settled(Run(s, steps).promises, p)
  }

  /**
   A pending promise can still settle if and only if it is in no set of promises
   each of which has lost its mutex to a nil promise or waits for one of the set.
   */
  lemma CanSettleIffNotDoomed(s: State, p: nat)
    requires Inv(s) && p < |s.promises| && s.promises[p].pending
    ensures CanSettle(s, p) <==> !Doomed(s, p)
  {
    if Doomed(s, p) {
      var stuck: set<nat> :| p in stuck && Stuck(s, stuck);
      forall steps | CanRun(s, steps) ensures !Settled(Run(s, steps).promises, p) {
        StuckNeverSettles(s, steps, stuck, p);
      }
    } else {
      var steps := SettleFrom(s, p, {}, p);
    }
  }
}
