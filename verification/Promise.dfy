/**
 Promises of util/process/progoroutine.go: resolve, reject and a recovered
 panic racing to settle a promise, and promises chained into resolve, a nil
 *ProGoroutine among them.

 An executor is arbitrary: at any time it may call resolve or reject of any
 promise it can reach, from any goroutine and any number of times, and a panic
 is one more call of reject.  A call then takes its steps one at a time, and
 the steps of all calls interleave freely: locking, testing pending, waiting
 for another promise with the mutex held, and each of the three writes.
 */
module Promise {
  import opened Wrappers

  /** What a promise can be resolved with; nil is a plain value, a nil *ProGoroutine is not. */
  datatype Value = Plain(datum: int) | Prom(id: nat) | NilProm

  const NIL := Plain(0)

  type Error = int

  /** reject may be given a nil error. */
  datatype Request = Resolve(value: Value) | Reject(err: Option<Error>)

  /**
   A promise and who holds its mutex.  winner and stamp are history: the call
   that cleared pending, and how many promises had been settled before.
   */
  datatype Promise = Promise(
    pending: bool, result: Value, err: Option<Error>, wg: int, owner: Option<nat>,
    winner: nat, stamp: nat)

  const FRESH := Promise(true, NIL, None, 1, None, 0, 0)

  /** Where a call of resolve or reject is. */
  datatype Pc =
    | Entering(r: Request)
    | Checking(r: Request)
    | Waiting(on: nat)
    | Reading(on: nat)
    | Passing(e: Error)
    | Crashed                 // Await of a nil promise panicked: nobody unlocks the mutex
    | Storing(r: Request)
    | Clearing(r: Request)
    | Signalling
    | Leaving
    | Returned

  datatype Call = Call(target: nat, request: Request, pc: Pc)

  datatype State = State(promises: seq<Promise>, calls: seq<Call>, clock: nat)

  datatype Step = New | Invoke(target: nat, request: Request) | Act(call: nat)

  const START := State([], [], 0)

  // ------------------------------------------------------------------- steps

  predicate Enabled(s: State, step: Step) {
    match step
    case New => true
    case Invoke(p, r) => p < |s.promises| && (r.Resolve? && r.value.Prom? ==> r.value.id < |s.promises|)
    case Act(c) => c < |s.calls| && s.calls[c].target < |s.promises| && CanAct(s.promises, s.calls[c])
  }

  predicate CanAct(ps: seq<Promise>, call: Call)
    requires call.target < |ps|
  {
    match call.pc
    case Entering(_) => ps[call.target].owner.None?
    case Waiting(q) => q < |ps| && ps[q].wg == 0
    case Reading(q) => q < |ps|
    case Crashed => false
    case Returned => false
    case _ => true
  }

  /** The call's next place. */
  function NextPc(ps: seq<Promise>, call: Call): Pc
    requires call.target < |ps| && CanAct(ps, call)
  {
    match call.pc
    case Entering(r) => Checking(r)
    case Checking(r) =>
      if !ps[call.target].pending then Leaving
      else if r.Resolve? && r.value.Prom? then Waiting(r.value.id)
      else if r == Resolve(NilProm) then Crashed
      else Storing(r)
    case Waiting(q) => Reading(q)
    case Reading(q) => if ps[q].err.Some? then Passing(ps[q].err.value) else Storing(Resolve(ps[q].result))
    case Passing(e) => Entering(Reject(Some(e)))
    case Storing(r) => Clearing(r)
    case Clearing(_) => Signalling
    case Signalling => Leaving
    case Leaving => Returned
  }

  /** What the call does to its promise. */
  function Touched(p: Promise, c: nat, pc: Pc, clock: nat): Promise {
    match pc
    case Entering(_) => p.(owner := Some(c))
    case Passing(_) => p.(owner := None)
    case Storing(r) => if r.Resolve? then p.(result := r.value) else p.(err := r.err)
    case Clearing(_) => p.(pending := false, winner := c, stamp := clock)
    case Signalling => p.(wg := p.wg - 1)
    case Leaving => p.(owner := None)
    case _ => p
  }

  function Apply(s: State, step: Step): State
    requires Enabled(s, step)
  {
    match step
    case New => s.(promises := s.promises + [FRESH])
    case Invoke(p, r) => s.(calls := s.calls + [Call(p, r, Entering(r))])
    case Act(c) =>
      var call := s.calls[c];
      State(
        s.promises[call.target := Touched(s.promises[call.target], c, call.pc, s.clock)],
        s.calls[c := call.(pc := NextPc(s.promises, call))],
        if call.pc.Clearing? then s.clock + 1 else s.clock)
  }

  predicate CanRun(s: State, steps: seq<Step>)
    decreases |steps|
  {
    steps == [] || (Enabled(s, steps[0]) && CanRun(Apply(s, steps[0]), steps[1..]))
  }

  function Run(s: State, steps: seq<Step>): State
    requires CanRun(s, steps)
    decreases |steps|
  {
    if steps == [] then s else Run(Apply(s, steps[0]), steps[1..])
  }

  // --------------------------------------------------------------- invariant

  predicate Holds(pc: Pc) { !pc.Entering? && !pc.Returned? }

  /** Between finding the promise pending and clearing it. */
  predicate Settling(pc: Pc) { pc.Waiting? || pc.Reading? || pc.Passing? || pc.Crashed? || pc.Storing? || pc.Clearing? }

  /** What awaiting a settled promise amounts to. */
  function Told(p: Promise): Request { if p.err.Some? then Reject(p.err) else Resolve(p.result) }

  predicate Settled(ps: seq<Promise>, q: nat) { q < |ps| && !ps[q].pending }

  /** r is what a request comes down to: itself, or the outcome of the promise it names. */
  predicate Amounts(ps: seq<Promise>, request: Request, r: Request) {
    if request.Resolve? && request.value.Prom?
    then Settled(ps, request.value.id) && r == Told(ps[request.value.id])
    else r == request
  }

  predicate Wrote(p: Promise, r: Request) {
    match r
    case Resolve(v) => p.result == v && p.err == None
    case Reject(e) => p.result == NIL && p.err == e
  }

  predicate Flat(r: Request) { r.Resolve? ==> r.value.Plain? }

  predicate CallOk(ps: seq<Promise>, c: nat, call: Call) {
    && call.target < |ps|
    && (Holds(call.pc) ==> ps[call.target].owner == Some(c))
    && (Settling(call.pc) ==> ps[call.target].pending)
    && (call.pc.Signalling? || call.pc.Leaving? || call.pc.Returned? ==> !ps[call.target].pending)
    && (call.request.Resolve? && call.request.value.Prom? ==> call.request.value.id < |ps|)
    && match call.pc
       case Entering(r) => r == call.request || (Amounts(ps, call.request, r) && Flat(r))
       case Checking(r) => r == call.request || (Amounts(ps, call.request, r) && Flat(r))
       case Waiting(q) => call.request == Resolve(Prom(q))
       case Reading(q) => call.request == Resolve(Prom(q)) && q < |ps| && ps[q].wg == 0
       case Passing(e) => Amounts(ps, call.request, Reject(Some(e)))
       case Crashed => call.request == Resolve(NilProm)
       case Storing(r) => Amounts(ps, call.request, r) && Flat(r)
       case Clearing(r) => Amounts(ps, call.request, r) && Flat(r) && Wrote(ps[call.target], r)
       case _ => true
  }

  /** Who holds the mutex, and at which point. */
  predicate OwnerOk(p: nat, owner: Option<nat>, cs: seq<Call>) {
    owner.Some? ==> owner.value < |cs| && cs[owner.value].target == p && Holds(cs[owner.value].pc)
  }

  predicate At(owner: Option<nat>, cs: seq<Call>, signalling: bool) {
    && owner.Some? && owner.value < |cs|
    && if signalling then cs[owner.value].pc.Signalling? else cs[owner.value].pc.Clearing?
  }

  /** A settled promise holds what the call that settled it asked for. */
  ghost predicate Explained(ps: seq<Promise>, p: nat, cs: seq<Call>, clock: nat)
    requires p < |ps|
  {
    var w, stamp := ps[p].winner, ps[p].stamp;
    && stamp < clock && w < |cs| && cs[w].target == p
    && (exists r :: Amounts(ps, cs[w].request, r) && Wrote(ps[p], r))
    && (cs[w].request.Resolve? && cs[w].request.value.Prom? ==>
          Settled(ps, cs[w].request.value.id) && ps[cs[w].request.value.id].stamp < stamp)
  }

  ghost predicate PromiseOk(ps: seq<Promise>, p: nat, cs: seq<Call>, clock: nat)
    requires p < |ps|
  {
    var x := ps[p];
    && OwnerOk(p, x.owner, cs)
    && x.wg == (if x.pending || At(x.owner, cs, true) then 1 else 0)
    && x.result.Plain?
    && (x.pending && !At(x.owner, cs, false) ==> x.result == NIL && x.err == None)
    && (!x.pending ==> Explained(ps, p, cs, clock))
  }

  ghost predicate Inv(s: State) {
    && (forall c | 0 <= c < |s.calls| :: CallOk(s.promises, c, s.calls[c]))
    && (forall p | 0 <= p < |s.promises| :: PromiseOk(s.promises, p, s.calls, s.clock))
  }

  /** How promises may change: one that is settled keeps its outcome, and a counter at 0 stays there. */
  predicate Kept(a: Promise, b: Promise) {
    && (!a.pending ==> !b.pending && b.result == a.result && b.err == a.err && b.winner == a.winner && b.stamp == a.stamp)
    && (a.wg == 0 ==> b.wg == 0)
  }

  predicate Grown(ps: seq<Promise>, qs: seq<Promise>) {
    |ps| <= |qs| && forall p | 0 <= p < |ps| :: Kept(ps[p], qs[p])
  }

  lemma AmountsKept(ps: seq<Promise>, qs: seq<Promise>, request: Request, r: Request)
    requires Grown(ps, qs) && Amounts(ps, request, r)
    ensures Amounts(qs, request, r)
  {
  }

  /** A call that does not move stays right if nobody took its mutex from it. */
  lemma OtherCall(ps: seq<Promise>, qs: seq<Promise>, c: nat, call: Call)
    requires CallOk(ps, c, call) && Grown(ps, qs)
    requires Holds(call.pc) ==> qs[call.target] == ps[call.target]
    ensures CallOk(qs, c, call)
  {
    hide Amounts;
    match call.pc
    case Entering(r) => if Amounts(ps, call.request, r) { AmountsKept(ps, qs, call.request, r); }
    case Checking(r) => if Amounts(ps, call.request, r) { AmountsKept(ps, qs, call.request, r); }
    case Passing(e) => AmountsKept(ps, qs, call.request, Reject(Some(e)));
    case Storing(r) => AmountsKept(ps, qs, call.request, r);
    case Clearing(r) => AmountsKept(ps, qs, call.request, r);
    case _ =>
  }

  predicate SameCalls(cs: seq<Call>, ds: seq<Call>) {
    |cs| <= |ds| && forall c | 0 <= c < |cs| :: ds[c].target == cs[c].target && ds[c].request == cs[c].request
  }

  lemma ExplainedKept(ps: seq<Promise>, qs: seq<Promise>, p: nat, cs: seq<Call>, ds: seq<Call>, clock: nat, later: nat)
    requires p < |ps| && !ps[p].pending && Explained(ps, p, cs, clock)
    requires Grown(ps, qs) && SameCalls(cs, ds) && clock <= later
    ensures Explained(qs, p, ds, later)
  {
    assert Kept(ps[p], qs[p]);
    var request := cs[ps[p].winner].request;
    var r :| Amounts(ps, request, r) && Wrote(ps[p], r);
    AmountsKept(ps, qs, request, r);
    assert Wrote(qs[p], r);
    if request.Resolve? && request.value.Prom? {
      assert Kept(ps[request.value.id], qs[request.value.id]);
    }
  }

  /** A promise that is not touched stays right if its holder does not move. */
  lemma OtherPromise(ps: seq<Promise>, qs: seq<Promise>, p: nat, cs: seq<Call>, ds: seq<Call>, clock: nat, later: nat)
    requires p < |ps| && PromiseOk(ps, p, cs, clock)
    requires Grown(ps, qs) && SameCalls(cs, ds) && clock <= later && qs[p] == ps[p]
    requires ps[p].owner.Some? ==> ds[ps[p].owner.value].pc == cs[ps[p].owner.value].pc
    ensures PromiseOk(qs, p, ds, later)
  {
    hide Explained;
    if !ps[p].pending {
      ExplainedKept(ps, qs, p, cs, ds, clock, later);
    }
  }

  // ------------------------------------------------------------- every step

  lemma NewKeepsInv(s: State)
    requires Inv(s)
    ensures Inv(Apply(s, New)) && Grown(s.promises, Apply(s, New).promises)
  {
    var t := Apply(s, New);
    hide CallOk, PromiseOk;
    forall c | 0 <= c < |t.calls| ensures CallOk(t.promises, c, t.calls[c]) {
      CallTarget(s.promises, c, s.calls[c]);
      OtherCall(s.promises, t.promises, c, s.calls[c]);
    }
    forall p | 0 <= p < |t.promises| ensures PromiseOk(t.promises, p, t.calls, t.clock) {
      if p < |s.promises| {
        OtherPromise(s.promises, t.promises, p, s.calls, t.calls, s.clock, t.clock);
      } else {
        FreshOk(t.promises, p, t.calls, t.clock);
      }
    }
  }

  lemma CallTarget(ps: seq<Promise>, c: nat, call: Call)
    requires CallOk(ps, c, call)
    ensures call.target < |ps|
  {
  }

  lemma OwnerKnown(s: State, p: nat)
    requires Inv(s) && p < |s.promises|
    ensures PromiseOk(s.promises, p, s.calls, s.clock) && OwnerOk(p, s.promises[p].owner, s.calls)
  {
  }

  lemma FreshOk(ps: seq<Promise>, p: nat, cs: seq<Call>, clock: nat)
    requires p < |ps| && ps[p] == FRESH
    ensures PromiseOk(ps, p, cs, clock)
  {
  }

  lemma InvokeKeepsInv(s: State, p: nat, r: Request)
    requires Inv(s) && Enabled(s, Invoke(p, r))
    ensures Inv(Apply(s, Invoke(p, r))) && Grown(s.promises, Apply(s, Invoke(p, r)).promises)
  {
    var t := Apply(s, Invoke(p, r));
    forall c | 0 <= c < |t.calls| ensures CallOk(t.promises, c, t.calls[c]) {
      if c < |s.calls| {
        assert CallOk(s.promises, c, s.calls[c]);
      }
    }
    hide CallOk;
    forall q | 0 <= q < |t.promises| ensures PromiseOk(t.promises, q, t.calls, t.clock) {
      OwnerKnown(s, q);
      hide PromiseOk;
      OtherPromise(s.promises, t.promises, q, s.calls, t.calls, s.clock, t.clock);
    }
  }

  /** The promise that a call works on, after the call's step. */
  lemma TouchedKept(s: State, c: nat)
    requires Inv(s) && Enabled(s, Act(c))
    ensures var p := s.calls[c].target;
            Kept(s.promises[p], Touched(s.promises[p], c, s.calls[c].pc, s.clock))
  {
    var call := s.calls[c];
    assert CallOk(s.promises, c, call);
    assert PromiseOk(s.promises, call.target, s.calls, s.clock);
    hide Explained, Amounts;
  }

  lemma ActGrows(s: State, c: nat)
    requires Inv(s) && Enabled(s, Act(c))
    ensures Grown(s.promises, Apply(s, Act(c)).promises) && SameCalls(s.calls, Apply(s, Act(c)).calls)
  {
    TouchedKept(s, c);
    hide Touched, Inv;
  }

  /** The call that moved. */
  lemma MovedCall(s: State, c: nat)
    requires Inv(s) && Enabled(s, Act(c))
    ensures var t := Apply(s, Act(c)); CallOk(t.promises, c, t.calls[c])
  {
    var t := Apply(s, Act(c));
    var call := s.calls[c];
    var p := call.target;
    assert CallOk(s.promises, c, call);
    assert PromiseOk(s.promises, p, s.calls, s.clock);
    ActGrows(s, c);
    hide Explained, Inv, Grown;
    match call.pc
    case Entering(r) =>
      if Amounts(s.promises, call.request, r) { AmountsStep(s, c, r); }
    case Checking(r) =>
      if Amounts(s.promises, call.request, r) { AmountsStep(s, c, r); }
    case Reading(q) =>
      assert PromiseOk(s.promises, q, s.calls, s.clock) by { Every(s, q); }
      AmountsStep(s, c, Told(s.promises[q]));
    case Passing(e) => AmountsStep(s, c, Reject(Some(e)));
    case Storing(r) => AmountsStep(s, c, r);
    case _ =>
  }

  lemma Every(s: State, p: nat)
    requires Inv(s) && p < |s.promises|
    ensures PromiseOk(s.promises, p, s.calls, s.clock)
  {
  }

  lemma AmountsStep(s: State, c: nat, r: Request)
    requires Inv(s) && Enabled(s, Act(c)) && Amounts(s.promises, s.calls[c].request, r)
    ensures Amounts(Apply(s, Act(c)).promises, s.calls[c].request, r)
  {
    ActGrows(s, c);
    hide Inv, Enabled, Apply, Amounts;
    AmountsKept(s.promises, Apply(s, Act(c)).promises, s.calls[c].request, r);
  }

  /** The promise it worked on. */
  lemma MovedPromise(s: State, c: nat)
    requires Inv(s) && Enabled(s, Act(c))
    ensures var t := Apply(s, Act(c)); PromiseOk(t.promises, s.calls[c].target, t.calls, t.clock)
  {
    var t := Apply(s, Act(c));
    var call := s.calls[c];
    var p := call.target;
    assert CallOk(s.promises, c, call);
    assert PromiseOk(s.promises, p, s.calls, s.clock);
    ActGrows(s, c);
    hide Inv, Grown;
    if call.pc.Clearing? {
      ClearExplains(s, c);
    } else if !s.promises[p].pending {
      ExplainedKept(s.promises, t.promises, p, s.calls, t.calls, s.clock, t.clock);
    }
    hide Explained, Amounts;
  }

  lemma ClearExplains(s: State, c: nat)
    requires Inv(s) && Enabled(s, Act(c)) && s.calls[c].pc.Clearing?
    ensures var t := Apply(s, Act(c)); Explained(t.promises, s.calls[c].target, t.calls, t.clock)
  {
    var t := Apply(s, Act(c));
    var call := s.calls[c];
    var p, r := call.target, call.pc.r;
    assert CallOk(s.promises, c, call);
    AmountsStep(s, c, r);
    assert Wrote(t.promises[p], r);
    if call.request.Resolve? && call.request.value.Prom? {
      var q := call.request.value.id;
      assert q != p;
      Every(s, q);
    }
  }

  lemma ActKeepsInv(s: State, c: nat)
    requires Inv(s) && Enabled(s, Act(c))
    ensures Inv(Apply(s, Act(c))) && Grown(s.promises, Apply(s, Act(c)).promises)
  {
    var t := Apply(s, Act(c));
    var p := s.calls[c].target;
    ActGrows(s, c);
    forall d | 0 <= d < |t.calls| ensures CallOk(t.promises, d, t.calls[d]) {
      if d == c {
        MovedCall(s, c);
      } else {
        OthersKeepTheirs(s, c, d);
        hide CallOk, PromiseOk;
        OtherCall(s.promises, t.promises, d, s.calls[d]);
      }
    }
    forall q | 0 <= q < |t.promises| ensures PromiseOk(t.promises, q, t.calls, t.clock) {
      if q == p {
        MovedPromise(s, c);
      } else {
        HolderStays(s, c, q);
        hide CallOk, PromiseOk;
        OtherPromise(s.promises, t.promises, q, s.calls, t.calls, s.clock, t.clock);
      }
    }
  }

  /** Only the holder of a mutex, or the call that takes a free one, touches the promise. */
  lemma OthersKeepTheirs(s: State, c: nat, d: nat)
    requires Inv(s) && Enabled(s, Act(c)) && d < |s.calls| && d != c
    ensures s.calls[d].target < |s.promises|
    ensures Holds(s.calls[d].pc) ==> Apply(s, Act(c)).promises[s.calls[d].target] == s.promises[s.calls[d].target]
  {
    assert CallOk(s.promises, c, s.calls[c]);
    assert CallOk(s.promises, d, s.calls[d]);
    hide PromiseOk, Amounts;
  }

  lemma HolderStays(s: State, c: nat, q: nat)
    requires Inv(s) && Enabled(s, Act(c)) && q < |s.promises| && q != s.calls[c].target
    ensures PromiseOk(s.promises, q, s.calls, s.clock)
    ensures var owner := s.promises[q].owner;
            owner.Some? ==> owner.value < |s.calls| && Apply(s, Act(c)).calls[owner.value].pc == s.calls[owner.value].pc
  {
    Every(s, q);
    hide Explained, Amounts, CallOk, NextPc, Touched;
  }

  /** Every step keeps the invariant, and no step touches the outcome of a settled promise. */
  lemma StepKeepsInv(s: State, step: Step)
    requires Inv(s) && Enabled(s, step)
    ensures Inv(Apply(s, step)) && Grown(s.promises, Apply(s, step).promises)
  {
    hide Inv, Enabled, Apply, Grown;
    match step
    case New => NewKeepsInv(s);
    case Invoke(p, r) => InvokeKeepsInv(s, p, r);
    case Act(c) => ActKeepsInv(s, c);
  }

  lemma GrownTwice(ps: seq<Promise>, qs: seq<Promise>, rs: seq<Promise>)
    requires Grown(ps, qs) && Grown(qs, rs)
    ensures Grown(ps, rs)
  {
    forall p | 0 <= p < |ps| ensures Kept(ps[p], rs[p]) {
      assert Kept(qs[p], rs[p]);
    }
  }

  lemma {:induction false} RunKeepsInv(s: State, steps: seq<Step>)
    requires Inv(s) && CanRun(s, steps)
    ensures Inv(Run(s, steps)) && Grown(s.promises, Run(s, steps).promises)
    decreases |steps|
  {
    hide Inv, Enabled, Apply, Grown;
    if steps == [] {
      assert Grown(s.promises, s.promises) by { GrownSelf(s.promises); }
    } else {
      StepKeepsInv(s, steps[0]);
      var t := Apply(s, steps[0]);
      RunKeepsInv(t, steps[1..]);
      GrownTwice(s.promises, t.promises, Run(t, steps[1..]).promises);
    }
  }

  lemma GrownSelf(ps: seq<Promise>)
    ensures Grown(ps, ps)
  {
  }

  // ------------------------------------------------------------ the theorems

  /** A promise that has left pending never returns to it, and its result and error never change again. */
  lemma SettlesOnce(before: seq<Step>, after: seq<Step>, p: nat)
    requires CanRun(START, before) && CanRun(Run(START, before), after)
    requires Settled(Run(START, before).promises, p)
    ensures var s, t := Run(START, before), Run(Run(START, before), after);
            && Settled(t.promises, p)
            && t.promises[p].result == s.promises[p].result && t.promises[p].err == s.promises[p].err
            && t.promises[p].winner == s.promises[p].winner
  {
    hide Run, CanRun;
    RunKeepsInv(START, before);
    RunKeepsInv(Run(START, before), after);
    hide Inv;
    assert Kept(Run(START, before).promises[p], Run(Run(START, before), after).promises[p]);
  }

  /**
   The counter is 0 or 1, and 1 exactly while the promise is pending or the
   holder of its mutex is between clearing pending and wg.Done; so with the
   mutex free it is 1 exactly while the promise is pending.
   */
  lemma CounterIsPending(steps: seq<Step>, p: nat)
    requires CanRun(START, steps) && p < |Run(START, steps).promises|
    ensures var s, x := Run(START, steps), Run(START, steps).promises[p];
            && 0 <= x.wg <= 1
            && (x.wg == 1 <==> x.pending || At(x.owner, s.calls, true))
            && (x.owner.None? ==> (x.wg == 1 <==> x.pending))
  {
    hide Run, CanRun;
    RunKeepsInv(START, steps);
    Every(Run(START, steps), p);
    hide Inv, Explained;
  }

  /** One call of resolve, just after it has cleared pending: the counter is still 1. */
  lemma CounterOutlivesPending(v: int) returns (steps: seq<Step>)
    ensures CanRun(START, steps)
    ensures var s := Run(START, steps); |s.promises| == 1 && !s.promises[0].pending && s.promises[0].wg == 1
  {
    var r := Resolve(Plain(v));
    var s1 := Apply(START, New);
    var s2 := Apply(s1, Invoke(0, r));
    var s3 := Apply(s2, Act(0));
    var s4 := Apply(s3, Act(0));
    var s5 := Apply(s4, Act(0));
    var s6 := Apply(s5, Act(0));
    assert s6.promises[0] == Promise(false, Plain(v), None, 1, Some(0), 0, 0);
    hide Apply, Enabled;
    RunOne(s5, Act(0), []);
    RunOne(s4, Act(0), [Act(0)]);
    RunOne(s3, Act(0), [Act(0), Act(0)]);
    RunOne(s2, Act(0), [Act(0), Act(0), Act(0)]);
    RunOne(s1, Invoke(0, r), [Act(0), Act(0), Act(0), Act(0)]);
    steps := [New, Invoke(0, r), Act(0), Act(0), Act(0), Act(0)];
    RunOne(START, New, [Invoke(0, r), Act(0), Act(0), Act(0), Act(0)]);
    assert steps == [New] + [Invoke(0, r), Act(0), Act(0), Act(0), Act(0)];
  }

  lemma RunOne(s: State, step: Step, rest: seq<Step>)
    requires Enabled(s, step) && CanRun(Apply(s, step), rest)
    ensures CanRun(s, [step] + rest) && Run(s, [step] + rest) == Run(Apply(s, step), rest)
  {
    assert ([step] + rest)[1..] == rest;
  }

  /** Every call of resolve or reject that has returned has left its promise settled. */
  lemma ReturnedIsSettled(steps: seq<Step>, c: nat)
    requires CanRun(START, steps) && c < |Run(START, steps).calls| && Run(START, steps).calls[c].pc.Returned?
    ensures Settled(Run(START, steps).promises, Run(START, steps).calls[c].target)
  {
    hide Run, CanRun;
    RunKeepsInv(START, steps);
    assert CallOk(Run(START, steps).promises, c, Run(START, steps).calls[c]);
    hide Inv;
  }

  /** No promise ever holds a promise, settled or not, however promises are chained. */
  lemma NeverHoldsAPromise(steps: seq<Step>, p: nat)
    requires CanRun(START, steps) && p < |Run(START, steps).promises|
    ensures Run(START, steps).promises[p].result.Plain?
  {
    hide Run, CanRun;
    RunKeepsInv(START, steps);
    Every(Run(START, steps), p);
    hide Inv, Explained;
  }

  /**
   Await: once the counter reads 0 the promise is settled, and what is then read
   is its outcome for ever, however much later the two fields are read.
   */
  lemma AwaitReadsTheOutcome(before: seq<Step>, after: seq<Step>, p: nat)
    requires CanRun(START, before) && CanRun(Run(START, before), after)
    requires p < |Run(START, before).promises| && Run(START, before).promises[p].wg == 0
    ensures var s, t := Run(START, before), Run(Run(START, before), after);
            && !s.promises[p].pending && p < |t.promises|
            && t.promises[p].result == s.promises[p].result && t.promises[p].err == s.promises[p].err
            && t.promises[p].wg == 0
  {
    CounterIsPending(before, p);
    SettlesOnce(before, after, p);
    hide Run, CanRun;
    RunKeepsInv(START, before);
    RunKeepsInv(Run(START, before), after);
    hide Inv;
    assert Kept(Run(START, before).promises[p], Run(Run(START, before), after).promises[p]);
  }

  /** chain runs from p through the promises that settled one another to one that was settled outright. */
  predicate Chain(s: State, chain: seq<nat>) {
    && chain != []
    && (forall i | 0 <= i < |chain| :: Settled(s.promises, chain[i]) && s.promises[chain[i]].winner < |s.calls|)
    && (forall i | 0 <= i < |chain| :: s.calls[s.promises[chain[i]].winner].target == chain[i])
    && (forall i | 0 <= i < |chain| - 1 ::
          s.calls[s.promises[chain[i]].winner].request == Resolve(Prom(chain[i + 1])))
  }

  predicate SameOutcome(a: Promise, b: Promise) { a.result == b.result && a.err == b.err }

  /** A promise settled outright holds what it was settled with. */
  predicate Outright(s: State, p: nat) {
    && Settled(s.promises, p) && s.promises[p].winner < |s.calls|
    && var request := s.calls[s.promises[p].winner].request;
       Flat(request) && Wrote(s.promises[p], request)
  }

  lemma {:induction false} ChainOf(s: State, p: nat) returns (chain: seq<nat>)
    requires Inv(s) && Settled(s.promises, p)
    ensures Chain(s, chain) && chain[0] == p && Outright(s, chain[|chain| - 1])
    ensures forall i | 0 <= i < |chain| :: SameOutcome(s.promises[chain[i]], s.promises[p])
    decreases s.promises[p].stamp
  {
    Every(s, p);
    var x := s.promises[p];
    assert Explained(s.promises, p, s.calls, s.clock);
    var request := s.calls[x.winner].request;
    if request.Resolve? && request.value.Prom? {
      var q := request.value.id;
      var rest := ChainOf(s, q);
      Every(s, q);
      chain := [p] + rest;
      hide Inv, PromiseOk, Explained, CallOk;
      var r :| Amounts(s.promises, request, r) && Wrote(x, r);
      assert SameOutcome(s.promises[q], x);
    } else {
      chain := [p];
    }
  }

  /**
   Whatever was chained into what, a settled promise has the outcome of the one
   call of resolve or reject, with a plain value or an error, at the end of its
   chain; every promise of the chain has that outcome too.
   */
  lemma OutcomeComesFromTheEndOfTheChain(steps: seq<Step>, p: nat) returns (chain: seq<nat>)
    requires CanRun(START, steps) && Settled(Run(START, steps).promises, p)
    ensures var s := Run(START, steps);
            && Chain(s, chain) && chain[0] == p && Outright(s, chain[|chain| - 1])
            && forall i | 0 <= i < |chain| :: SameOutcome(s.promises[chain[i]], s.promises[p])
  {
    RunKeepsInv(START, steps);
    hide Inv;
    chain := ChainOf(Run(START, steps), p);
  }
}
