/**
 All of util/process/progoroutine.go: for every input a Then that sends its
 value and a Catch that sends its error, and one receiver that fills the slots.

 The inputs are settled by others, at any time and once (Promise.SettlesOnce),
 and what is read from one is its outcome (Promise.AwaitReadsTheOutcome), which
 is never a promise (Promise.NeverHoldsAPromise), so that resolving Then's own
 promise with it is a plain store.  A nil input is one rejected with the error
 its panic is turned into.  The promises of Then and Catch are known to
 their executors alone.
 */
module PromiseAll {
  import opened Promise
  import opened Sets
  import opened Wrappers

  /** What Await returns. */
  datatype Outcome = Outcome(result: Value, err: Option<Error>)

  /** Then's executor: it awaits the input, sends its value, and settles its own promise. */
  datatype ThenPc = Unborn | Awaiting | Sending(data: Value) | Settling(o: Outcome) | Settled(o: Outcome)

  /** Catch's executor: it awaits Then's promise and sends its error. */
  datatype CatchPc = NotYet | Listening | Failing(e: Error) | Done

  datatype Main =
    | Launching(k: nat)
    | Collecting(x: nat, slots: seq<Value>)
    | Resolved(slots: seq<Value>)
    | Rejected(e: Error)

  datatype Resolution = Resolution(index: nat, data: Value)

  /** An error in the channel; who sent it is history. */
  datatype Failure = Failure(from: nat, e: Error)

  /**
   inputs: the outcomes so far.  sent, failed and taken are history: whose value
   and whose error was sent, and whose value was received.
   */
  datatype State = State(
    inputs: seq<Option<Outcome>>, thens: seq<ThenPc>, catches: seq<CatchPc>,
    resolutions: seq<Resolution>, errors: seq<Failure>, main: Main,
    sent: set<nat>, failed: set<nat>, taken: set<nat>)

  datatype Step =
    | Settle(i: nat, o: Outcome)
    | Launch
    | Then(i: nat)
    | Catch(i: nat)
    | TakeResolution
    | TakeError
    | Finish

  function Start(n: nat): State {
    State.State(seq(n, _ => None), seq(n, _ => Unborn), seq(n, _ => NotYet), [], [],
          if n == 0 then Resolved([]) else Launching(0), {}, {}, {})
  }

  predicate Shaped(s: State) { |s.thens| == |s.inputs| && |s.catches| == |s.inputs| }

  // ------------------------------------------------------------------- steps

  /** Both channels have room for one message of each input. */
  predicate Enabled(s: State, step: Step)
    requires Shaped(s)
  {
    var n := |s.inputs|;
    match step
    case Settle(i, o) => i < n && s.inputs[i].None? && o.result.Plain?
    case Launch => s.main.Launching?
    case Then(i) =>
      && i < n
      && (s.thens[i].Settling?
          || (s.thens[i].Awaiting? && s.inputs[i].Some?)
          || (s.thens[i].Sending? && |s.resolutions| < n))
    case Catch(i) =>
      && i < n
      && ((s.catches[i].Listening? && s.thens[i].Settled?) || (s.catches[i].Failing? && |s.errors| < n))
    case TakeResolution => s.main.Collecting? && s.main.x < n && s.resolutions != []
    case TakeError => s.main.Collecting? && s.main.x < n && s.errors != []
    case Finish => s.main.Collecting? && s.main.x == n
  }

  function Launched(s: State): State
    requires Shaped(s) && s.main.Launching?
  {
    var n, k := |s.inputs|, s.main.k;
    if k < n
    then s.(thens := s.thens[k := Awaiting], catches := s.catches[k := Listening], main := Launching(k + 1))
    else s.(main := Collecting(0, seq(n, _ => NIL)))
  }

  function AfterThen(s: State, i: nat): State
    requires Shaped(s) && Enabled(s, Then(i))
  {
    match s.thens[i]
    case Awaiting =>
      var o := s.inputs[i].value;
      s.(thens := s.thens[i := if o.err.Some? then Settling(Outcome(NIL, o.err)) else Sending(o.result)])
    case Sending(d) =>
      s.(thens := s.thens[i := Settling(Outcome(d, None))],
         resolutions := s.resolutions + [Resolution(i, d)], sent := s.sent + {i})
    case Settling(o) => s.(thens := s.thens[i := Settled(o)])
  }

  function AfterCatch(s: State, i: nat): State
    requires Shaped(s) && Enabled(s, Catch(i))
  {
    match s.catches[i]
    case Listening =>
      var o := s.thens[i].o;
      s.(catches := s.catches[i := if o.err.Some? then Failing(o.err.value) else Done])
    case Failing(e) =>
      s.(catches := s.catches[i := Done], errors := s.errors + [Failure(i, e)], failed := s.failed + {i})
  }

  function Apply(s: State, step: Step): State
    requires Shaped(s) && Enabled(s, step)
  {
    match step
    case Settle(i, o) => s.(inputs := s.inputs[i := Some(o)])
    case Launch => Launched(s)
    case Then(i) => AfterThen(s, i)
    case Catch(i) => AfterCatch(s, i)
    case TakeResolution =>
      var m := s.resolutions[0];
      var slots := s.main.slots;
      s.(resolutions := s.resolutions[1..], taken := s.taken + {m.index},
         main := Collecting(s.main.x + 1, if m.index < |slots| then slots[m.index := m.data] else slots))
    case TakeError => s.(errors := s.errors[1..], main := Rejected(s.errors[0].e))
    case Finish => s.(main := Resolved(s.main.slots))
  }

  // --------------------------------------------------------------- invariant

  predicate Good(input: Option<Outcome>) { input.Some? && input.value.err.None? }

  predicate Bad(input: Option<Outcome>) { input.Some? && input.value.err.Some? }

  /** Then and its input; it has sent exactly when the input was good and it is past sending. */
  predicate ThenOk(input: Option<Outcome>, pc: ThenPc, sent: bool) {
    match pc
    case Unborn => !sent
    case Awaiting => !sent
    case Sending(d) => !sent && input == Some(Outcome(d, None))
    case Settling(o) => input.Some? && o.err == input.value.err && sent == Good(input)
    case Settled(o) => input.Some? && o.err == input.value.err && sent == Good(input)
  }

  /** Catch and Then's promise; it has failed exactly when the input was bad and it is done. */
  predicate CatchOk(input: Option<Outcome>, pc: CatchPc, failed: bool) {
    match pc
    case NotYet => !failed
    case Listening => !failed
    case Failing(e) => !failed && Bad(input) && input.value.err == Some(e)
    case Done => input.Some? && failed == Bad(input)
  }

  predicate Helpers(
    inputs: seq<Option<Outcome>>, thens: seq<ThenPc>, catches: seq<CatchPc>, sent: set<nat>, failed: set<nat>)
    requires |thens| == |catches| == |inputs|
  {
    && (forall i | 0 <= i < |inputs| :: ThenOk(inputs[i], thens[i], i in sent))
    && (forall i | 0 <= i < |inputs| :: CatchOk(inputs[i], catches[i], i in failed))
    && (forall i | i in sent :: i < |inputs|)
    && (forall i | i in failed :: i < |inputs|)
  }

  predicate Carried(inputs: seq<Option<Outcome>>, m: Resolution, sent: set<nat>, taken: set<nat>) {
    m.index < |inputs| && m.index in sent && m.index !in taken && inputs[m.index] == Some(Outcome(m.data, None))
  }

  /** The resolutions under way are those sent and not received, each once. */
  predicate Channel(inputs: seq<Option<Outcome>>, ms: seq<Resolution>, sent: set<nat>, taken: set<nat>) {
    && taken <= sent && |ms| == |sent| - |taken|
    && (forall k | 0 <= k < |ms| :: Carried(inputs, ms[k], sent, taken))
    && (forall j, k | 0 <= j < k < |ms| :: ms[j].index != ms[k].index)
  }

  predicate FailedWith(inputs: seq<Option<Outcome>>, i: nat, e: Error) {
    i < |inputs| && Bad(inputs[i]) && inputs[i].value.err == Some(e)
  }

  predicate Errors(inputs: seq<Option<Outcome>>, es: seq<Failure>, failed: set<nat>, main: Main) {
    && (if main.Rejected? then |es| <= |failed| else |es| == |failed|)
    && forall k | 0 <= k < |es| :: FailedWith(inputs, es[k].from, es[k].e)
  }

  /** Slot i holds what input i was resolved with. */
  predicate Slot(inputs: seq<Option<Outcome>>, slots: seq<Value>, i: nat) {
    i < |inputs| && i < |slots| && inputs[i] == Some(Outcome(slots[i], None))
  }

  ghost predicate MainOk(inputs: seq<Option<Outcome>>, main: Main, taken: set<nat>) {
    match main
    case Launching(k) => taken == {} && k <= |inputs|
    case Collecting(x, slots) =>
      |taken| == x && |slots| == |inputs| && forall i | i in taken :: Slot(inputs, slots, i)
    case Resolved(slots) => |slots| == |inputs| && forall i: nat | i < |inputs| :: Slot(inputs, slots, i)
    case Rejected(e) => exists i :: FailedWith(inputs, i, e)
  }

  /** How many helpers have been launched. */
  function LaunchedSoFar(main: Main, n: nat): nat { if main.Launching? then main.k else n }

  predicate Born(thens: seq<ThenPc>, catches: seq<CatchPc>, launched: nat) {
    && (forall i | 0 <= i < |thens| :: thens[i].Unborn? <==> launched <= i)
    && (forall i | 0 <= i < |catches| :: catches[i].NotYet? <==> launched <= i)
  }

  ghost predicate Inv(s: State) {
    && Shaped(s)
    && Helpers(s.inputs, s.thens, s.catches, s.sent, s.failed)
    && Channel(s.inputs, s.resolutions, s.sent, s.taken)
    && Errors(s.inputs, s.errors, s.failed, s.main)
    && MainOk(s.inputs, s.main, s.taken)
    && Born(s.thens, s.catches, LaunchedSoFar(s.main, |s.inputs|))
  }

  // ------------------------------------------------------------------ counting

  /** One that is missing from a set of indices leaves room for it. */
  lemma RoomForOne(a: set<nat>, n: nat, i: nat)
    requires (forall j | j in a :: j < n) && i < n && i !in a
    ensures |a| < n
  {
    assert a <= Below(n);
    SubsetSize(a, Below(n));
    assert i in Below(n);
  }

  // -------------------------------------------------------------- every step

  lemma StartOk(n: nat)
    ensures Inv(Start(n))
  {
  }

  lemma SettleKeepsInv(s: State, i: nat, o: Outcome)
    requires Inv(s) && Enabled(s, Settle(i, o))
    ensures Inv(Apply(s, Settle(i, o)))
  {
    var inputs := s.inputs[i := Some(o)];
    forall m: Resolution | Carried(s.inputs, m, s.sent, s.taken) ensures Carried(inputs, m, s.sent, s.taken) {
    }
    forall j, e | FailedWith(s.inputs, j, e) ensures FailedWith(inputs, j, e) {
    }
    forall slots, j | Slot(s.inputs, slots, j) ensures Slot(inputs, slots, j) {
    }
    assert MainOk(inputs, s.main, s.taken) by {
      if s.main.Rejected? {
        var j :| FailedWith(s.inputs, j, s.main.e);
        assert FailedWith(inputs, j, s.main.e);
      }
    }
    hide Carried, FailedWith, Slot, MainOk;
  }

  lemma LaunchKeepsInv(s: State)
    requires Inv(s) && Enabled(s, Launch)
    ensures Inv(Apply(s, Launch))
  {
    hide Channel, FailedWith;
  }

  lemma ThenKeepsInv(s: State, i: nat)
    requires Inv(s) && Enabled(s, Then(i))
    ensures Inv(Apply(s, Then(i)))
  {
    hide Channel, MainOk, Errors, Helpers, Born;
    var t := Apply(s, Then(i));
    HelperFacts(s, i);
    if s.thens[i].Sending? {
      SendKeepsChannel(s.inputs, s.resolutions, Resolution(i, s.thens[i].data), s.sent, s.taken);
    }
    ThenMoves(s.inputs, s.thens, s.catches, s.sent, s.failed, i, t.thens[i], t.sent);
    ThenStaysBorn(s.thens, s.catches, LaunchedSoFar(s.main, |s.inputs|), i, t.thens[i]);
  }

  lemma HelperFacts(s: State, i: nat)
    requires Inv(s) && i < |s.inputs|
    ensures ThenOk(s.inputs[i], s.thens[i], i in s.sent) && CatchOk(s.inputs[i], s.catches[i], i in s.failed)
  {
  }

  lemma ThenMoves(
    inputs: seq<Option<Outcome>>, thens: seq<ThenPc>, catches: seq<CatchPc>, sent: set<nat>, failed: set<nat>,
    i: nat, pc: ThenPc, sent': set<nat>)
    requires |thens| == |catches| == |inputs| && i < |inputs| && Helpers(inputs, thens, catches, sent, failed)
    requires (sent' == sent || sent' == sent + {i}) && ThenOk(inputs[i], pc, i in sent')
    ensures Helpers(inputs, thens[i := pc], catches, sent', failed)
  {
    hide ThenOk, CatchOk;
  }

  lemma ThenStaysBorn(thens: seq<ThenPc>, catches: seq<CatchPc>, launched: nat, i: nat, pc: ThenPc)
    requires Born(thens, catches, launched) && i < |thens| && !thens[i].Unborn? && !pc.Unborn?
    ensures Born(thens[i := pc], catches, launched)
  {
  }

  lemma SendKeepsChannel(inputs: seq<Option<Outcome>>, ms: seq<Resolution>, m: Resolution, sent: set<nat>, taken: set<nat>)
    requires Channel(inputs, ms, sent, taken) && m.index !in sent
    requires m.index < |inputs| && inputs[m.index] == Some(Outcome(m.data, None))
    ensures Channel(inputs, ms + [m], sent + {m.index}, taken)
  {
  }

  lemma CatchKeepsInv(s: State, i: nat)
    requires Inv(s) && Enabled(s, Catch(i))
    ensures Inv(Apply(s, Catch(i)))
  {
    hide Channel, MainOk, Helpers, Born;
    var t := Apply(s, Catch(i));
    HelperFacts(s, i);
    CatchMoves(s.inputs, s.thens, s.catches, s.sent, s.failed, i, t.catches[i], t.failed);
    CatchStaysBorn(s.thens, s.catches, LaunchedSoFar(s.main, |s.inputs|), i, t.catches[i]);
  }

  lemma CatchMoves(
    inputs: seq<Option<Outcome>>, thens: seq<ThenPc>, catches: seq<CatchPc>, sent: set<nat>, failed: set<nat>,
    i: nat, pc: CatchPc, failed': set<nat>)
    requires |thens| == |catches| == |inputs| && i < |inputs| && Helpers(inputs, thens, catches, sent, failed)
    requires (failed' == failed || failed' == failed + {i}) && CatchOk(inputs[i], pc, i in failed')
    ensures Helpers(inputs, thens, catches[i := pc], sent, failed')
  {
    hide ThenOk, CatchOk;
  }

  lemma CatchStaysBorn(thens: seq<ThenPc>, catches: seq<CatchPc>, launched: nat, i: nat, pc: CatchPc)
    requires Born(thens, catches, launched) && i < |catches| && !catches[i].NotYet? && !pc.NotYet?
    ensures Born(thens, catches[i := pc], launched)
  {
  }

  lemma TakeKeepsInv(s: State)
    requires Inv(s) && Enabled(s, TakeResolution)
    ensures Inv(Apply(s, TakeResolution))
  {
    hide Channel, Helpers, Born, MainOk, FailedWith;
    TakeKeepsChannel(s.inputs, s.resolutions, s.sent, s.taken);
    FirstIsCarried(s.inputs, s.resolutions, s.sent, s.taken);
    TakeKeepsSlots(s.inputs, s.main, s.taken, s.resolutions[0]);
  }

  lemma FirstIsCarried(inputs: seq<Option<Outcome>>, ms: seq<Resolution>, sent: set<nat>, taken: set<nat>)
    requires Channel(inputs, ms, sent, taken) && ms != []
    ensures Carried(inputs, ms[0], sent, taken)
  {
  }

  lemma TakeKeepsSlots(inputs: seq<Option<Outcome>>, main: Main, taken: set<nat>, m: Resolution)
    requires main.Collecting? && MainOk(inputs, main, taken)
    requires m.index < |inputs| && m.index !in taken && inputs[m.index] == Some(Outcome(m.data, None))
    ensures m.index < |main.slots|
    ensures MainOk(inputs, Collecting(main.x + 1, main.slots[m.index := m.data]), taken + {m.index})
  {
    var slots := main.slots[m.index := m.data];
    forall j | j in taken + {m.index} ensures Slot(inputs, slots, j) {
      assert j != m.index ==> Slot(inputs, main.slots, j);
    }
  }

  lemma TakeKeepsChannel(inputs: seq<Option<Outcome>>, ms: seq<Resolution>, sent: set<nat>, taken: set<nat>)
    requires Channel(inputs, ms, sent, taken) && ms != []
    ensures Channel(inputs, ms[1..], sent, taken + {ms[0].index}) && ms[0].index !in taken
  {
    var m, rest := ms[0], ms[1..];
    assert Carried(inputs, m, sent, taken);
    forall k | 0 <= k < |rest| ensures Carried(inputs, rest[k], sent, taken + {m.index}) {
      assert rest[k] == ms[k + 1];
      assert Carried(inputs, ms[k + 1], sent, taken);
    }
  }

  lemma TakeErrorKeepsInv(s: State)
    requires Inv(s) && Enabled(s, TakeError)
    ensures Inv(Apply(s, TakeError))
  {
    assert FailedWith(s.inputs, s.errors[0].from, s.errors[0].e);
    hide Channel, FailedWith, Helpers, Born;
  }

  lemma FinishKeepsInv(s: State)
    requires Inv(s) && Enabled(s, Finish)
    ensures Inv(Apply(s, Finish))
  {
    EverySlot(s.inputs, s.main, s.taken);
    hide Channel, Helpers, Born, MainOk, FailedWith;
  }

  /** As many slots as there are inputs, filled from different inputs, are all the slots. */
  lemma EverySlot(inputs: seq<Option<Outcome>>, main: Main, taken: set<nat>)
    requires main.Collecting? && main.x == |inputs| && MainOk(inputs, main, taken)
    ensures MainOk(inputs, Resolved(main.slots), taken)
  {
    assert forall i | i in taken :: Slot(inputs, main.slots, i);
    assert taken <= Below(|inputs|);
    SubsetSize(taken, Below(|inputs|));
  }

  lemma StepKeepsInv(s: State, step: Step)
    requires Inv(s) && Enabled(s, step)
    ensures Inv(Apply(s, step))
  {
    hide Helpers, Channel, Errors, MainOk, Born;
    match step
    case Settle(i, o) => SettleKeepsInv(s, i, o);
    case Launch => LaunchKeepsInv(s);
    case Then(i) => ThenKeepsInv(s, i);
    case Catch(i) => CatchKeepsInv(s, i);
    case TakeResolution => TakeKeepsInv(s);
    case TakeError => TakeErrorKeepsInv(s);
    case Finish => FinishKeepsInv(s);
  }

  // ---------------------------------------------------------------- every run

  ghost predicate CanRun(s: State, steps: seq<Step>)
    decreases |steps|
  {
    steps == [] || (Shaped(s) && Enabled(s, steps[0]) && CanRun(Apply(s, steps[0]), steps[1..]))
  }

  ghost function Run(s: State, steps: seq<Step>): State
    requires CanRun(s, steps)
    decreases |steps|
  {
    if steps == [] then s else Run(Apply(s, steps[0]), steps[1..])
  }

  lemma {:induction false} RunKeepsInv(s: State, steps: seq<Step>)
    requires Inv(s) && CanRun(s, steps)
    ensures Inv(Run(s, steps)) && |Run(s, steps).inputs| == |s.inputs|
    decreases |steps|
  {
    hide Inv;
    if steps != [] {
      StepKeepsInv(s, steps[0]);
      assert |Apply(s, steps[0]).inputs| == |s.inputs|;
      RunKeepsInv(Apply(s, steps[0]), steps[1..]);
    }
  }

  /** If All resolves, slot i is the value of input i, for every i, and no input was rejected. */
  lemma ResolvedWithEveryValue(n: nat, steps: seq<Step>, i: nat)
    requires CanRun(Start(n), steps) && Run(Start(n), steps).main.Resolved? && i < n
    ensures var s := Run(Start(n), steps);
            |s.inputs| == n && |s.main.slots| == n && s.inputs[i] == Some(Outcome(s.main.slots[i], None))
  {
    StartOk(n);
    RunKeepsInv(Start(n), steps);
    hide Helpers, Channel, Errors, Born, Run, CanRun;
    var s := Run(Start(n), steps);
    assert Slot(s.inputs, s.main.slots, i);
  }

  /** If All rejects, it is with the error of some input. */
  lemma RejectedWithSomeError(n: nat, steps: seq<Step>) returns (i: nat)
    requires CanRun(Start(n), steps) && Run(Start(n), steps).main.Rejected?
    ensures var s := Run(Start(n), steps);
            i < n == |s.inputs| && Bad(s.inputs[i]) && s.inputs[i].value.err == Some(s.main.e)
  {
    StartOk(n);
    RunKeepsInv(Start(n), steps);
    hide Helpers, Channel, Errors, Born, Run, CanRun;
    var s := Run(Start(n), steps);
    i :| FailedWith(s.inputs, i, s.main.e);
  }

  /** No helper ever waits for room: a sender always finds its channel with a free place. */
  lemma SendsNeverBlock(n: nat, steps: seq<Step>, i: nat)
    requires CanRun(Start(n), steps) && i < n
    ensures var s := Run(Start(n), steps);
            && Shaped(s) && |s.inputs| == n && |s.resolutions| <= n && |s.errors| <= n
            && (s.thens[i].Sending? ==> Enabled(s, Then(i)))
            && (s.catches[i].Failing? ==> Enabled(s, Catch(i)))
  {
    StartOk(n);
    RunKeepsInv(Start(n), steps);
    hide Run, CanRun;
    var s := Run(Start(n), steps);
    RoomInChannels(s, i);
    hide Inv;
  }

  lemma RoomInChannels(s: State, i: nat)
    requires Inv(s) && i < |s.inputs|
    ensures |s.resolutions| <= |s.inputs| && |s.errors| <= |s.inputs|
    ensures s.thens[i].Sending? ==> Enabled(s, Then(i))
    ensures s.catches[i].Failing? ==> Enabled(s, Catch(i))
  {
    var n := |s.inputs|;
    assert ThenOk(s.inputs[i], s.thens[i], i in s.sent);
    assert CatchOk(s.inputs[i], s.catches[i], i in s.failed);
    assert s.sent <= Below(n) && s.failed <= Below(n);
    SubsetSize(s.sent, Below(n));
    SubsetSize(s.failed, Below(n));
    if i !in s.sent {
      RoomForOne(s.sent, n, i);
    }
    if i !in s.failed {
      RoomForOne(s.failed, n, i);
    }
  }

  /** Over a whole run an input sends at most one message: its value or its error, never both. */
  lemma AtMostOneMessage(n: nat, steps: seq<Step>)
    requires CanRun(Start(n), steps)
    ensures var s := Run(Start(n), steps);
            && s.sent !! s.failed && |s.sent| + |s.failed| <= n
            && |s.resolutions| + |s.taken| == |s.sent|
  {
    StartOk(n);
    RunKeepsInv(Start(n), steps);
    hide Run, CanRun;
    var s := Run(Start(n), steps);
    forall i | i in s.sent ensures i !in s.failed {
      assert ThenOk(s.inputs[i], s.thens[i], true);
      assert CatchOk(s.inputs[i], s.catches[i], i in s.failed);
    }
    assert s.sent + s.failed <= Below(n);
    SubsetSize(s.sent + s.failed, Below(n));
  }

  // ------------------------------------------------------------------- ending

  /** While All is not settled and every input is, some step of All can be taken. */
  lemma NoDeadlock(s: State) returns (step: Step)
    requires Inv(s) && !s.main.Resolved? && !s.main.Rejected?
    requires AllIn(s)
    ensures Enabled(s, step) && !step.Settle?
  {
    var n := |s.inputs|;
    if s.main.Launching? {
      return Launch;
    }
    if s.main.x == n {
      return Finish;
    }
    assert s.main.x < n by { assert s.taken <= Below(n); SubsetSize(s.taken, Below(n)); }
    if s.resolutions != [] {
      return TakeResolution;
    }
    if s.errors != [] {
      return TakeError;
    }
    for i := 0 to n
      invariant forall j | 0 <= j < i :: s.inputs[j].Some? && Good(s.inputs[j]) && j in s.sent
    {
      RoomInChannels(s, i);
      assert ThenOk(s.inputs[i], s.thens[i], i in s.sent);
      assert CatchOk(s.inputs[i], s.catches[i], i in s.failed);
      if !s.thens[i].Settled? {
        return Then(i);
      }
      if !s.catches[i].Done? {
        return Catch(i);
      }
      assert s.failed == {};
    }
    assert Below(n) <= s.sent;
    SubsetSize(Below(n), s.sent);
    assert false;
    return Finish;
  }

  function ThenLeft(pc: ThenPc): nat {
    match pc
    case Unborn => 4
    case Awaiting => 3
    case Sending(_) => 2
    case Settling(_) => 1
    case Settled(_) => 0
  }

  function CatchLeft(pc: CatchPc): nat {
    match pc
    case NotYet => 3
    case Listening => 2
    case Failing(_) => 1
    case Done => 0
  }

  function ThensLeft(pcs: seq<ThenPc>): nat {
    if pcs == [] then 0 else ThenLeft(pcs[0]) + ThensLeft(pcs[1..])
  }

  function CatchesLeft(pcs: seq<CatchPc>): nat {
    if pcs == [] then 0 else CatchLeft(pcs[0]) + CatchesLeft(pcs[1..])
  }

  function MainLeft(main: Main, n: nat): int {
    match main
    case Launching(k) => (n - k) + n + 2
    case Collecting(x, _) => (n - x) + 1
    case _ => 0
  }

  function Left(s: State): int { ThensLeft(s.thens) + CatchesLeft(s.catches) + MainLeft(s.main, |s.inputs|) }

  lemma {:induction false} ThensLeftAt(pcs: seq<ThenPc>, i: nat, pc: ThenPc)
    requires i < |pcs|
    ensures ThensLeft(pcs[i := pc]) == ThensLeft(pcs) - ThenLeft(pcs[i]) + ThenLeft(pc)
  {
    if i > 0 {
      ThensLeftAt(pcs[1..], i - 1, pc);
      assert pcs[i := pc][1..] == pcs[1..][i - 1 := pc];
    }
  }

  lemma {:induction false} CatchesLeftAt(pcs: seq<CatchPc>, i: nat, pc: CatchPc)
    requires i < |pcs|
    ensures CatchesLeft(pcs[i := pc]) == CatchesLeft(pcs) - CatchLeft(pcs[i]) + CatchLeft(pc)
  {
    if i > 0 {
      CatchesLeftAt(pcs[1..], i - 1, pc);
      assert pcs[i := pc][1..] == pcs[1..][i - 1 := pc];
    }
  }

  lemma LeftIsNat(s: State)
    requires Inv(s)
    ensures MainLeft(s.main, |s.inputs|) >= 0
  {
    if s.main.Collecting? {
      assert s.taken <= Below(|s.inputs|);
      SubsetSize(s.taken, Below(|s.inputs|));
    }
  }

  /** Every step but the settling of an input uses up some of what is left to do. */
  lemma StepProgress(s: State, step: Step)
    requires Inv(s) && Enabled(s, step) && !step.Settle?
    ensures 0 <= Left(Apply(s, step)) < Left(s)
  {
    hide Inv, ThensLeft, CatchesLeft;
    InvShaped(s);
    var t := Apply(s, step);
    StepKeepsInv(s, step);
    LeftIsNat(t);
    match step
    case Then(i) => ThensLeftAt(s.thens, i, t.thens[i]);
    case Catch(i) => CatchesLeftAt(s.catches, i, t.catches[i]);
    case Launch => LaunchProgress(s);
    case _ =>
  }

  lemma InvShaped(s: State)
    requires Inv(s)
    ensures Shaped(s)
  {
  }

  lemma LaunchProgress(s: State)
    requires Inv(s) && Enabled(s, Launch)
    ensures Left(Apply(s, Launch)) < Left(s)
  {
    var k := s.main.k;
    hide Channel, Errors, Helpers;
    if k < |s.inputs| {
      assert s.thens[k].Unborn? && s.catches[k].NotYet?;
      ThensLeftAt(s.thens, k, Awaiting);
      CatchesLeftAt(s.catches, k, Listening);
    }
    hide ThensLeft, CatchesLeft, Inv;
  }

  predicate AllIn(s: State) { forall i | 0 <= i < |s.inputs| :: s.inputs[i].Some? }

  /**
   Once every input is settled, every run of All ends: it has at most Left steps,
   and as long as All is not settled another can be taken.
   */
  lemma {:induction false} EndsSettled(s: State, steps: seq<Step>)
    requires Inv(s) && AllIn(s) && CanRun(s, steps)
    ensures Inv(Run(s, steps)) && 0 <= Left(Run(s, steps)) <= Left(s) - |steps|
    ensures var t := Run(s, steps);
            t.main.Resolved? || t.main.Rejected? || exists step :: Enabled(t, step)
    decreases |steps|
  {
    hide Inv, Left, AllIn;
    InvShaped(s);
    if steps == [] {
      CanGoOn(s);
    } else {
      StepKeepsInv(s, steps[0]);
      AllStayIn(s, steps[0]);
      StepProgress(s, steps[0]);
      hide Apply, Enabled;
      EndsSettled(Apply(s, steps[0]), steps[1..]);
    }
  }

  lemma CanGoOn(s: State)
    requires Inv(s) && AllIn(s)
    ensures Left(s) >= 0 && (s.main.Resolved? || s.main.Rejected? || exists step :: Enabled(s, step))
  {
    LeftIsNat(s);
    if !s.main.Resolved? && !s.main.Rejected? {
      var step := NoDeadlock(s);
    }
  }

  lemma AllStayIn(s: State, step: Step)
    requires Inv(s) && AllIn(s) && Enabled(s, step)
    ensures !step.Settle? && AllIn(Apply(s, step))
  {
    hide Helpers, Channel, Errors, MainOk, Born;
  }
}
