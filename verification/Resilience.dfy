/** The circuit breaker, the bounded retry it is wrapped around, and what the two do together.
    A call asks for admission, runs, and reports its outcome in separate locked steps, so calls
    overlap and report in any order. */
module Resilience {
  import opened Wrappers

  type Time = int

  const DEFAULT_MAX_FAILURES: int := 5
  const DEFAULT_RESET_TIMEOUT: int := 30_000_000_000

  /** The breaker's state as a value. */
  datatype Circuit = Circuit(
    maxFailures: int,
    resetTimeout: int,
    failures: nat,
    openedAt: Option<Time>,
    probeActive: bool)
  {
    predicate Configured() {
      maxFailures > 0 && resetTimeout > 0
    }

    predicate Open() {
      openedAt.Some?
    }

    /** An open breaker has reached its limit, so the next failure opens it anew. */
    predicate Sound() {
      Open() ==> failures >= maxFailures
    }

    /** Would a call be admitted now? */
    predicate Admits(now: Time) {
      !Open() || (now - openedAt.value >= resetTimeout && !probeActive)
    }

    function AfterAllow(now: Time): Circuit {
      if Open() && Admits(now) then this.(probeActive := true) else this
    }

    function AfterSuccess(): Circuit {
      this.(failures := 0, openedAt := None, probeActive := false)
    }

    function AfterFailure(now: Time): Circuit {
      this.(failures := failures + 1, probeActive := false,
            openedAt := if failures + 1 >= maxFailures then Some(now) else openedAt)
    }
  }

  function NewCircuit(maxFailures: int, resetTimeout: int): Circuit {
    Circuit(if maxFailures <= 0 then DEFAULT_MAX_FAILURES else maxFailures,
            if resetTimeout <= 0 then DEFAULT_RESET_TIMEOUT else resetTimeout, 0, None, false)
  }

  /** How a protected function ended; `Ignored` is an error not classified as a failure. */
  datatype Ending = Succeeded | FailedClassified | Ignored

  datatype DoResult = Cancelled | NoFunction | Rejected | Ran(ending: Ending)

  /** One call with nothing overlapping it. */
  function AloneDo(c: Circuit, cancelled: bool, hasFunction: bool, start: Time, ending: Ending, end: Time): (Circuit, DoResult) {
    if cancelled then (c, Cancelled)
    else if !hasFunction then (c, NoFunction)
    else if !c.Admits(start) then (c, Rejected)
    else
      var admitted := c.AfterAllow(start);
      match ending
      case Succeeded => (admitted.AfterSuccess(), Ran(ending))
      case FailedClassified => (admitted.AfterFailure(end), Ran(ending))
      case Ignored => (admitted, Ran(ending))
  }

  class Breaker {
    const maxFailures: int
    const resetTimeout: int
    var failures: nat
    var openedAt: Option<Time>
    var probeActive: bool

    function State(): Circuit
      reads this
    {
      Circuit(maxFailures, resetTimeout, failures, openedAt, probeActive)
    }

    constructor (maxFailures: int, resetTimeout: int)
      ensures State() == NewCircuit(maxFailures, resetTimeout) && State().Configured()
      ensures this.maxFailures == if maxFailures > 0 then maxFailures else 5
      ensures this.resetTimeout == if resetTimeout > 0 then resetTimeout else 30_000_000_000
      ensures failures == 0 && openedAt.None? && !probeActive
    {
      this.maxFailures := if maxFailures <= 0 then DEFAULT_MAX_FAILURES else maxFailures;
      this.resetTimeout := if resetTimeout <= 0 then DEFAULT_RESET_TIMEOUT else resetTimeout;
      failures, openedAt, probeActive := 0, None, false;
    }

    method Allow(now: Time) returns (admitted: bool)
      modifies this
      ensures admitted == old(State()).Admits(now) && State() == old(State()).AfterAllow(now)
      ensures old(openedAt).None? ==> admitted
      ensures old(openedAt).Some? ==>
                (admitted <==> !old(probeActive) && now >= old(openedAt).value + resetTimeout)
      ensures failures == old(failures) && openedAt == old(openedAt)
      ensures probeActive == (old(probeActive) || (admitted && openedAt.Some?))
    {
      if openedAt.None? {
        return true;
      }
      if now - openedAt.value < resetTimeout {
        return false;
      }
      if probeActive {
        return false;
      }
      probeActive := true;
      admitted := true;
    }

    method Success()
      modifies this
      ensures State() == old(State()).AfterSuccess()
      ensures failures == 0 && openedAt.None? && !probeActive
    {
      failures, openedAt, probeActive := 0, None, false;
    }

    method Failure(now: Time)
      modifies this
      ensures State() == old(State()).AfterFailure(now)
      ensures failures == old(failures) + 1 && !probeActive
      ensures failures >= maxFailures ==> openedAt == Some(now)
      ensures failures < maxFailures ==> openedAt == old(openedAt)
    {
      probeActive := false;
      failures := failures + 1;
      if failures >= maxFailures {
        openedAt := Some(now);
      }
    }

    method Do(cancelled: bool, hasFunction: bool, start: Time, ending: Ending, end: Time) returns (r: DoResult)
      modifies this
      ensures (State(), r) == AloneDo(old(State()), cancelled, hasFunction, start, ending, end)
      ensures cancelled || !hasFunction ==> !r.Ran? && State() == old(State())
      ensures !cancelled && hasFunction && old(openedAt).None? ==> r == Ran(ending)
      ensures !cancelled && hasFunction && old(openedAt).Some? ==>
                r == if !old(probeActive) && start >= old(openedAt).value + resetTimeout then Ran(ending) else Rejected
      ensures r.Ran? && ending.Succeeded? ==> failures == 0 && openedAt.None? && !probeActive
      ensures r.Ran? && ending.FailedClassified? ==> failures == old(failures) + 1 && !probeActive
                                                     && openedAt == if failures >= maxFailures then Some(end) else old(openedAt)
    {
      if cancelled {
        return Cancelled;
      }
      if !hasFunction {
        return NoFunction;
      }
      var admitted := Allow(start);
      if !admitted {
        return Rejected;
      }
      if ending.Succeeded? {
        Success();
      } else if ending.FailedClassified? {
        Failure(end);
      }
      r := Ran(ending);
    }
  }

  // ----- Overlapping calls -----

  datatype Step = Tick(elapsed: nat) | Ask | End(ending: Ending)

  datatype World = World(circuit: Circuit, inFlight: nat, now: Time)

  predicate Possible(w: World, step: Step) {
    step.End? ==> w.inFlight > 0
  }

  function Next(w: World, step: Step): World
    requires Possible(w, step)
  {
    match step
    case Tick(elapsed) => w.(now := w.now + elapsed)
    case Ask =>
      if w.circuit.Admits(w.now) then World(w.circuit.AfterAllow(w.now), w.inFlight + 1, w.now) else w
    case End(ending) =>
      World(match ending
            case Succeeded => w.circuit.AfterSuccess()
            case FailedClassified => w.circuit.AfterFailure(w.now)
            case Ignored => w.circuit,
            w.inFlight - 1, w.now)
  }

  function Run(w: World, steps: seq<Step>): Option<World> {
    if steps == [] then Some(w)
    else
      var before := Run(w, steps[..|steps| - 1]);
      if before.Some? && Possible(before.value, steps[|steps| - 1])
      then Some(Next(before.value, steps[|steps| - 1])) else None
  }

  /** Classified failures reported since the last reported success. */
  function FailuresSinceSuccess(steps: seq<Step>): nat {
    if steps == [] then 0
    else
      var last := steps[|steps| - 1];
      if last == End(Succeeded) then 0
      else FailuresSinceSuccess(steps[..|steps| - 1]) + (if last == End(FailedClassified) then 1 else 0)
  }

  /** The breaker is open exactly when the classified failures since the last success have
      reached its limit, in whatever order overlapping calls report. */
  lemma {:induction false} OpenExactlyAtLimit(maxFailures: int, resetTimeout: int, steps: seq<Step>)
    requires Run(World(NewCircuit(maxFailures, resetTimeout), 0, 0), steps).Some?
    ensures var c := Run(World(NewCircuit(maxFailures, resetTimeout), 0, 0), steps).value.circuit;
            && c.failures == FailuresSinceSuccess(steps)
            && (c.Open() <==> FailuresSinceSuccess(steps) >= c.maxFailures)
            && c.maxFailures == NewCircuit(maxFailures, resetTimeout).maxFailures > 0
  {
    if steps != [] {
      OpenExactlyAtLimit(maxFailures, resetTimeout, steps[..|steps| - 1]);
    }
  }

  // ----- Admission, read off the steps -----

  function Clock(steps: seq<Step>): Time {
    if steps == [] then 0
    else
      var last := steps[|steps| - 1];
      Clock(steps[..|steps| - 1]) + (if last.Tick? then last.elapsed else 0)
  }

  /** The time of the latest classified failure that found the limit reached, since the last success. */
  function LastOpening(steps: seq<Step>, maxFailures: int): Option<Time> {
    if steps == [] then None
    else
      var last := steps[|steps| - 1];
      if last == End(Succeeded) then None
      else if last == End(FailedClassified) && FailuresSinceSuccess(steps) >= maxFailures then Some(Clock(steps))
      else LastOpening(steps[..|steps| - 1], maxFailures)
  }

  /** The limit has been reached, and the timeout has passed since the failure that last did so. */
  predicate ProbeIsDue(steps: seq<Step>, maxFailures: int, resetTimeout: int) {
    && FailuresSinceSuccess(steps) >= maxFailures && LastOpening(steps, maxFailures).Some?
    && Clock(steps) >= LastOpening(steps, maxFailures).value + resetTimeout
  }

  predicate EndsProbe(step: Step) {
    step == End(Succeeded) || step == End(FailedClassified)
  }

  /** A call asked when a probe was due, and neither a success nor a classified failure was
      reported since. */
  predicate ProbeSince(steps: seq<Step>, maxFailures: int, resetTimeout: int, i: nat) {
    && i < |steps| && steps[i].Ask? && ProbeIsDue(steps[..i], maxFailures, resetTimeout)
    && forall j :: i < j < |steps| ==> !EndsProbe(steps[j])
  }

  ghost predicate ProbeIsHeld(steps: seq<Step>, maxFailures: int, resetTimeout: int) {
    exists i: nat :: ProbeSince(steps, maxFailures, resetTimeout, i)
  }

  lemma ProbeSinceGrows(steps: seq<Step>, step: Step, maxFailures: int, resetTimeout: int, i: nat)
    ensures i < |steps| ==>
              (ProbeSince(steps + [step], maxFailures, resetTimeout, i) <==>
               ProbeSince(steps, maxFailures, resetTimeout, i) && !EndsProbe(step))
    ensures i == |steps| ==>
              (ProbeSince(steps + [step], maxFailures, resetTimeout, i) <==> step.Ask? && ProbeIsDue(steps, maxFailures, resetTimeout))
  {
    var more := steps + [step];
    if i <= |steps| {
      assert more[..i] == steps[..i] && steps[..|steps|] == steps;
      assert forall j :: 0 <= j < |steps| ==> more[j] == steps[j];
      assert more[|steps|] == step;
    }
  }

  lemma ProbeHeldGrows(steps: seq<Step>, step: Step, maxFailures: int, resetTimeout: int)
    ensures ProbeIsHeld(steps + [step], maxFailures, resetTimeout) <==>
              || (ProbeIsHeld(steps, maxFailures, resetTimeout) && !EndsProbe(step))
              || (step.Ask? && ProbeIsDue(steps, maxFailures, resetTimeout))
  {
    if i: nat :| ProbeSince(steps + [step], maxFailures, resetTimeout, i) {
      ProbeSinceGrows(steps, step, maxFailures, resetTimeout, i);
    }
    if i: nat :| ProbeSince(steps, maxFailures, resetTimeout, i) {
      ProbeSinceGrows(steps, step, maxFailures, resetTimeout, i);
    }
    ProbeSinceGrows(steps, step, maxFailures, resetTimeout, |steps|);
  }

  /** The breaker's fields in terms of the steps that led there. */
  lemma {:induction false} CircuitFollowsSteps(c: Circuit, steps: seq<Step>)
    requires c.Configured() && c.failures == 0 && !c.Open() && !c.probeActive
    requires Run(World(c, 0, 0), steps).Some?
    ensures var w := Run(World(c, 0, 0), steps).value;
            && w.now == Clock(steps) && w.circuit.failures == FailuresSinceSuccess(steps)
            && w.circuit.maxFailures == c.maxFailures && w.circuit.resetTimeout == c.resetTimeout
            && w.circuit.openedAt == LastOpening(steps, c.maxFailures)
            && (w.circuit.Open() <==> FailuresSinceSuccess(steps) >= c.maxFailures)
            && (w.circuit.probeActive <==> ProbeIsHeld(steps, c.maxFailures, c.resetTimeout))
  {
    if steps != [] {
      var earlier, last := steps[..|steps| - 1], steps[|steps| - 1];
      assert steps == earlier + [last];
      CircuitFollowsSteps(c, earlier);
      ProbeHeldGrows(earlier, last, c.maxFailures, c.resetTimeout);
    }
  }

  /** In every reachable world, with calls overlapping in any way, a call is admitted if and only if
      fewer classified failures than the limit were reported since the last success, or no probe is
      held and the reset timeout has passed since the failure that last opened the breaker. */
  lemma AdmittedExactly(maxFailures: int, resetTimeout: int, steps: seq<Step>)
    requires maxFailures > 0 && resetTimeout > 0
    requires Run(World(NewCircuit(maxFailures, resetTimeout), 0, 0), steps).Some?
    ensures var w := Run(World(NewCircuit(maxFailures, resetTimeout), 0, 0), steps).value;
            Next(w, Ask).inFlight == w.inFlight + 1 <==>
              || FailuresSinceSuccess(steps) < maxFailures
              || (!ProbeIsHeld(steps, maxFailures, resetTimeout) && ProbeIsDue(steps, maxFailures, resetTimeout))
  {
    CircuitFollowsSteps(NewCircuit(maxFailures, resetTimeout), steps);
  }

  function WorldAt(w: World, steps: seq<Step>, i: nat): Option<World>
    requires i <= |steps|
  {
    Run(w, steps[..i])
  }

  predicate AdmissionAt(w: World, steps: seq<Step>, i: nat) {
    i < |steps| && steps[i].Ask? && WorldAt(w, steps, i).Some? && WorldAt(w, steps, i).value.circuit.Admits(WorldAt(w, steps, i).value.now)
  }

  lemma {:induction false} PrefixesRun(w: World, steps: seq<Step>, i: nat)
    requires Run(w, steps).Some? && i <= |steps|
    ensures WorldAt(w, steps, i).Some?
    ensures i < |steps| ==> Possible(WorldAt(w, steps, i).value, steps[i])
                            && WorldAt(w, steps, i + 1) == Some(Next(WorldAt(w, steps, i).value, steps[i]))
    decreases |steps|
  {
    var shorter := steps[..|steps|];
    assert shorter == steps;
    if i < |steps| {
      var earlier := steps[..|steps| - 1];
      if i == |steps| - 1 {
        assert steps[..i + 1] == steps;
      } else {
        PrefixesRun(w, earlier, i);
        assert earlier[..i] == steps[..i] && earlier[..i + 1] == steps[..i + 1];
      }
    }
  }

  ghost predicate OpenThroughout(w: World, steps: seq<Step>, i: nat, j: nat) {
    j <= |steps| && forall m :: i <= m <= j ==> WorldAt(w, steps, m).Some? && WorldAt(w, steps, m).value.circuit.Open()
  }

  lemma {:induction false} SettingsNeverChange(w: World, steps: seq<Step>)
    requires Run(w, steps).Some?
    ensures Run(w, steps).value.circuit.resetTimeout == w.circuit.resetTimeout
    ensures Run(w, steps).value.circuit.maxFailures == w.circuit.maxFailures
    ensures w.circuit.Sound() ==> Run(w, steps).value.circuit.Sound()
  {
    if steps != [] {
      SettingsNeverChange(w, steps[..|steps| - 1]);
    }
  }

  /** After a probe was admitted, and while the breaker stays open, either the probe is still out
      or the breaker was opened anew since. */
  lemma {:induction false} ProbeIsOutOrReopened(w: World, steps: seq<Step>, i: nat, m: nat)
    requires Run(w, steps).Some? && i < m <= |steps| && w.circuit.Sound()
    requires AdmissionAt(w, steps, i) && OpenThroughout(w, steps, i, m)
    ensures var first, later := WorldAt(w, steps, i).value, WorldAt(w, steps, m).value;
            && later.circuit.resetTimeout == first.circuit.resetTimeout
            && later.now >= first.now
            && (later.circuit.probeActive || later.circuit.openedAt.value >= first.now)
    decreases m
  {
    PrefixesRun(w, steps, m - 1);
    SettingsNeverChange(w, steps[..m - 1]);
    assert WorldAt(w, steps, m - 1).value.circuit.Open() && WorldAt(w, steps, m).value.circuit.Open();
    if i < m - 1 {
      ProbeIsOutOrReopened(w, steps, i, m - 1);
    }
  }

  /** Any two admissions while the breaker stays open are at least the reset timeout apart. */
  lemma AdmissionsAreSpaced(w: World, steps: seq<Step>, i: nat, j: nat)
    requires Run(w, steps).Some? && i < j && w.circuit.Sound()
    requires AdmissionAt(w, steps, i) && AdmissionAt(w, steps, j) && OpenThroughout(w, steps, i, j)
    ensures WorldAt(w, steps, j).value.now >= WorldAt(w, steps, i).value.now + w.circuit.resetTimeout
  {
    ProbeIsOutOrReopened(w, steps, i, j);
    SettingsNeverChange(w, steps[..i]);
  }

  // ----- The probe that never reports -----

  /** A probe ended with an error that was not classified, and no call is left to report. */
  predicate Stuck(w: World) {
    w.inFlight == 0 && w.circuit.Open() && w.circuit.probeActive
  }

  lemma {:induction false} StuckForever(w: World, steps: seq<Step>)
    requires Stuck(w) && Run(w, steps).Some?
    ensures Run(w, steps).value.circuit == w.circuit && Run(w, steps).value.inFlight == 0
  {
    if steps != [] {
      StuckForever(w, steps[..|steps| - 1]);
    }
  }

  ghost predicate WillAdmit(w: World, steps: seq<Step>) {
    Run(w, steps).Some? && Run(w, steps).value.circuit.Admits(Run(w, steps).value.now)
  }

  /** With no call in flight, the breaker will admit a call again some day exactly when it is not
      holding a probe whose outcome was ignored. */
  lemma AdmitsAgainUnlessStuck(w: World)
    requires w.inFlight == 0
    ensures (exists steps :: WillAdmit(w, steps)) <==> !Stuck(w)
  {
    if Stuck(w) {
      forall steps | Run(w, steps).Some?
        ensures !WillAdmit(w, steps)
      {
        StuckForever(w, steps);
      }
    } else if !w.circuit.Open() {
      assert WillAdmit(w, []);
    } else {
      var gap := w.circuit.openedAt.value + w.circuit.resetTimeout - w.now;
      var wait := Tick(if gap > 0 then gap else 0);
      assert [wait][..0] == [];
      assert Run(w, [wait]) == Some(Next(w, wait));
      assert WillAdmit(w, [wait]);
    }
  }

  lemma Extend(w: World, steps: seq<Step>, reached: World, step: Step) returns (longer: seq<Step>, next: World)
    requires Run(w, steps) == Some(reached) && Possible(reached, step)
    ensures Run(w, longer) == Some(next) && next == Next(reached, step)
  {
    longer, next := steps + [step], Next(reached, step);
    assert longer[..|steps|] == steps;
  }

  ghost predicate Sticks(w: World, steps: seq<Step>) {
    Run(w, steps).Some? && Stuck(Run(w, steps).value)
  }

  /** The stuck state is reached: one failure, the timeout, one probe with an ignored error. */
  lemma IgnoredProbeSticks()
    ensures exists steps :: Sticks(World(NewCircuit(1, 10), 0, 0), steps)
  {
    var w := World(NewCircuit(1, 10), 0, 0);
    var steps, now := Extend(w, [], w, Ask);
    steps, now := Extend(w, steps, now, End(FailedClassified));
    steps, now := Extend(w, steps, now, Tick(10));
    steps, now := Extend(w, steps, now, Ask);
    steps, now := Extend(w, steps, now, End(Ignored));
    assert Sticks(w, steps);
  }

  lemma {:induction false} ProbesAreInFlight(w: World, steps: seq<Step>)
    requires Run(w, steps).Some? && (w.circuit.probeActive ==> w.inFlight > 0)
    requires forall i :: 0 <= i < |steps| ==> steps[i] != End(Ignored)
    ensures Run(w, steps).value.circuit.probeActive ==> Run(w, steps).value.inFlight > 0
  {
    if steps != [] {
      ProbesAreInFlight(w, steps[..|steps| - 1]);
      assert steps[|steps| - 1] != End(Ignored);
    }
  }

  /** A breaker around an operation whose every error counts as a failure, as the message broker's
      does, never sticks: once all calls have reported it will admit a call again. */
  lemma ClassifiedCallsNeverStick(maxFailures: int, resetTimeout: int, steps: seq<Step>)
    requires Run(World(NewCircuit(maxFailures, resetTimeout), 0, 0), steps).Some?
    requires forall i :: 0 <= i < |steps| ==> steps[i] != End(Ignored)
    ensures var w := Run(World(NewCircuit(maxFailures, resetTimeout), 0, 0), steps).value;
            w.inFlight == 0 ==> exists more :: WillAdmit(w, more)
  {
    ProbesAreInFlight(World(NewCircuit(maxFailures, resetTimeout), 0, 0), steps);
    var w := Run(World(NewCircuit(maxFailures, resetTimeout), 0, 0), steps).value;
    if w.inFlight == 0 {
      AdmitsAgainUnlessStuck(w);
    }
  }

  // ----- Bounded retry -----

  const RETRY_MAX_ATTEMPTS := 3

  /** What one call of the dependency answers. */
  datatype Answer = Fine | Transient | Permanent

  datatype RetryResult = Returned(answer: Answer) | ContextDone

  /** Call again after a transient error, three calls at most; `cancelled` tells whether the
      context ends during the pause after each call. */
  method WithRetry(answers: nat -> Answer, cancelled: nat -> bool) returns (r: RetryResult, calls: nat)
    ensures 1 <= calls <= 3
    ensures forall i :: 0 <= i < calls - 1 ==> answers(i) == Transient && !cancelled(i)
    ensures r.Returned? ==> r.answer == answers(calls - 1) && (r.answer == Transient ==> calls == RETRY_MAX_ATTEMPTS)
    ensures r.ContextDone? <==> calls < RETRY_MAX_ATTEMPTS && answers(calls - 1) == Transient
    ensures r.ContextDone? ==> cancelled(calls - 1)
  {
    calls := 0;
    r := Returned(Transient);
    while calls < RETRY_MAX_ATTEMPTS
      invariant calls <= RETRY_MAX_ATTEMPTS
      invariant forall i :: 0 <= i < calls ==> answers(i) == Transient && (i < RETRY_MAX_ATTEMPTS - 1 ==> !cancelled(i))
      invariant r == Returned(Transient)
    {
      calls := calls + 1;
      r := Returned(answers(calls - 1));
      if r.answer != Transient || calls == RETRY_MAX_ATTEMPTS {
        return;
      }
      if cancelled(calls - 1) {
        r := ContextDone;
        return;
      }
    }
  }

  /** How the breaker sees a retried operation: only a transient error counts as a failure. The
      object store also takes a passed deadline for a transient error, the database never does. */
  function EndingOf(r: RetryResult, deadlineCounts: bool): Ending {
    match r
    case Returned(Fine) => Succeeded
    case Returned(Transient) => FailedClassified
    case Returned(Permanent) => Ignored
    case ContextDone => if deadlineCounts then FailedClassified else Ignored
  }

  function AfterDeadCall(c: Circuit, call: DeadCall): Circuit {
    if c.Admits(call.start) then c.AfterAllow(call.start).AfterFailure(call.end) else c
  }

  function DeadCalls(c: Circuit, call: DeadCall): nat {
    if c.Admits(call.start) then RETRY_MAX_ATTEMPTS else 0
  }

  /** A database statement or a storage request: the breaker around the retry. The number of
      calls that reach the dependency is returned with the result. */
  method Execute(b: Breaker, start: Time, answers: nat -> Answer, cancelled: nat -> bool, deadlineCounts: bool, end: Time)
    returns (r: DoResult, calls: nat)
    modifies b
    ensures r.Rejected? <==> old(b.openedAt).Some? && (old(b.probeActive) || start < old(b.openedAt).value + b.resetTimeout)
    ensures r.Rejected? ==> calls == 0 && b.State() == old(b.State())
    ensures r.Ran? ==> 1 <= calls <= 3
                       && (b.State(), r) == AloneDo(old(b.State()), false, true, start, r.ending, end)
                       && (r.ending.Succeeded? <==> answers(calls - 1) == Fine)
                       && (r.ending.FailedClassified? <==>
                            answers(calls - 1) == Transient && (calls == RETRY_MAX_ATTEMPTS || deadlineCounts))
                       && forall i :: 0 <= i < calls - 1 ==> answers(i) == Transient && !cancelled(i)
    ensures (forall i :: answers(i) == Transient && !cancelled(i)) ==>
              b.State() == AfterDeadCall(old(b.State()), DeadCall(start, end)) && calls == DeadCalls(old(b.State()), DeadCall(start, end))
  {
    var admitted := b.Allow(start);
    calls := 0;
    if !admitted {
      return Rejected, 0;
    }
    var result;
    result, calls := WithRetry(answers, cancelled);
    var ending := EndingOf(result, deadlineCounts);
    if ending.Succeeded? {
      b.Success();
    } else if ending.FailedClassified? {
      b.Failure(end);
    }
    r := Ran(ending);
  }

  // ----- Pressure on a dead dependency -----

  /** One operation of a sequential caller while the dependency answers every call with a
      transient error and nothing is cancelled. */
  datatype DeadCall = DeadCall(start: Time, end: Time)

  /** The breaker, the calls that reached the dependency, and when the breaker first opened. */
  datatype Load = Load(circuit: Circuit, calls: nat, firstOpening: Option<Time>)

  function AfterCalls(c: Circuit, calls: seq<DeadCall>): Load {
    if calls == [] then Load(c, 0, None)
    else
      var before, last := AfterCalls(c, calls[..|calls| - 1]), calls[|calls| - 1];
      var after := AfterDeadCall(before.circuit, last);
      Load(after, before.calls + DeadCalls(before.circuit, last),
           if before.firstOpening.None? then after.openedAt else before.firstOpening)
  }

  ghost predicate Sequential(calls: seq<DeadCall>) {
    forall i :: 0 <= i < |calls| ==> calls[i].start <= calls[i].end && (i > 0 ==> calls[i - 1].end <= calls[i].start)
  }

  predicate WithinBudget(l: Load, now: Time)
    requires l.circuit.Configured()
  {
    && (l.firstOpening.None? ==> l.calls <= RETRY_MAX_ATTEMPTS * l.circuit.maxFailures)
    && (l.firstOpening.Some? ==>
         l.calls <= RETRY_MAX_ATTEMPTS * (l.circuit.maxFailures + (now - l.firstOpening.value) / l.circuit.resetTimeout))
  }

  lemma ProbesFit(probes: nat, since: int, timeout: int)
    requires timeout > 0 && since >= probes * timeout
    ensures since / timeout >= probes
  {
    var q := since / timeout;
    assert (probes - q - 1) * timeout == probes * timeout - q * timeout - timeout;
    assert probes - q - 1 >= 0 ==> (probes - q - 1) * timeout >= 0;
  }

  /** While closed, every call counts towards the limit; once open, the k-th probe comes at least
      k timeouts after the first opening. */
  lemma {:induction false} ProbesArePaced(c: Circuit, calls: seq<DeadCall>) returns (probes: nat)
    requires c.Configured() && c.failures == 0 && !c.Open() && !c.probeActive && Sequential(calls)
    ensures var l := AfterCalls(c, calls);
            && l.circuit.maxFailures == c.maxFailures && l.circuit.resetTimeout == c.resetTimeout && !l.circuit.probeActive
            && (l.circuit.Open() <==> l.firstOpening.Some?)
            && (!l.circuit.Open() ==> l.calls == RETRY_MAX_ATTEMPTS * l.circuit.failures && l.circuit.failures < c.maxFailures)
            && (l.circuit.Open() ==>
                 && l.circuit.failures >= c.maxFailures
                 && l.calls == RETRY_MAX_ATTEMPTS * (c.maxFailures + probes)
                 && l.circuit.openedAt.value >= l.firstOpening.value + probes * c.resetTimeout
                 && |calls| > 0 && l.circuit.openedAt.value <= calls[|calls| - 1].end)
  {
    probes := 0;
    if calls != [] {
      var earlier, last := calls[..|calls| - 1], calls[|calls| - 1];
      var p := ProbesArePaced(c, earlier);
      var before := AfterCalls(c, earlier);
      if before.circuit.Open() {
        probes := p;
        assert earlier[|earlier| - 1] == calls[|calls| - 2];
        if before.circuit.Admits(last.start) {
          probes := p + 1;
          assert (p + 1) * c.resetTimeout == p * c.resetTimeout + c.resetTimeout;
        }
      }
    }
  }

  /** Bounded pressure: since the last success a dead dependency has been called at most
      three times for each allowed failure and for each full timeout since the first opening. */
  lemma DeadDependencyIsSpared(c: Circuit, calls: seq<DeadCall>, now: Time)
    requires c.Configured() && c.failures == 0 && !c.Open() && !c.probeActive && Sequential(calls)
    requires calls != [] ==> calls[|calls| - 1].end <= now
    ensures AfterCalls(c, calls).circuit.Configured() && WithinBudget(AfterCalls(c, calls), now)
  {
    var probes := ProbesArePaced(c, calls);
    var l := AfterCalls(c, calls);
    if l.circuit.Open() {
      ProbesFit(probes, now - l.firstOpening.value, c.resetTimeout);
    }
  }

  /** A call after the first opening stays within the budget already when it starts. */
  lemma OneMoreCallFits(before: Load, call: DeadCall, p: nat)
    requires before.circuit.Configured() && before.circuit.Open() && before.firstOpening.Some?
    requires before.calls == RETRY_MAX_ATTEMPTS * (before.circuit.maxFailures + p)
    requires before.circuit.openedAt.value >= before.firstOpening.value + p * before.circuit.resetTimeout
    requires before.circuit.openedAt.value <= call.start
    ensures var l := Load(AfterDeadCall(before.circuit, call), before.calls + DeadCalls(before.circuit, call), before.firstOpening);
            l.circuit.Configured() && WithinBudget(l, call.start)
  {
    var timeout, since := before.circuit.resetTimeout, call.start - before.firstOpening.value;
    if before.circuit.Admits(call.start) {
      assert (p + 1) * timeout == p * timeout + timeout;
      ProbesFit(p + 1, since, timeout);
    } else {
      ProbesFit(p, since, timeout);
    }
  }

  /** The bound already holds when the last probe has only started. */
  lemma SparedDuringTheProbe(c: Circuit, calls: seq<DeadCall>)
    requires c.Configured() && c.failures == 0 && !c.Open() && !c.probeActive && Sequential(calls) && calls != []
    requires AfterCalls(c, calls[..|calls| - 1]).firstOpening.Some?
    ensures AfterCalls(c, calls).circuit.Configured() && WithinBudget(AfterCalls(c, calls), calls[|calls| - 1].start)
  {
    var earlier, last := calls[..|calls| - 1], calls[|calls| - 1];
    var p := ProbesArePaced(c, earlier);
    assert earlier[|earlier| - 1] == calls[|calls| - 2];
    hide AfterDeadCall, DeadCalls, WithinBudget;
    var before := AfterCalls(c, earlier);
    assert AfterCalls(c, calls)
        == Load(AfterDeadCall(before.circuit, last), before.calls + DeadCalls(before.circuit, last), before.firstOpening);
    OneMoreCallFits(before, last, p);
  }
}
