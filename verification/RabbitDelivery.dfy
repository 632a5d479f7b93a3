/** RabbitMQ deliveries: the acknowledge, retry and dead-letter decision, as a transition system
    over the copies of messages in the queues. Every forward and every acknowledgement may fail; a
    failed forward may still have left a copy. */
module RabbitDelivery {
  import opened Wrappers

  type MessageId = nat

  datatype Phase =
    | Running    // the handler is at work
    | Handled    // it returned nil, the acknowledgement is due
    | Failed     // it returned an error, the forward is due
    | Forwarded  // a copy was forwarded, the acknowledgement is due
    | NackDue    // the forward failed, the requeue is due

  datatype Place = Main | Retry | Dead | Unacked(phase: Phase)

  /** One copy of a message, with the attempt its headers carry. */
  datatype Copy = Copy(message: MessageId, attempt: int, place: Place)

  datatype State = State(
    maxAttempts: int,
    copies: map<nat, Copy>,
    accepted: set<MessageId>,     // history: taken by the broker
    handled: set<MessageId>,      // history: handled without error
    runs: map<MessageId, nat>)    // history: how often the handler ran

  datatype Action =
    | Accept(message: MessageId, k: nat)
    | Deliver(k: nat)
    | HandlerReturns(k: nat, ok: bool)
    | Forward(k: nat, copy: nat)
    | ForwardFails(k: nat, copy: nat, took: bool)
    | Acknowledge(k: nat)
    | Requeue(k: nat)
    | RetryDue(k: nat)
    | ConnectionLost(k: nat)

  function Init(maxAttempts: int): State {
    State(maxAttempts, map[], {}, {}, map[])
  }

  predicate In(s: State, k: nat, place: Place) {
    k in s.copies && s.copies[k].place == place
  }

  /** A message enters without delivery metadata, which reads as the first attempt. */
  predicate Enabled(s: State, act: Action) {
    match act
    case Accept(m, k) => m !in s.accepted && k !in s.copies
    case Deliver(k) => In(s, k, Main)
    case HandlerReturns(k, _) => In(s, k, Unacked(Running))
    case Forward(k, copy) => In(s, k, Unacked(Failed)) && copy !in s.copies
    case ForwardFails(k, copy, _) => In(s, k, Unacked(Failed)) && copy !in s.copies
    case Acknowledge(k) => In(s, k, Unacked(Handled)) || In(s, k, Unacked(Forwarded))
    case Requeue(k) => In(s, k, Unacked(NackDue))
    case RetryDue(k) => In(s, k, Retry)
    case ConnectionLost(k) => k in s.copies && s.copies[k].place.Unacked?
  }

  /** The copy a failed delivery is forwarded as: to the retry exchange with the next attempt, or
      from the last attempt to the dead-letter exchange with the same one. */
  function ForwardedCopy(c: Copy, maxAttempts: int): Copy {
    if c.attempt >= maxAttempts then c.(place := Dead) else Copy(c.message, c.attempt + 1, Retry)
  }

  function Moved(s: State, k: nat, place: Place): State
    requires k in s.copies
  {
    s.(copies := s.copies[k := s.copies[k].(place := place)])
  }

  function Runs(s: State, m: MessageId): nat {
    if m in s.runs then s.runs[m] else 0
  }

  function Next(s: State, act: Action): State
    requires Enabled(s, act)
  {
    match act
    case Accept(m, k) => s.(copies := s.copies[k := Copy(m, 1, Main)], accepted := s.accepted + {m})
    case Deliver(k) =>
      var m := s.copies[k].message;
      Moved(s, k, Unacked(Running)).(runs := s.runs[m := Runs(s, m) + 1])
    case HandlerReturns(k, ok) =>
      if ok then Moved(s, k, Unacked(Handled)).(handled := s.handled + {s.copies[k].message})
      else Moved(s, k, Unacked(Failed))
    case Forward(k, copy) =>
      var forwarded := ForwardedCopy(s.copies[k], s.maxAttempts);
      s.(copies := s.copies[k := s.copies[k].(place := Unacked(Forwarded))][copy := forwarded])
    case ForwardFails(k, copy, took) =>
      var held := Moved(s, k, Unacked(NackDue));
      if took then held.(copies := held.copies[copy := ForwardedCopy(s.copies[k], s.maxAttempts)]) else held
    case Acknowledge(k) => s.(copies := s.copies - {k})
    case Requeue(k) => Moved(s, k, Main)
    case RetryDue(k) => Moved(s, k, Main)
    case ConnectionLost(k) => Moved(s, k, Main)
  }

  function Run(s: State, run: seq<Action>): Option<State> {
    if run == [] then Some(s)
    else
      var before := Run(s, run[..|run| - 1]);
      if before.Some? && Enabled(before.value, run[|run| - 1])
      then Some(Next(before.value, run[|run| - 1])) else None
  }

  lemma {:induction false} RunAppends(s: State, run: seq<Action>, act: Action)
    requires Run(s, run).Some? && Enabled(Run(s, run).value, act)
    ensures Run(s, run + [act]) == Some(Next(Run(s, run).value, act))
  {
  }

  // ----- Conservation -----

  ghost predicate Anchored(s: State, m: MessageId, k: nat) {
    k in s.copies && s.copies[k].message == m && s.copies[k].place != Unacked(Forwarded)
  }

  /** Every accepted message was handled or has a copy that is not merely waiting for the
      acknowledgement of its forwarding. */
  ghost predicate Conserved(s: State) {
    forall m :: m in s.accepted ==> m in s.handled || exists k :: Anchored(s, m, k)
  }

  ghost predicate AttemptsInRange(s: State) {
    forall k :: k in s.copies ==>
      && s.copies[k].message in s.accepted
      && 1 <= s.copies[k].attempt <= s.maxAttempts
      && (s.copies[k].place.Dead? ==> s.copies[k].attempt == s.maxAttempts)
      && (s.copies[k].place == Unacked(Handled) ==> s.copies[k].message in s.handled)
  }

  ghost predicate Inv(s: State) {
    s.maxAttempts >= 1 && Conserved(s) && AttemptsInRange(s)
  }

  lemma StepKeepsAttempts(s: State, act: Action)
    requires Inv(s) && Enabled(s, act)
    ensures AttemptsInRange(Next(s, act))
  {
  }

  lemma StepKeepsConserved(s: State, act: Action)
    requires Inv(s) && Enabled(s, act)
    ensures Conserved(Next(s, act))
  {
    var s' := Next(s, act);
    forall m | m in s'.accepted && m !in s'.handled
      ensures exists k :: Anchored(s', m, k)
    {
      if m !in s.accepted {
        assert Anchored(s', m, act.k);
      } else {
        var k :| Anchored(s, m, k);
        if act.Forward? && act.k == k {
          assert Anchored(s', m, act.copy);
        } else {
          assert Anchored(s', m, k);
        }
      }
    }
  }

  lemma {:induction false} RunKeepsInv(s: State, run: seq<Action>)
    requires Inv(s) && Run(s, run).Some?
    ensures Inv(Run(s, run).value) && Run(s, run).value.maxAttempts == s.maxAttempts
  {
    if run != [] {
      RunKeepsInv(s, run[..|run| - 1]);
      StepKeepsAttempts(Run(s, run[..|run| - 1]).value, run[|run| - 1]);
      StepKeepsConserved(Run(s, run[..|run| - 1]).value, run[|run| - 1]);
    }
  }

  /** Conservation: whatever fails, an accepted message is in the main, retry or dead-letter
      queue, is unacknowledged, or was handled without error; every copy carries an attempt
      between one and the maximum, a dead-lettered one exactly the maximum. */
  lemma NothingIsLost(maxAttempts: int, run: seq<Action>, m: MessageId)
    requires maxAttempts >= 1 && Run(Init(maxAttempts), run).Some?
    requires m in Run(Init(maxAttempts), run).value.accepted
    ensures var s := Run(Init(maxAttempts), run).value;
            && (m in s.handled || exists k :: k in s.copies && s.copies[k].message == m)
            && forall k :: k in s.copies ==>
                 && 1 <= s.copies[k].attempt <= maxAttempts
                 && (s.copies[k].place.Dead? ==> s.copies[k].attempt == maxAttempts)
  {
    RunKeepsInv(Init(maxAttempts), run);
    var s := Run(Init(maxAttempts), run).value;
    if m !in s.handled {
      var k :| Anchored(s, m, k);
    }
  }

  // ----- Termination -----

  /** An action in which nothing but handlers failed. */
  predicate Smooth(act: Action) {
    !act.ForwardFails? && !act.Requeue? && !act.ConnectionLost?
  }

  /** How often the handler must have run on a message, read off one of its copies. */
  function RunsImplied(c: Copy): int {
    if c.place.Main? || c.place.Retry? then c.attempt - 1 else c.attempt
  }

  ghost predicate OneCopyCounts(s: State) {
    && (forall m, k :: Anchored(s, m, k) ==> Runs(s, m) == RunsImplied(s.copies[k]))
    && (forall m, k, l :: Anchored(s, m, k) && Anchored(s, m, l) ==> k == l)
    && (forall m :: Runs(s, m) <= s.maxAttempts)
    && (forall m :: m !in s.accepted ==> Runs(s, m) == 0)
  }

  /** In a smooth step every copy that counts comes from one that counted before, or is a newly
      accepted message. */
  lemma Origin(s: State, act: Action, m: MessageId, k: nat) returns (before: nat)
    requires AttemptsInRange(s) && Enabled(s, act) && Smooth(act) && Anchored(Next(s, act), m, k)
    ensures m in s.accepted ==> Anchored(s, m, before)
    ensures m in s.accepted ==> before == if act.Forward? && k == act.copy then act.k else k
    ensures m !in s.accepted ==> act.Accept? && act.message == m && act.k == k
  {
    before := if act.Forward? && k == act.copy then act.k else k;
  }

  lemma StepKeepsOneCopy(s: State, act: Action)
    requires Inv(s) && OneCopyCounts(s) && Enabled(s, act) && Smooth(act)
    ensures OneCopyCounts(Next(s, act))
  {
    var s' := Next(s, act);
    if act.Deliver? {
      assert Anchored(s, s.copies[act.k].message, act.k);
    }
    assert forall m :: Runs(s', m) == Runs(s, m) + (if act.Deliver? && s.copies[act.k].message == m then 1 else 0);
    forall m, k | Anchored(s', m, k)
      ensures Runs(s', m) == RunsImplied(s'.copies[k])
      ensures forall l :: Anchored(s', m, l) ==> k == l
    {
      var before := Origin(s, act, m, k);
      forall l | Anchored(s', m, l)
        ensures k == l
      {
        var other := Origin(s, act, m, l);
      }
    }
  }

  lemma {:induction false} RunKeepsOneCopy(s: State, run: seq<Action>)
    requires Inv(s) && OneCopyCounts(s) && Run(s, run).Some?
    requires forall i :: 0 <= i < |run| ==> Smooth(run[i])
    ensures OneCopyCounts(Run(s, run).value)
  {
    if run != [] {
      var earlier := run[..|run| - 1];
      RunKeepsOneCopy(s, earlier);
      RunKeepsInv(s, earlier);
      StepKeepsOneCopy(Run(s, earlier).value, run[|run| - 1]);
    }
  }

  /** Without forward and acknowledgement errors the handler runs at most `maxAttempts` times per
      message, and a message is dead-lettered only after exactly that many runs. */
  lemma HandlerRunsAreBounded(maxAttempts: int, run: seq<Action>, m: MessageId)
    requires maxAttempts >= 1 && Run(Init(maxAttempts), run).Some?
    requires forall i :: 0 <= i < |run| ==> Smooth(run[i])
    ensures var s := Run(Init(maxAttempts), run).value;
            && Runs(s, m) <= maxAttempts
            && (forall k :: k in s.copies && s.copies[k].message == m && s.copies[k].place.Dead? ==> Runs(s, m) == maxAttempts)
  {
    RunKeepsInv(Init(maxAttempts), run);
    RunKeepsOneCopy(Init(maxAttempts), run);
  }
}
