/** The Kafka consumer's claim loop: when an offset may be marked. */
module KafkaConsumer {
  import opened Wrappers
  import opened DeliveryHeaders
  import opened Messages
  import opened KafkaCodec
  import opened Retry

  /** A record of the claimed partition. */
  datatype Claimed = Claimed(offset: nat, record: Record)

  datatype Fate = HadNoHandler | WasHandled | WasDeadLettered

  /** History of a session: what became of each record, and every mark, in order. */
  datatype Event = Resolved(offset: nat, fate: Fate) | Marked(offset: nat)

  datatype Choice = ContextEnded | ChannelClosed | NextRecord

  /** A claim delivers its records by increasing offset. */
  ghost predicate Ordered(claim: seq<Claimed>) {
    forall i, j :: 0 <= i < j < |claim| ==> claim[i].offset < claim[j].offset
  }

  class Session {
    const ctx: Context
    var nextOffset: nat                  // the offset the group would resume from
    ghost var log: seq<Event>
    ghost var deadLetters: seq<Record>

    constructor (ctx: Context, nextOffset: nat)
      ensures this.ctx == ctx && this.nextOffset == nextOffset && log == [] && deadLetters == []
    {
      this.ctx := ctx;
      this.nextOffset := nextOffset;
      log, deadLetters := [], [];
    }

    /** Marking never moves backwards. */
    method MarkMessage(offset: nat)
      modifies this`nextOffset, this`log
      ensures nextOffset == (if offset + 1 > old(nextOffset) then offset + 1 else old(nextOffset))
      ensures log == old(log) + [Marked(offset)]
    {
      if offset + 1 > nextOffset {
        nextOffset := offset + 1;
      }
      log := log + [Marked(offset)];
    }

    ghost method Resolve(offset: nat, fate: Fate)
      modifies this`log
      ensures log == old(log) + [Resolved(offset, fate)]
    {
      log := log + [Resolved(offset, fate)];
    }

    /** Waiting for the end of the session or the next record. When both are there either may be
        taken; with no record left the channel ends up closed. */
    method Select(more: bool) returns (choice: Choice)
      modifies ctx
      ensures choice.NextRecord? ==> more
      ensures choice.ContextEnded? ==> ctx.done
      ensures old(ctx.done) ==> ctx.done
    {
      var ended := ctx.Err();
      choice := *;
      if choice.ContextEnded? && !ended {
        choice := ChannelClosed;
      }
      if choice.NextRecord? && !more {
        choice := ChannelClosed;
      }
    }

    /** The synchronous producer refuses when the context has ended and may fail by itself. */
    method Send(r: Record) returns (ok: bool)
      modifies this`deadLetters, ctx
      ensures old(ctx.done) ==> !ok && ctx.done
      ensures ctx.done ==> !ok
      ensures deadLetters == if ok then old(deadLetters) + [r] else old(deadLetters)
    {
      var ended := ctx.Err();
      ok := *;
      if ended {
        ok := false;
      }
      if ok {
        deadLetters := deadLetters + [r];
      }
    }
  }

  ghost predicate ResolvedBefore(log: seq<Event>, offset: nat, i: nat) {
    exists j :: 0 <= j < i && j < |log| && log[j].Resolved? && log[j].offset == offset
  }

  /** Every record at or below a mark was resolved before that mark was made. */
  ghost predicate MarksAreSafe(log: seq<Event>, claim: seq<Claimed>) {
    forall i, c :: 0 <= i < |log| && log[i].Marked? && c in claim && c.offset <= log[i].offset ==> ResolvedBefore(log, c.offset, i)
  }

  ghost predicate AllResolved(log: seq<Event>, claim: seq<Claimed>, n: nat)
    requires n <= |claim|
  {
    forall i :: 0 <= i < n ==> ResolvedBefore(log, claim[i].offset, |log|)
  }

  lemma AppendKeepsMarks(log: seq<Event>, claim: seq<Claimed>, e: Event)
    requires MarksAreSafe(log, claim)
    requires e.Marked? ==> forall c :: c in claim && c.offset <= e.offset ==> ResolvedBefore(log, c.offset, |log|)
    ensures MarksAreSafe(log + [e], claim)
  {
    var log' := log + [e];
    forall i, c | 0 <= i < |log'| && log'[i].Marked? && c in claim && c.offset <= log'[i].offset
      ensures ResolvedBefore(log', c.offset, i)
    {
      if i < |log| {
        assert log[i] == log'[i];
      }
      assert ResolvedBefore(log, c.offset, i);
      var j :| 0 <= j < i && j < |log| && log[j].Resolved? && log[j].offset == c.offset;
      assert log'[j] == log[j];
    }
  }

  /** Resolving record `n` and then marking it keeps the marks safe. */
  lemma ResolveThenMark(log: seq<Event>, claim: seq<Claimed>, n: nat, fate: Fate)
    requires Ordered(claim) && n < |claim| && MarksAreSafe(log, claim) && AllResolved(log, claim, n)
    ensures var log' := log + [Resolved(claim[n].offset, fate)] + [Marked(claim[n].offset)];
            MarksAreSafe(log', claim) && AllResolved(log', claim, n + 1)
  {
    var mid := log + [Resolved(claim[n].offset, fate)];
    AppendKeepsMarks(log, claim, Resolved(claim[n].offset, fate));
    assert mid[|log|] == Resolved(claim[n].offset, fate);
    forall i | 0 <= i <= n
      ensures ResolvedBefore(mid, claim[i].offset, |mid|)
    {
      if i < n {
        assert ResolvedBefore(log, claim[i].offset, |log|);
        var j :| 0 <= j < |log| && log[j].Resolved? && log[j].offset == claim[i].offset;
        assert mid[j] == log[j];
      }
    }
    var log' := mid + [Marked(claim[n].offset)];
    forall c | c in claim && c.offset <= claim[n].offset
      ensures ResolvedBefore(mid, c.offset, |mid|)
    {
      var i :| 0 <= i < |claim| && claim[i] == c;
      assert i <= n;
    }
    AppendKeepsMarks(mid, claim, Marked(claim[n].offset));
    forall i | 0 <= i <= n
      ensures ResolvedBefore(log', claim[i].offset, |log'|)
    {
      var j :| 0 <= j < |mid| && mid[j].Resolved? && mid[j].offset == claim[i].offset;
      assert log'[j] == mid[j];
    }
  }

  /** Nothing behind the first `n` records has been resolved or marked. */
  ghost predicate NothingBeyond(log: seq<Event>, claim: seq<Claimed>, n: nat)
    requires n <= |claim|
  {
    forall e :: e in log ==> n > 0 && e.offset <= claim[n - 1].offset
  }

  lemma NothingBeyondGrows(log: seq<Event>, claim: seq<Claimed>, n: nat, fate: Fate)
    requires Ordered(claim) && n < |claim| && NothingBeyond(log, claim, n)
    ensures NothingBeyond(log + [Resolved(claim[n].offset, fate)] + [Marked(claim[n].offset)], claim, n + 1)
  {
  }

  ghost predicate FirstSuccess<S>(handler: Handler<S>, s: S, m: Message, maxAttempts: Int64, k: nat) {
    && 1 <= k <= maxAttempts && Succeeds(handler, s, m, maxAttempts, k)
    && forall i :: 1 <= i < k ==> !Succeeds(handler, s, m, maxAttempts, i)
  }

  /** Every attempt there is was made, and none succeeded. */
  ghost predicate AllAttemptsFail<S>(handler: Handler<S>, s: S, m: Message, maxAttempts: Int64) {
    forall i :: 1 <= i <= maxAttempts ==> !Succeeds(handler, s, m, maxAttempts, i)
  }

  /** What a record's fate says about the handler and its state before and after. */
  ghost predicate RecordStep<S>(handler: Option<Handler<S>>, s: S, m: Message, maxAttempts: Int64, s': S, fate: Fate) {
    match fate
    case HadNoHandler => handler.None? && s' == s
    case WasHandled =>
      handler.Some? && exists k: nat :: FirstSuccess(handler.value, s, m, maxAttempts, k) && s' == After(handler.value, s, m, maxAttempts, k).0
    case WasDeadLettered =>
      && handler.Some? && maxAttempts >= 1 && AllAttemptsFail(handler.value, s, m, maxAttempts)
      && s' == After(handler.value, s, m, maxAttempts, maxAttempts).0
  }

  /** All that a dead letter carries, whatever order its headers were sent in. */
  datatype Letter = Letter(topic: string, key: string, payload: string, fields: Headers)

  function LetterOf(r: Record): Letter {
    Letter(r.topic, r.key, r.value, Fields(r.headers))
  }

  /** What dead letters depend on besides their record. */
  datatype Burial = Burial(suffix: string, maxAttempts: Int64, trace: Headers, text: Text, now: Messages.Time)

  const EXHAUSTED := "max retries exceeded"

  function Letters(records: seq<Record>): seq<Letter> {
    if records == [] then [] else Letters(records[..|records| - 1]) + [LetterOf(records[|records| - 1])]
  }

  /** The attempts leave their number in the headers and the message otherwise as it was. */
  lemma {:induction false} AttemptsStamp<S>(handler: Handler<S>, s: S, m: Message, maxAttempts: Int64, k: nat)
    requires k <= maxAttempts
    ensures After(handler, s, m, maxAttempts, k).1
         == if k == 0 then m
            else m.(headers := m.headers[ATTEMPT_HEADER := Itoa(k)][MAX_ATTEMPTS_HEADER := Itoa(maxAttempts)])
  {
    if k > 0 {
      AttemptsStamp(handler, s, m, maxAttempts, k - 1);
    }
  }

  /** What the end of the retries makes of a record. */
  lemma RetriesDecide<S>(handler: Handler<S>, s: S, m: Message, maxAttempts: Int64, s': S, m': Message, r: Outcome, attempts: nat)
    requires attempts <= maxAttempts && maxAttempts >= 1 && (s', m') == After(handler, s, m, maxAttempts, attempts)
    requires forall i :: 1 <= i < attempts ==> !Succeeds(handler, s, m, maxAttempts, i)
    requires r.Success? <==> attempts >= 1 && Succeeds(handler, s, m, maxAttempts, attempts)
    requires r.Exhausted? ==> attempts == maxAttempts
    ensures r.Success? ==> RecordStep(Some(handler), s, m, maxAttempts, s', WasHandled)
    ensures r.Exhausted? ==> RecordStep(Some(handler), s, m, maxAttempts, s', WasDeadLettered)
    ensures r.Exhausted? ==>
              m' == m.(headers := m.headers[ATTEMPT_HEADER := Itoa(maxAttempts)][MAX_ATTEMPTS_HEADER := Itoa(maxAttempts)])
  {
    AttemptsStamp(handler, s, m, maxAttempts, attempts);
    if r.Success? {
      assert FirstSuccess(handler, s, m, maxAttempts, attempts);
    }
  }

  /** The dead letter of a message: under its id, with its payload, its headers, the cause and the
      trace context, its id and its timestamp. */
  function LetterFor(m: Message, topic: string, cause: string, trace: Headers, text: Text): Letter {
    Letter(topic, m.id, m.payload,
           Unreserved(m.headers["x-error" := cause] + trace)[ID_KEY := m.id][TIMESTAMP_KEY := text.format(m.timestamp)])
  }

  /** The dead letter a record leaves behind, if it leaves one: its message after the last attempt. */
  function Buried(record: Record, fate: Option<Fate>, b: Burial): seq<Letter> {
    if fate != Some(WasDeadLettered) then []
    else
      var m := Parsed(record, b.now, b.text);
      var attempts := Itoa(b.maxAttempts);
      [LetterFor(m.(headers := m.headers[ATTEMPT_HEADER := attempts][MAX_ATTEMPTS_HEADER := attempts]),
                 record.topic + b.suffix, EXHAUSTED, b.trace, b.text)]
  }

  /** Publish a message to its dead-letter topic. */
  method Bury(session: Session, topic: string, m: Message, suffix: string, cause: string, trace: Headers, text: Text)
    returns (ok: bool)
    modifies session`deadLetters, session.ctx
    ensures Letters(session.deadLetters)
         == Letters(old(session.deadLetters)) + (if ok then [LetterFor(m, topic + suffix, cause, trace, text)] else [])
    ensures old(session.ctx.done) ==> session.ctx.done && !ok
  {
    var dead := PublishToDLQ(m, topic, suffix, cause, trace, text);
    ghost var message := DeadLetter(m, topic, suffix, cause);
    EncodedFields(dead, message, topic + suffix, message.headers + trace, text);
    ok := session.Send(dead);
    assert ok ==> session.deadLetters[..|session.deadLetters| - 1] == old(session.deadLetters);
  }

  /** Handle one record with retries; when that does not succeed, send it to the dead-letter topic.
      No fate means the dead-letter publication failed, as it must once the context has ended. */
  method HandleRecord<S>(session: Session, record: Record, handlerFor: string -> Option<Handler<S>>, s: S,
                         maxAttempts: Int64, suffix: string, trace: Headers, text: Text, now: Time)
    returns (s': S, fate: Option<Fate>)
    modifies session`deadLetters, session.ctx
    ensures fate.Some? ==> RecordStep(handlerFor(record.topic), s, Parsed(record, now, text), AtLeastOne(maxAttempts), s', fate.value)
    ensures handlerFor(record.topic).None? ==> fate == Some(HadNoHandler)
    ensures Letters(session.deadLetters)
         == Letters(old(session.deadLetters)) + Buried(record, fate, Burial(suffix, AtLeastOne(maxAttempts), trace, text, now))
    ensures old(session.ctx.done) ==> session.ctx.done && (handlerFor(record.topic).Some? ==> fate.None?)
  {
    var m := ParseMessage(record, now, text);
    var handler := handlerFor(record.topic);
    if handler.None? {
      return s, Some(HadNoHandler);
    }
    var m', r, attempts;
    s', m', r, attempts := HandleWithRetry(session.ctx, s, m, handler.value, maxAttempts);
    RetriesDecide(handler.value, s, m, AtLeastOne(maxAttempts), s', m', r, attempts);
    hide RecordStep, After, Succeeds;
    if r.Success? {
      return s', Some(WasHandled);
    }
    var cause := if r.Cancelled? then "context canceled" else EXHAUSTED;
    var ok := Bury(session, record.topic, m', suffix, cause, trace, text);
    fate := if ok then Some(WasDeadLettered) else None;
  }

  lemma NoneBuried(record: Record, b: Burial)
    ensures Buried(record, None, b) == []
  {
  }

  function AllBuried(claim: seq<Claimed>, fates: seq<Fate>, b: Burial): seq<Letter>
    requires |fates| <= |claim|
  {
    if fates == [] then []
    else
      var last := |fates| - 1;
      AllBuried(claim, fates[..last], b) + Buried(claim[last].record, Some(fates[last]), b)
  }

  /** The history of a claim whose records met these fates: each is resolved, then marked. */
  function History(claim: seq<Claimed>, fates: seq<Fate>): seq<Event>
    requires |fates| <= |claim|
  {
    if fates == [] then []
    else
      var last := |fates| - 1;
      History(claim, fates[..last]) + [Resolved(claim[last].offset, fates[last])] + [Marked(claim[last].offset)]
  }

  datatype Exit = ClaimClosed | SessionEnded | DeadLetterFailed

  /** How a claim stands with its first `n` records finished: every mark is safe, they are resolved,
      and nothing behind them is resolved or marked. */
  ghost predicate FinishedTo(log: seq<Event>, claim: seq<Claimed>, n: nat) {
    n <= |claim| && MarksAreSafe(log, claim) && AllResolved(log, claim, n) && NothingBeyond(log, claim, n)
  }

  /** A history of that form is safe at every mark. */
  lemma {:induction false} HistoryIsSafe(claim: seq<Claimed>, fates: seq<Fate>)
    requires Ordered(claim) && |fates| <= |claim|
    ensures FinishedTo(History(claim, fates), claim, |fates|)
  {
    if fates != [] {
      var last := |fates| - 1;
      HistoryIsSafe(claim, fates[..last]);
      ResolveThenMark(History(claim, fates[..last]), claim, last, fates[last]);
      NothingBeyondGrows(History(claim, fates[..last]), claim, last, fates[last]);
    }
  }

  /** The finished records took the handlers' state from one to the next. */
  ghost predicate Steps<S>(claim: seq<Claimed>, handlerFor: string -> Option<Handler<S>>, maxAttempts: Int64, text: Text, now: Time,
                           states: seq<S>, fates: seq<Fate>)
  {
    && |fates| <= |claim| && |states| == |fates| + 1
    && forall i :: 0 <= i < |fates| ==>
         RecordStep(handlerFor(claim[i].record.topic), states[i], Parsed(claim[i].record, now, text), maxAttempts, states[i + 1], fates[i])
  }

  lemma StepsGrow<S>(claim: seq<Claimed>, handlerFor: string -> Option<Handler<S>>, maxAttempts: Int64, text: Text, now: Time,
                     states: seq<S>, fates: seq<Fate>, s': S, fate: Fate)
    requires Steps(claim, handlerFor, maxAttempts, text, now, states, fates) && |fates| < |claim|
    requires RecordStep(handlerFor(claim[|fates|].record.topic), states[|fates|], Parsed(claim[|fates|].record, now, text),
                        maxAttempts, s', fate)
    ensures Steps(claim, handlerFor, maxAttempts, text, now, states + [s'], fates + [fate])
  {
  }

  lemma HistoryGrows(claim: seq<Claimed>, fates: seq<Fate>, fate: Fate, b: Burial)
    requires |fates| < |claim|
    ensures History(claim, fates + [fate])
         == History(claim, fates) + [Resolved(claim[|fates|].offset, fate)] + [Marked(claim[|fates|].offset)]
    ensures AllBuried(claim, fates + [fate], b) == AllBuried(claim, fates, b) + Buried(claim[|fates|].record, Some(fate), b)
  {
  }

  ghost predicate NoHandlers<S>(claim: seq<Claimed>, handlerFor: string -> Option<Handler<S>>, n: nat)
    requires n <= |claim|
  {
    forall i :: 0 <= i < n ==> handlerFor(claim[i].record.topic).None?
  }

  lemma NoHandlersGrow<S>(claim: seq<Claimed>, handlerFor: string -> Option<Handler<S>>, n: nat)
    requires n < |claim| && NoHandlers(claim, handlerFor, n) && handlerFor(claim[n].record.topic).None?
    ensures NoHandlers(claim, handlerFor, n + 1)
  {
  }

  /** How a claim stands after these fates: the handlers' states, the history and the dead letters
      are those the fates call for. */
  ghost predicate ConsumedSoFar<S>(claim: seq<Claimed>, handlerFor: string -> Option<Handler<S>>, maxAttempts: Int64, text: Text,
                                   now: Time, b: Burial, before: seq<Letter>, log: seq<Event>, letters: seq<Letter>,
                                   states: seq<S>, fates: seq<Fate>)
  {
    && Steps(claim, handlerFor, maxAttempts, text, now, states, fates)
    && log == History(claim, fates) && letters == before + AllBuried(claim, fates, b)
  }

  lemma NothingConsumed<S>(claim: seq<Claimed>, handlerFor: string -> Option<Handler<S>>, maxAttempts: Int64, text: Text, now: Time,
                           b: Burial, before: seq<Letter>, s: S)
    ensures ConsumedSoFar(claim, handlerFor, maxAttempts, text, now, b, before, [], before, [s], [])
    ensures NoHandlers(claim, handlerFor, 0)
  {
  }

  lemma ConsumedMore<S>(claim: seq<Claimed>, handlerFor: string -> Option<Handler<S>>, maxAttempts: Int64, text: Text, now: Time,
                        b: Burial, before: seq<Letter>, log: seq<Event>, letters: seq<Letter>,
                        states: seq<S>, fates: seq<Fate>, s': S, fate: Fate)
    requires ConsumedSoFar(claim, handlerFor, maxAttempts, text, now, b, before, log, letters, states, fates)
    requires |fates| < |claim| && |states| == |fates| + 1
    requires RecordStep(handlerFor(claim[|fates|].record.topic), states[|fates|], Parsed(claim[|fates|].record, now, text),
                        maxAttempts, s', fate)
    ensures var c := claim[|fates|];
            ConsumedSoFar(claim, handlerFor, maxAttempts, text, now, b, before,
                          log + [Resolved(c.offset, fate)] + [Marked(c.offset)], letters + Buried(c.record, Some(fate), b),
                          states + [s'], fates + [fate])
  {
    StepsGrow(claim, handlerFor, maxAttempts, text, now, states, fates, s', fate);
    HistoryGrows(claim, fates, fate, b);
    hide Steps, History, AllBuried, Buried, RecordStep;
    var letter := Buried(claim[|fates|].record, Some(fate), b);
    assert before + AllBuried(claim, fates, b) + letter == before + (AllBuried(claim, fates, b) + letter);
  }

  /** One turn of the claim loop: a record that meets a fate is resolved and marked. */
  method ConsumeNext<S>(session: Session, claim: seq<Claimed>, handlerFor: string -> Option<Handler<S>>, s: S, n: nat,
                        maxAttempts: Int64, suffix: string, trace: Headers, text: Text, now: Time)
    returns (s': S, fate: Option<Fate>)
    requires Ordered(claim) && n < |claim| && session.nextOffset <= claim[n].offset
    modifies session, session.ctx
    ensures fate.Some? ==>
              RecordStep(handlerFor(claim[n].record.topic), s, Parsed(claim[n].record, now, text), AtLeastOne(maxAttempts), s', fate.value)
    ensures session.log == if fate.Some? then old(session.log) + [Resolved(claim[n].offset, fate.value)] + [Marked(claim[n].offset)]
                           else old(session.log)
    ensures Letters(session.deadLetters) == Letters(old(session.deadLetters))
            + Buried(claim[n].record, fate, Burial(suffix, AtLeastOne(maxAttempts), trace, text, now))
    ensures session.nextOffset == if fate.Some? then claim[n].offset + 1 else old(session.nextOffset)
    ensures handlerFor(claim[n].record.topic).None? ==> fate.Some?
    ensures old(session.ctx.done) ==> session.ctx.done && (handlerFor(claim[n].record.topic).Some? ==> fate.None?)
  {
    hide RecordStep, Parsed, Letters, Buried;
    s', fate := HandleRecord(session, claim[n].record, handlerFor, s, maxAttempts, suffix, trace, text, now);
    if fate.Some? {
      session.Resolve(claim[n].offset, fate.value);
      session.MarkMessage(claim[n].offset);
    }
  }

  lemma ConsumedIsFinished<S>(claim: seq<Claimed>, handlerFor: string -> Option<Handler<S>>, maxAttempts: Int64, text: Text, now: Time,
                              b: Burial, before: seq<Letter>, log: seq<Event>, letters: seq<Letter>,
                              states: seq<S>, fates: seq<Fate>)
    requires Ordered(claim)
    requires ConsumedSoFar(claim, handlerFor, maxAttempts, text, now, b, before, log, letters, states, fates)
    ensures |fates| <= |claim| && FinishedTo(log, claim, |fates|)
  {
    HistoryIsSafe(claim, fates);
  }

  /** The claim loop. Each of the first `n` records is handled in order, with the fate its handler
      gives it, and then marked; the dead-letter topic gets exactly those that were not handled. At
      every mark all records up to it are resolved, and nothing behind them is. A failed or cancelled
      dead-letter publication ends the loop on the spot; once the session has ended only records
      without a handler can still be marked. */
  method ConsumeClaim<S>(session: Session, claim: seq<Claimed>, handlerFor: string -> Option<Handler<S>>, s: S,
                         maxAttempts: Int64, suffix: string, trace: Headers, text: Text, now: Time)
    returns (s': S, exit: Exit, n: nat, ghost fates: seq<Fate>, ghost states: seq<S>)
    requires Ordered(claim) && session.log == []
    requires claim != [] ==> session.nextOffset <= claim[0].offset
    modifies session, session.ctx
    ensures |fates| == n <= |claim| && FinishedTo(session.log, claim, n)
    ensures ConsumedSoFar(claim, handlerFor, AtLeastOne(maxAttempts), text, now,
                          Burial(suffix, AtLeastOne(maxAttempts), trace, text, now), Letters(old(session.deadLetters)),
                          session.log, Letters(session.deadLetters), states, fates)
    ensures |states| == n + 1 && states[0] == s && (exit.DeadLetterFailed? || s' == states[n])
    ensures session.nextOffset == if n == 0 then old(session.nextOffset) else claim[n - 1].offset + 1
    ensures exit.DeadLetterFailed? ==> n < |claim| && handlerFor(claim[n].record.topic).Some?
    ensures old(session.ctx.done) ==> NoHandlers(claim, handlerFor, n)
  {
    hide NoHandlers, ConsumedSoFar, FinishedTo, RecordStep, Letters, Parsed, AtLeastOne, Buried;
    s', n, fates, states := s, 0, [], [s];
    exit := ClaimClosed;
    ghost var limit, before := AtLeastOne(maxAttempts), Letters(session.deadLetters);
    ghost var b := Burial(suffix, limit, trace, text, now);
    NothingConsumed(claim, handlerFor, limit, text, now, b, before, s);
    while true
      invariant |fates| == n <= |claim| && |states| == n + 1 && states[0] == s && states[n] == s'
      invariant ConsumedSoFar(claim, handlerFor, limit, text, now, b, before, session.log, Letters(session.deadLetters), states, fates)
      invariant session.nextOffset == if n == 0 then old(session.nextOffset) else claim[n - 1].offset + 1
      invariant old(session.ctx.done) ==> session.ctx.done && NoHandlers(claim, handlerFor, n)
      decreases |claim| - n
    {
      var choice := session.Select(n < |claim|);
      if !choice.NextRecord? {
        exit := if choice.ContextEnded? then SessionEnded else ClaimClosed;
        break;
      }
      ghost var log, letters := session.log, Letters(session.deadLetters);
      var fate;
      s', fate := ConsumeNext(session, claim, handlerFor, s', n, maxAttempts, suffix, trace, text, now);
      if fate.None? {
        NoneBuried(claim[n].record, b);
        assert letters + [] == letters;
        exit := DeadLetterFailed;
        break;
      }
      if old(session.ctx.done) {
        NoHandlersGrow(claim, handlerFor, n);
      }
      ConsumedMore(claim, handlerFor, limit, text, now, b, before, log, letters, states, fates, s', fate.value);
      fates, states := fates + [fate.value], states + [s'];
      n := n + 1;
    }
    ConsumedIsFinished(claim, handlerFor, limit, text, now, b, before, session.log, Letters(session.deadLetters), states, fates);
  }
}
