/** The RabbitMQ consumer method on copies as they are on the wire, with their headers, shown to
    be a run of the delivery protocol. */
module RabbitConsumer {
  import opened Wrappers
  import opened DeliveryHeaders
  import opened RabbitDelivery

  /** A copy on the wire. */
  datatype Wire = Wire(message: MessageId, payload: string, headers: Headers, place: Place)

  type Queues = map<nat, Wire>

  function AsCopy(w: Wire): Copy {
    Copy(w.message, DeliveryAttempt(w.headers), w.place)
  }

  ghost function AsCopies(q: Queues): map<nat, Copy> {
    map k | k in q :: AsCopy(q[k])
  }

  class Channel {
    const maxAttempts: Int64
    const acknowledges: bool    // acknowledging and requeueing never fail
    const confirms: bool        // publishing never fails
    var queues: Queues
    var nextKey: nat

    ghost predicate Valid()
      reads this
    {
      maxAttempts >= 1 && forall k :: k in queues ==> k < nextKey
    }

    constructor (maxAttempts: Int64, acknowledges: bool, confirms: bool)
      requires maxAttempts >= 1
      ensures Valid() && queues == map[] && this.maxAttempts == maxAttempts
      ensures this.acknowledges == acknowledges && this.confirms == confirms
    {
      this.maxAttempts, this.acknowledges, this.confirms := maxAttempts, acknowledges, confirms;
      queues, nextKey := map[], 0;
    }

    /** Acknowledging may fail; the copy then stays unacknowledged. */
    method Ack(k: nat) returns (ok: bool)
      requires Valid()
      modifies `queues
      ensures Valid() && queues == if ok then old(queues) - {k} else old(queues)
      ensures acknowledges ==> ok
    {
      ok := *;
      ok := ok || acknowledges;
      if ok {
        queues := queues - {k};
      }
    }

    /** Requeueing puts the copy back into the main queue, headers and all; it may fail too. */
    method Nack(k: nat) returns (ok: bool)
      requires Valid() && k in queues
      modifies `queues
      ensures Valid() && queues == if ok then old(queues)[k := old(queues)[k].(place := Main)] else old(queues)
      ensures acknowledges ==> ok
    {
      ok := *;
      ok := ok || acknowledges;
      if ok {
        queues := queues[k := queues[k].(place := Main)];
      }
    }

    /** A confirmed publication: success means a copy is in the target queue; after an error a
        copy may be there all the same. */
    method PublishConfirmed(w: Wire) returns (ok: bool, key: nat, ghost took: bool)
      requires Valid()
      modifies this
      ensures Valid() && key !in old(queues)
      ensures ok ==> took
      ensures confirms ==> ok
      ensures queues == if took then old(queues)[key := w] else old(queues)
    {
      ok := *;
      ok := ok || confirms;
      var arrived: bool := *;
      key := nextKey;
      if ok || arrived {
        queues := queues[key := w];
        nextKey := nextKey + 1;
      }
      took := ok || arrived;
    }
  }

  ghost predicate InState(ch: Channel, s: State)
    reads ch
  {
    ch.Valid() && s.maxAttempts == ch.maxAttempts && s.copies == AsCopies(ch.queues)
  }

  /** The forwarded copy as the consumer writes it. */
  function ForwardedWire(w: Wire, maxAttempts: Int64): Wire
    requires maxAttempts >= 1
  {
    var delivered := DeliveredHeaders(w.headers, maxAttempts);
    var attempt := DeliveryAttempt(delivered);
    if attempt >= maxAttempts
    then w.(headers := WithAttempt(delivered, attempt, maxAttempts), place := Dead)
    else w.(headers := WithAttempt(delivered, attempt + 1, maxAttempts), place := Retry)
  }

  /** The headers written count exactly as the protocol counts. */
  lemma HeadersCarryTheAttempt(w: Wire, maxAttempts: Int64)
    requires maxAttempts >= 1
    ensures AsCopy(ForwardedWire(w, maxAttempts)) == ForwardedCopy(AsCopy(w), maxAttempts)
    ensures ForwardedWire(w, maxAttempts).payload == w.payload
    ensures var before, after, attempt := w.headers, ForwardedWire(w, maxAttempts).headers, DeliveryAttempt(w.headers);
            && (forall key :: key != ATTEMPT_HEADER && key != MAX_ATTEMPTS_HEADER ==>
                  (key in after <==> key in before) && (key in before ==> after[key] == before[key]))
            && after[ATTEMPT_HEADER] == Itoa(if attempt >= maxAttempts then attempt else attempt + 1)
            && after[MAX_ATTEMPTS_HEADER] == Itoa(maxAttempts)
  {
    var delivered := DeliveredHeaders(w.headers, maxAttempts);
    var attempt := DeliveryAttempt(w.headers);
    WorkerAndConsumerAgreeOnLastDelivery(w.headers, maxAttempts);
    FinalDeliveryMeaning(delivered, attempt, maxAttempts);
    if attempt < maxAttempts {
      FinalDeliveryMeaning(delivered, attempt + 1, maxAttempts);
    }
  }

  lemma RunOfOne(s: State, a: Action)
    requires Enabled(s, a)
    ensures Run(s, [a]) == Some(Next(s, a))
  {
  }

  lemma AsCopiesUpdate(q: Queues, k: nat, w: Wire)
    ensures AsCopies(q[k := w]) == AsCopies(q)[k := AsCopy(w)]
  {
  }

  method FinishAck(ch: Channel, k: nat, ghost s: State, ghost done: seq<Action>, ghost reached: State)
    returns (ghost run: seq<Action>, ghost s': State)
    requires Run(s, done) == Some(reached) && InState(ch, reached) && done != []
    requires Enabled(reached, Acknowledge(k))
    modifies ch
    ensures Run(s, run) == Some(s') && InState(ch, s') && done <= run
    ensures s'.handled == reached.handled
    ensures ch.queues == old(ch.queues) - {k} || (!ch.acknowledges && ch.queues == old(ch.queues))
  {
    run, s' := done, reached;
    var acked := ch.Ack(k);
    if acked {
      RunAppends(s, run, Acknowledge(k));
      run, s' := run + [Acknowledge(k)], Next(s', Acknowledge(k));
      assert s'.copies == AsCopies(ch.queues);
    }
  }

  method FinishNack(ch: Channel, k: nat, ghost s: State, ghost done: seq<Action>, ghost reached: State)
    returns (ghost run: seq<Action>, ghost s': State)
    requires Run(s, done) == Some(reached) && InState(ch, reached) && done != []
    requires Enabled(reached, Requeue(k))
    modifies ch
    ensures Run(s, run) == Some(s') && InState(ch, s') && done <= run
    ensures s'.handled == reached.handled
    ensures k in old(ch.queues)
    ensures ch.queues == old(ch.queues)[k := old(ch.queues)[k].(place := Main)]
            || (!ch.acknowledges && ch.queues == old(ch.queues))
  {
    run, s' := done, reached;
    var requeued := ch.Nack(k);
    if requeued {
      RunAppends(s, run, Requeue(k));
      run, s' := run + [Requeue(k)], Next(s', Requeue(k));
      assert s'.copies == AsCopies(ch.queues);
    }
  }

  ghost function ForwardAction(k: nat, key: nat, ok: bool, took: bool): Action {
    if ok then Forward(k, key) else ForwardFails(k, key, took)
  }

  /** The queues after the broker's answer to a forward. */
  ghost function AfterForward(q: Queues, k: nat, key: nat, ok: bool, took: bool, maxAttempts: Int64): Queues
    requires k in q && maxAttempts >= 1
  {
    var published := if took then q[key := ForwardedWire(q[k], maxAttempts)] else q;
    published[k := q[k].(place := Unacked(if ok then Forwarded else NackDue))]
  }

  lemma ForwardOnCopies(s: State, k: nat, key: nat, ok: bool, took: bool)
    requires In(s, k, Unacked(Failed)) && key !in s.copies && (ok ==> took)
    ensures Enabled(s, ForwardAction(k, key, ok, took))
    ensures var forwarded := ForwardedCopy(s.copies[k], s.maxAttempts);
            Next(s, ForwardAction(k, key, ok, took)).copies
            == (if took then s.copies[key := forwarded] else s.copies)
               [k := s.copies[k].(place := Unacked(if ok then Forwarded else NackDue))]
  {
  }

  lemma AsCopiesTwice(q: Queues, k: nat, w: Wire, key: nat, forwarded: Wire, took: bool)
    ensures AsCopies((if took then q[key := forwarded] else q)[k := w])
            == (if took then AsCopies(q)[key := AsCopy(forwarded)] else AsCopies(q))[k := AsCopy(w)]
  {
  }

  lemma ForwardIsAStep(s: State, q: Queues, k: nat, key: nat, ok: bool, took: bool, maxAttempts: Int64)
    requires s.copies == AsCopies(q) && s.maxAttempts == maxAttempts >= 1
    requires In(s, k, Unacked(Failed)) && key !in q && (ok ==> took)
    ensures Enabled(s, ForwardAction(k, key, ok, took))
    ensures var next := Next(s, ForwardAction(k, key, ok, took));
            && next.copies == AsCopies(AfterForward(q, k, key, ok, took, maxAttempts))
            && next.maxAttempts == s.maxAttempts && next.handled == s.handled
            && Enabled(next, if ok then Acknowledge(k) else Requeue(k))
  {
    HeadersCarryTheAttempt(q[k], maxAttempts);
    ForwardOnCopies(s, k, key, ok, took);
    AsCopiesTwice(q, k, q[k].(place := Unacked(if ok then Forwarded else NackDue)), key, ForwardedWire(q[k], maxAttempts), took);
  }

  /** The delivery is gone and its forwarded copy is in the queue that is its due. */
  ghost predicate HandedOn(before: Queues, after: Queues, k: nat, key: nat, maxAttempts: Int64)
    requires maxAttempts >= 1
  {
    k in before && key !in before && after == before[key := ForwardedWire(before[k], maxAttempts)] - {k}
  }

  /** The delivery is back in the main queue as it came; a copy may have been forwarded as well. */
  ghost predicate GivenBack(before: Queues, after: Queues, k: nat, key: nat, took: bool, maxAttempts: Int64)
    requires maxAttempts >= 1
  {
    && k in before && key !in before
    && after == (if took then before[key := ForwardedWire(before[k], maxAttempts)] else before)[k := before[k].(place := Main)]
  }

  ghost predicate Settled(before: Queues, after: Queues, k: nat, maxAttempts: Int64, confirmed: bool)
    requires maxAttempts >= 1
  {
    || (exists key :: HandedOn(before, after, k, key, maxAttempts))
    || (!confirmed && exists key, took :: GivenBack(before, after, k, key, took, maxAttempts))
  }

  lemma SettledBy(before: Queues, after: Queues, k: nat, key: nat, ok: bool, took: bool, maxAttempts: Int64, confirmed: bool)
    requires maxAttempts >= 1 && k in before && key !in before && (ok ==> took) && (confirmed ==> ok)
    requires var mid := AfterForward(before, k, key, ok, took, maxAttempts);
             after == if ok then mid - {k} else mid[k := before[k].(place := Main)]
    ensures Settled(before, after, k, maxAttempts, confirmed)
  {
    hide ForwardedWire;
    if ok {
      assert after == before[key := ForwardedWire(before[k], maxAttempts)] - {k};
      assert HandedOn(before, after, k, key, maxAttempts);
    } else {
      assert GivenBack(before, after, k, key, took, maxAttempts);
    }
  }

  lemma WireForgetsThePlace(w: Wire, place: Place, maxAttempts: Int64)
    requires maxAttempts >= 1
    ensures ForwardedWire(w.(place := place), maxAttempts) == ForwardedWire(w, maxAttempts)
  {
  }

  lemma PhaseDoesNotMatter(before: Queues, after: Queues, k: nat, place: Place, maxAttempts: Int64, confirmed: bool)
    requires maxAttempts >= 1 && k in before
    requires Settled(before[k := before[k].(place := place)], after, k, maxAttempts, confirmed)
    ensures Settled(before, after, k, maxAttempts, confirmed)
  {
    hide ForwardedWire;
    assert ForwardedWire(before[k].(place := place), maxAttempts) == ForwardedWire(before[k], maxAttempts) by {
      WireForgetsThePlace(before[k], place, maxAttempts);
    }
    var moved := before[k := before[k].(place := place)];
    if key :| HandedOn(moved, after, k, key, maxAttempts) {
      assert HandedOn(before, after, k, key, maxAttempts);
    } else {
      var key, took :| GivenBack(moved, after, k, key, took, maxAttempts);
      assert GivenBack(before, after, k, key, took, maxAttempts);
    }
  }

  /** Forward a failed delivery and acknowledge it, or requeue it when the forward failed. */
  method ForwardFailed(ch: Channel, k: nat, ghost s: State, ghost done: seq<Action>, ghost reached: State)
    returns (ghost run: seq<Action>, ghost s': State)
    requires Run(s, done) == Some(reached) && InState(ch, reached) && done != []
    requires In(reached, k, Unacked(Failed))
    modifies ch
    ensures Run(s, run) == Some(s') && InState(ch, s') && done <= run
    ensures s'.handled == reached.handled
    ensures ch.acknowledges ==> Settled(old(ch.queues), ch.queues, k, ch.maxAttempts, ch.confirms)
  {
    hide Run, Enabled, Next, ForwardedWire, Settled, HandedOn, GivenBack;
    var w := ch.queues[k];
    ghost var before := ch.queues;
    var ok, key, took := ch.PublishConfirmed(ForwardedWire(w, ch.maxAttempts));
    assert k in ch.queues && forall other :: other in ch.queues ==> other < ch.nextKey;
    ch.queues := ch.queues[k := w.(place := Unacked(if ok then Forwarded else NackDue))];
    assert ch.Valid();
    assert ch.queues == AfterForward(before, k, key, ok, took, ch.maxAttempts);
    ForwardIsAStep(reached, before, k, key, ok, took, ch.maxAttempts);
    ghost var act := ForwardAction(k, key, ok, took);
    RunAppends(s, done, act);
    ghost var next := Next(reached, act);
    if ok {
      run, s' := FinishAck(ch, k, s, done + [act], next);
      if ch.acknowledges {
        SettledBy(before, ch.queues, k, key, ok, took, ch.maxAttempts, ch.confirms);
      }
    } else {
      run, s' := FinishNack(ch, k, s, done + [act], next);
      if ch.acknowledges {
        SettledBy(before, ch.queues, k, key, ok, took, ch.maxAttempts, ch.confirms);
      }
    }
  }

  /** Handle one delivery: acknowledge it when the handler succeeded, else forward it. The phase a
      delivery is left in is history; the broker only knows it as unacknowledged. */
  method HandleDelivery(ch: Channel, k: nat, ghost s: State)
    returns (handlerOk: bool, ghost run: seq<Action>, ghost s': State)
    requires InState(ch, s) && In(s, k, Unacked(Running))
    modifies ch
    ensures Run(s, run) == Some(s') && InState(ch, s')
    ensures [HandlerReturns(k, handlerOk)] <= run
    ensures handlerOk && ch.acknowledges ==> ch.queues == old(ch.queues) - {k}
    ensures !handlerOk && ch.acknowledges ==> Settled(old(ch.queues), ch.queues, k, ch.maxAttempts, ch.confirms)
    ensures s'.handled == if handlerOk then s.handled + {s.copies[k].message} else s.handled
  {
    var w := ch.queues[k];
    ghost var before := ch.queues;
    handlerOk := *;
    ghost var act := HandlerReturns(k, handlerOk);
    RunOfOne(s, act);
    ghost var next := Next(s, act);
    AsCopiesUpdate(ch.queues, k, w.(place := Unacked(if handlerOk then Handled else Failed)));
    ch.queues := ch.queues[k := w.(place := Unacked(if handlerOk then Handled else Failed))];
    if handlerOk {
      run, s' := FinishAck(ch, k, s, [act], next);
    } else {
      run, s' := ForwardFailed(ch, k, s, [act], next);
      if ch.acknowledges {
        PhaseDoesNotMatter(before, ch.queues, k, Unacked(Failed), ch.maxAttempts, ch.confirms);
      }
    }
  }
}
