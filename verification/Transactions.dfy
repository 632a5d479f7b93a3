/** Running a callback in a transaction, with a bounded number of tries: the reason why the other
    modules may take one whole transaction as one step. */
module Transactions {
  import opened Resilience

  /** How a callback ends on the state its transaction sees. */
  datatype Callback<S> = Succeeds(after: S) | Fails(retryable: bool)

  /** What becomes of the statements around a callback that succeeds. A commit can fail after the
      server applied it, but an error that counts as safe to retry never hides that. */
  datatype Fate = BeginFails(retryable: bool) | Commits | CommitFails(retryable: bool, applied: bool) {
    predicate Possible() {
      CommitFails? && retryable ==> !applied
    }
  }

  /** Did the try end with an error that is safe to repeat? */
  predicate Repeatable<S>(answer: Callback<S>, fate: Fate) {
    if fate.BeginFails? then fate.retryable
    else if answer.Fails? then answer.retryable
    else fate.CommitFails? && fate.retryable
  }

  datatype Outcome = Done | GaveUp(lostAnswer: bool) | ContextEnded

  /** Committed work is visible to others; a transaction that does not commit leaves no trace. */
  class Database<S> {
    var committed: S

    constructor (s: S)
      ensures committed == s
    {
      committed := s;
    }

    /** Run the callback in a transaction of its own: as one step, or not at all. Success means it
        was applied exactly once; only an error in which the answer to a commit was lost leaves open
        whether it was. */
    method Do(callback: S -> Callback<S>, fates: nat -> Fate, cancelled: nat -> bool) returns (r: Outcome, tries: nat)
      requires forall i :: fates(i).Possible()
      modifies this
      ensures 1 <= tries <= 3
      ensures r.Done? ==> callback(old(committed)) == Succeeds(committed)
      ensures r == GaveUp(true) ==> callback(old(committed)).Succeeds?
                                    && (committed == old(committed) || callback(old(committed)) == Succeeds(committed))
      ensures r == GaveUp(false) || r.ContextEnded? ==> committed == old(committed)
      ensures r.Done? <==> callback(old(committed)).Succeeds? && fates(tries - 1).Commits?
      ensures forall i :: 0 <= i < tries - 1 ==> !fates(i).Commits? || callback(old(committed)).Fails?
      ensures forall i :: 0 <= i < tries - 1 ==> Repeatable(callback(old(committed)), fates(i)) && !cancelled(i)
      ensures tries < RETRY_MAX_ATTEMPTS && Repeatable(callback(old(committed)), fates(tries - 1)) ==> cancelled(tries - 1)
      ensures r.ContextEnded? <==> tries < RETRY_MAX_ATTEMPTS && Repeatable(callback(old(committed)), fates(tries - 1))
    {
      tries := 0;
      r := ContextEnded;
      while tries < RETRY_MAX_ATTEMPTS
        invariant tries < RETRY_MAX_ATTEMPTS && committed == old(committed) && r.ContextEnded?
        invariant forall i :: 0 <= i < tries ==> !fates(i).Commits? || callback(committed).Fails?
        invariant forall i :: 0 <= i < tries ==> Repeatable(callback(committed), fates(i))
        invariant forall i :: 0 <= i < tries ==> !cancelled(i)
      {
        var fate, again := fates(tries), false;
        tries := tries + 1;
        if fate.BeginFails? {
          r, again := GaveUp(false), fate.retryable;
        } else {
          var answer := callback(committed);
          match answer
          case Fails(retryable) => r, again := GaveUp(false), retryable;
          case Succeeds(after) =>
            match fate {
              case Commits => committed, r := after, Done;
              case CommitFails(retryable, applied) =>
                r, again := GaveUp(!retryable), retryable;
                committed := if applied then after else committed;
            }
        }
        if !again || tries == RETRY_MAX_ATTEMPTS {
          return;
        }
        r := ContextEnded;
        if cancelled(tries - 1) {
          return;
        }
      }
    }
  }

  /** A transaction started inside another one joins it. */
  function Joined<S>(outer: S -> Callback<S>, inner: S -> Callback<S>): S -> Callback<S> {
    (s: S) => match outer(s)
              case Succeeds(after) => inner(after)
              case Fails(retryable) => Fails(retryable)
  }

  /** What was done before a joined transaction that fails is rolled back with it, and the two
      become visible together. */
  method DoJoined<S>(db: Database<S>, outer: S -> Callback<S>, inner: S -> Callback<S>, fates: nat -> Fate, cancelled: nat -> bool)
    returns (r: Outcome)
    requires forall i :: fates(i).Possible()
    modifies db
    ensures r.Done? ==> outer(old(db.committed)).Succeeds? && inner(outer(old(db.committed)).after) == Succeeds(db.committed)
    ensures outer(old(db.committed)).Succeeds? && inner(outer(old(db.committed)).after).Fails? ==> db.committed == old(db.committed)
  {
    var tries;
    r, tries := db.Do(Joined(outer, inner), fates, cancelled);
  }
}
