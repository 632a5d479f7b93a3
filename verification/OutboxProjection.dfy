/** The outbox as the avatar protocol sees it. The protocol keeps of an event only which avatar it is
    for, whether the broker has taken it and whether it is marked published; every step of the outbox
    is, on those, a step of the protocol or none. */
module OutboxProjection {
  import opened Wrappers
  import Outbox
  import Protocol

  /** Which avatar an event is for, as its payload says. */
  type Reader = Outbox.Contents -> nat

  function Seen(s: Outbox.State, avatarOf: Reader): map<nat, Protocol.Event> {
    map id | id in s.rows ::
      Protocol.Event(avatarOf(s.rows[id].contents), (id, s.rows[id].contents) in s.accepted, s.rows[id].publishedAt.Some?)
  }

  /** What the protocol sees of a step; `c` is the use case that saves, `k` a new copy in the broker. */
  function Image(act: Outbox.Action, c: nat, k: nat): Option<Protocol.Action> {
    match act
    case Save(_, id, _, _) => Some(Protocol.SaveEvent(c, id))
    case Publish(task) => Some(Protocol.BrokerAccepts(task.id, k))
    case PublishFails(task, brokerTookIt) => if brokerTookIt then Some(Protocol.BrokerAccepts(task.id, k)) else None
    case MarkPublished(task) => Some(Protocol.MarkPublished(task.id))
    case _ => None
  }

  ghost predicate AcceptedWereSaved(s: Outbox.State) {
    forall a :: a in s.accepted ==> a.0 in s.saved
  }

  ghost predicate Sound(s: Outbox.State) {
    Outbox.Intact(s) && AcceptedWereSaved(s)
  }

  lemma StepKeepsSound(s: Outbox.State, act: Outbox.Action)
    requires Sound(s) && Outbox.Enabled(s, act)
    ensures Sound(Outbox.Next(s, act))
  {
    Outbox.StepKeepsIntact(s, act);
    hide Outbox.Lease, Outbox.ClaimedTasks;
    assert AcceptedWereSaved(Outbox.Next(s, act));
  }

  lemma {:induction false} RunKeepsSound(leaseLimit: int, run: seq<Outbox.Action>)
    requires Outbox.Run(Outbox.Init(leaseLimit), run).Some?
    ensures Sound(Outbox.Run(Outbox.Init(leaseLimit), run).value)
  {
    if run != [] {
      RunKeepsSound(leaseLimit, run[..|run| - 1]);
      StepKeepsSound(Outbox.Run(Outbox.Init(leaseLimit), run[..|run| - 1]).value, run[|run| - 1]);
    }
  }

  lemma SaveProjects(s: Outbox.State, act: Outbox.Action, avatarOf: Reader)
    requires Sound(s) && Outbox.Enabled(s, act) && act.Save?
    ensures Seen(Outbox.Next(s, act), avatarOf)
         == Seen(s, avatarOf)[act.id := Protocol.Event(avatarOf(act.contents), false, false)]
  {
  }

  lemma AcceptanceProjects(s: Outbox.State, act: Outbox.Action, avatarOf: Reader)
    requires Sound(s) && Outbox.Enabled(s, act) && (act.Publish? || (act.PublishFails? && act.brokerTookIt))
    ensures act.task.id in s.rows
    ensures Seen(Outbox.Next(s, act), avatarOf)
         == Seen(s, avatarOf)[act.task.id := Seen(s, avatarOf)[act.task.id].(accepted := true)]
  {
  }

  lemma MarkProjects(s: Outbox.State, act: Outbox.Action, avatarOf: Reader)
    requires Sound(s) && Outbox.Enabled(s, act) && act.MarkPublished?
    ensures act.task.id in s.rows && Seen(s, avatarOf)[act.task.id].accepted
    ensures Seen(Outbox.Next(s, act), avatarOf)
         == Seen(s, avatarOf)[act.task.id := Seen(s, avatarOf)[act.task.id].(published := true)]
  {
  }

  lemma OthersProjectToNothing(s: Outbox.State, act: Outbox.Action, avatarOf: Reader)
    requires Outbox.Enabled(s, act) && Image(act, 0, 0).None?
    ensures Seen(Outbox.Next(s, act), avatarOf) == Seen(s, avatarOf)
  {
  }

  lemma ProtocolSaves(p: Protocol.State, c: nat, e: nat, a: nat)
    requires c in p.cases && p.cases[c] == Protocol.Owing(a) && e !in p.events
    ensures Protocol.Enabled(p, Protocol.SaveEvent(c, e))
    ensures Protocol.Next(p, Protocol.SaveEvent(c, e)).events == p.events[e := Protocol.Event(a, false, false)]
  {
  }

  lemma ProtocolAccepts(p: Protocol.State, e: nat, k: nat)
    requires e in p.events && k !in p.copies
    ensures Protocol.Enabled(p, Protocol.BrokerAccepts(e, k))
    ensures Protocol.Next(p, Protocol.BrokerAccepts(e, k)).events == p.events[e := p.events[e].(accepted := true)]
  {
  }

  lemma ProtocolMarks(p: Protocol.State, e: nat)
    requires e in p.events && p.events[e].accepted
    ensures Protocol.Enabled(p, Protocol.MarkPublished(e))
    ensures Protocol.Next(p, Protocol.MarkPublished(e)).events == p.events[e := p.events[e].(published := true)]
  {
  }

  /** A step of the outbox is one the protocol allows on what it sees, with the same effect there, or
      changes nothing the protocol sees. */
  lemma StepProjects(s: Outbox.State, act: Outbox.Action, p: Protocol.State, c: nat, k: nat, avatarOf: Reader)
    requires Sound(s) && Outbox.Enabled(s, act) && p.events == Seen(s, avatarOf) && k !in p.copies
    requires act.Save? ==> c in p.cases && p.cases[c] == Protocol.Owing(avatarOf(act.contents))
    ensures match Image(act, c, k)
            case Some(image) => Protocol.Enabled(p, image) && Protocol.Next(p, image).events == Seen(Outbox.Next(s, act), avatarOf)
            case None => Seen(Outbox.Next(s, act), avatarOf) == p.events
  {
    hide Outbox.Next, Outbox.Intact, AcceptedWereSaved, Protocol.Next, Protocol.Enabled;
    match act
    case Save(_, id, contents, _) =>
      SaveProjects(s, act, avatarOf);
      ProtocolSaves(p, c, id, avatarOf(contents));
    case Publish(task) =>
      AcceptanceProjects(s, act, avatarOf);
      ProtocolAccepts(p, task.id, k);
    case PublishFails(task, brokerTookIt) =>
      if brokerTookIt {
        AcceptanceProjects(s, act, avatarOf);
        ProtocolAccepts(p, task.id, k);
      } else {
        OthersProjectToNothing(s, act, avatarOf);
      }
    case MarkPublished(task) =>
      MarkProjects(s, act, avatarOf);
      ProtocolMarks(p, task.id);
    case _ => OthersProjectToNothing(s, act, avatarOf);
  }

  /** So it is in every state the outbox can reach. */
  lemma OutboxStepsAreProtocolSteps(leaseLimit: int, run: seq<Outbox.Action>, s: Outbox.State, act: Outbox.Action,
                                    p: Protocol.State, c: nat, k: nat, avatarOf: Reader)
    requires Outbox.Run(Outbox.Init(leaseLimit), run) == Some(s) && Outbox.Enabled(s, act)
    requires p.events == Seen(s, avatarOf) && k !in p.copies
    requires act.Save? ==> c in p.cases && p.cases[c] == Protocol.Owing(avatarOf(act.contents))
    ensures match Image(act, c, k)
            case Some(image) => Protocol.Enabled(p, image) && Protocol.Next(p, image).events == Seen(Outbox.Next(s, act), avatarOf)
            case None => Seen(Outbox.Next(s, act), avatarOf) == p.events
  {
    RunKeepsSound(leaseLimit, run);
    hide *;
    StepProjects(s, act, p, c, k, avatarOf);
  }
}
