/**
 internal/store/store.go: copy-on-write commits and their notifications.
 `Offer` is the non-blocking send to a channel of capacity one; it is shared by
 the store itself and by the protocol below, which lets commits, sends,
 subscribers and readers interleave freely.
 */
module Store {
  import opened Model

  /** `select { case ch <- revision: default: }` on a channel of capacity one. */
  function Offer(slot: Option<nat>, revision: nat): Option<nat> {
    if slot.None? then Some(revision) else slot
  }

  /** Why an update did not commit, or that it did. */
  datatype Outcome = CallbackFailed | Unchanged | PersistFailed | Committed

  /** What Update decides before it changes anything. */
  function Decide<T(==)>(state: T, next: Option<T>, persists: bool): Outcome {
    if next.None? then CallbackFailed
    else if next.value == state then Unchanged
    else if !persists then PersistFailed
    else Committed
  }

  // ----- The store object -----

  class Channel {
    var slot: Option<nat>

    constructor ()
      ensures slot == None
    {
      slot := None;
    }
  }

  class Store<T(==)> {
    var state: T
    var revision: nat
    var nextSubscriberId: nat
    var subscribers: map<nat, Channel>

    constructor (initial: T)
      ensures state == initial && revision == 0 && nextSubscriberId == 0 && subscribers == map[]
    {
      state := initial;
      revision := 0;
      nextSubscriberId := 0;
      subscribers := map[];
    }

    /** Every subscriber id has been handed out. */
    ghost predicate Valid()
      reads this
    {
      forall id | id in subscribers :: id <= nextSubscriberId
    }

    /** Runs `fn` on a copy of the state; commits and notifies, or leaves everything as it was. */
    method Update(fn: T -> Option<T>, persists: bool) returns (outcome: Outcome)
      requires Valid()
      modifies this`state, this`revision, subscribers.Values
      ensures Valid()
      ensures outcome == Decide(old(state), fn(old(state)), persists)
      ensures
        var next := fn(old(state));
        && (outcome == CallbackFailed <==> next.None?) && (outcome == Unchanged <==> next == Some(old(state)))
        && (outcome == PersistFailed <==> next.Some? && next.value != old(state) && !persists)
      ensures outcome == Committed ==>
        && Some(state) == fn(old(state)) && state != old(state)
        && revision == old(revision) + 1
        && forall id | id in subscribers ::
             subscribers[id].slot == if old(subscribers[id].slot).None? then Some(revision) else old(subscribers[id].slot)
      ensures outcome != Committed ==>
        && state == old(state) && revision == old(revision)
        && forall id | id in subscribers :: subscribers[id].slot == old(subscribers[id].slot)
    {
      var next := fn(state);
      if next.None? {
        return CallbackFailed;
      }
      if next.value == state {
        return Unchanged;
      }
      if !persists {
        return PersistFailed;
      }
      state := next.value;
      revision := revision + 1;
      var channels := Channels();
      for i := 0 to |channels|
        invariant state == next.value && revision == old(revision) + 1
        invariant forall c | c in subscribers.Values && c in channels[..i] :: c.slot == Offer(old(c.slot), revision)
        invariant forall c | c in subscribers.Values && c !in channels[..i] :: c.slot == old(c.slot)
      {
        assert channels[i] in channels;
        if channels[i].slot == None {
          channels[i].slot := Some(revision);
        }
      }
      assert channels[..|channels|] == channels;
      outcome := Committed;
    }

    /** The channels of all subscribers, in the order the map happens to yield them. */
    method Channels() returns (channels: seq<Channel>)
      ensures forall c :: c in channels <==> c in subscribers.Values
    {
      channels := [];
      var left := subscribers.Keys;
      while left != {}
        invariant left <= subscribers.Keys
        invariant forall id | id in subscribers.Keys - left :: subscribers[id] in channels
        invariant forall c | c in channels :: c in subscribers.Values
      {
        var id :| id in left;
        channels := channels + [subscribers[id]];
        left := left - {id};
      }
    }

    method Subscribe() returns (id: nat, changes: Channel, current: nat)
      requires Valid()
      modifies this`nextSubscriberId, this`subscribers
      ensures Valid()
      ensures id == old(nextSubscriberId) + 1 && id == nextSubscriberId && id !in old(subscribers)
      ensures fresh(changes) && changes.slot == None
      ensures subscribers == old(subscribers)[id := changes] && current == revision
    {
      nextSubscriberId := nextSubscriberId + 1;
      id := nextSubscriberId;
      changes := new Channel();
      subscribers := subscribers[id := changes];
      current := revision;
    }

    method Cancel(id: nat)
      requires Valid()
      modifies this`subscribers
      ensures Valid() && subscribers == old(subscribers) - {id}
    {
      subscribers := subscribers - {id};
    }
  }

  // ----- Concurrent commits, sends and readers -----

  type Id = nat

  /** A subscriber's channel and what its owner last read; `signalled` between a receive and the read after it. */
  datatype Subscriber<T> = Subscriber(slot: Option<nat>, seenRevision: nat, seenState: T, signalled: bool)

  /** A committer that has released the lock and still has sends to do. */
  datatype Sender = Sender(revision: nat, pending: set<Id>)

  datatype System<T> = System(
    state: T,
    revision: nat,
    registered: set<Id>,
    subscribers: map<Id, Subscriber<T>>,
    senders: map<Id, Sender>)

  datatype Step<T> =
    | Update(committer: Id, next: Option<T>, persists: bool)
    | Send(committer: Id, to: Id)
    | Subscribe(subscriber: Id)
    | Cancel(subscriber: Id)
    | Receive(subscriber: Id)
    | Read(subscriber: Id)

  predicate Enabled<T>(s: System<T>, step: Step<T>) {
    match step
    case Update(committer, _, _) => committer !in s.senders
    case Send(committer, to) => committer in s.senders && to in s.senders[committer].pending && to in s.subscribers
    case Subscribe(subscriber) => subscriber !in s.subscribers
    case Cancel(subscriber) => subscriber in s.registered
    case Receive(subscriber) =>
      subscriber in s.subscribers && s.subscribers[subscriber].slot.Some? && !s.subscribers[subscriber].signalled
    case Read(subscriber) => subscriber in s.subscribers && s.subscribers[subscriber].signalled
  }

  /** One atomic step; an update holds the lock from the copy to the list of channels it will send to. */
  function Next<T(==)>(s: System<T>, step: Step<T>): System<T>
    requires Enabled(s, step)
  {
    match step
    case Update(committer, next, persists) =>
      if Decide(s.state, next, persists) == Committed then
        s.(state := next.value, revision := s.revision + 1,
           senders := if s.registered == {} then s.senders
                      else s.senders[committer := Sender(s.revision + 1, s.registered)])
      else s
    case Send(committer, to) =>
      var sender := s.senders[committer];
      var subscriber := s.subscribers[to];
      s.(subscribers := s.subscribers[to := subscriber.(slot := Offer(subscriber.slot, sender.revision))],
         senders := if sender.pending == {to} then s.senders - {committer}
                    else s.senders[committer := sender.(pending := sender.pending - {to})])
    case Subscribe(subscriber) =>
      s.(registered := s.registered + {subscriber},
         subscribers := s.subscribers[subscriber := Subscriber(None, s.revision, s.state, false)])
    case Cancel(subscriber) => s.(registered := s.registered - {subscriber})
    case Receive(subscriber) =>
      s.(subscribers := s.subscribers[subscriber := s.subscribers[subscriber].(slot := None, signalled := true)])
    case Read(subscriber) =>
      s.(subscribers := s.subscribers[subscriber :=
           s.subscribers[subscriber].(seenRevision := s.revision, seenState := s.state, signalled := false)])
  }

  ghost predicate Legal<T>(s: System<T>, steps: seq<Step<T>>)
    decreases |steps|
  {
    steps == [] || (Enabled(s, steps[0]) && Legal(Next(s, steps[0]), steps[1..]))
  }

  ghost function Run<T>(s: System<T>, steps: seq<Step<T>>): System<T>
    requires Legal(s, steps)
    decreases |steps|
  {
    if steps == [] then s else Run(Next(s, steps[0]), steps[1..])
  }

  function Initial<T>(state: T): System<T> {
    System(state, 0, {}, map[], map[])
  }

  /** Some wake-up is still on its way to the subscriber. */
  ghost predicate WakeUpPending<T(!new)>(s: System<T>, id: Id)
    requires id in s.subscribers
  {
    || s.subscribers[id].slot.Some?
    || s.subscribers[id].signalled
    || exists c :: c in s.senders && id in s.senders[c].pending
  }

  /** No wake-up is lost: a registered subscriber that has not seen the committed state has one coming. */
  ghost predicate NoLostWakeUp<T(!new)>(s: System<T>) {
    && s.registered <= s.subscribers.Keys
    && (forall c, id | c in s.senders && id in s.senders[c].pending :: id in s.subscribers)
    && (forall id | id in s.subscribers :: s.subscribers[id].seenRevision <= s.revision)
    && (forall id | id in s.subscribers && s.subscribers[id].seenRevision == s.revision ::
          s.subscribers[id].seenState == s.state)
    && (forall id | id in s.registered && s.subscribers[id].seenRevision < s.revision :: WakeUpPending(s, id))
  }

  lemma NoLostWakeUpStep<T(!new)>(s: System<T>, step: Step<T>)
    requires NoLostWakeUp(s) && Enabled(s, step)
    ensures NoLostWakeUp(Next(s, step))
  {
    var next := Next(s, step);
    forall id | id in next.registered && next.subscribers[id].seenRevision < next.revision
      ensures WakeUpPending(next, id)
    {
      if step.Update? && next != s {
        assert step.committer in next.senders && id in next.senders[step.committer].pending;
      } else if WakeUpPending(s, id) && s.subscribers[id].slot.None? && !s.subscribers[id].signalled {
        var c :| c in s.senders && id in s.senders[c].pending;
        assert (step.Send? && c == step.committer && id == step.to) || (c in next.senders && id in next.senders[c].pending);
      }
    }
  }

  /** In every run no wake-up is ever lost. */
  lemma {:induction false} NoLostWakeUpInRun<T(!new)>(s: System<T>, steps: seq<Step<T>>)
    requires NoLostWakeUp(s) && Legal(s, steps)
    ensures NoLostWakeUp(Run(s, steps))
    decreases |steps|
  {
    if steps != [] {
      NoLostWakeUpStep(s, steps[0]);
      NoLostWakeUpInRun(Next(s, steps[0]), steps[1..]);
    }
  }

  /** Once no send to it is left and a registered subscriber has drained its channel, it has read the committed state. */
  lemma QuietSubscriberIsCurrent<T(!new)>(initial: T, steps: seq<Step<T>>, id: Id)
    requires Legal(Initial(initial), steps)
    ensures
      var s := Run(Initial(initial), steps);
      id in s.registered && id in s.subscribers && s.subscribers[id].slot.None? && !s.subscribers[id].signalled
      && (forall c | c in s.senders :: id !in s.senders[c].pending)
      ==> s.subscribers[id].seenRevision == s.revision && s.subscribers[id].seenState == s.state
  {
    NoLostWakeUpInRun(Initial(initial), steps);
  }

  /** The sends of one committer, in any order, offer its revision once to every channel it listed. */
  lemma {:induction false} SendsOfferToAll<T>(s: System<T>, committer: Id, sends: seq<Step<T>>)
    requires Legal(s, sends) && committer in s.senders
    requires forall step | step in sends :: step.Send? && step.committer == committer
    requires committer !in Run(s, sends).senders
    ensures
      var sender := s.senders[committer];
      var end := Run(s, sends);
      && end.state == s.state && end.revision == s.revision && end.subscribers.Keys == s.subscribers.Keys
      && forall id | id in s.subscribers ::
           end.subscribers[id] ==
             if id in sender.pending
             then s.subscribers[id].(slot := Offer(s.subscribers[id].slot, sender.revision))
             else s.subscribers[id]
    decreases |sends|
  {
    assert sends[0] in sends;
    assert |sends| > 1 ==> sends[1] in sends;
    var next := Next(s, sends[0]);
    if committer in next.senders {
      SendsOfferToAll(next, committer, sends[1..]);
    }
  }

  /** The revision counts the commits of a run, and nothing else moves it. */
  ghost function Commits<T>(s: System<T>, steps: seq<Step<T>>): nat
    requires Legal(s, steps)
    decreases |steps|
  {
    if steps == [] then 0
    else
      var step := steps[0];
      (if step.Update? && Decide(s.state, step.next, step.persists) == Committed then 1 else 0)
      + Commits(Next(s, step), steps[1..])
  }

  lemma {:induction false} RevisionCountsCommits<T>(s: System<T>, steps: seq<Step<T>>)
    requires Legal(s, steps)
    ensures Run(s, steps).revision == s.revision + Commits(s, steps)
    ensures Commits(s, steps) == 0 ==> Run(s, steps).state == s.state
    decreases |steps|
  {
    if steps != [] {
      RevisionCountsCommits(Next(s, steps[0]), steps[1..]);
    }
  }
}
