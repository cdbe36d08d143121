/**
 The event hub of internal/events/hub.go: bounded queues that drop when full.  Every hub method runs under one mutex
 and a channel operation is atomic, so an execution is an interleaving of the operations below.
*/
module Hub {
  import opened Basics

  // ---------------------------------------------------------------- the protocol as atomic steps

  /** A buffered channel; `received` is what its reader has taken so far. */
  datatype Chan<+E> = Chan(cap: nat, buffer: seq<E>, closed: bool, received: seq<E>)

  /** Every channel ever made, by subscriber id (ids count up from 0), and the ids still subscribed. */
  datatype System<+E> = System(channels: seq<Chan<E>>, subscribers: set<nat>)

  datatype Op<+E> = Subscribe(buffer: int) | Unsubscribe(id: nat) | Publish(event: E) | Receive(id: nat)

  function Capacity(buffer: int): nat {
    if buffer < 1 then 1 else buffer
  }

  /** A send with a default branch: the event is queued if there is room and dropped otherwise. */
  function Offer<E>(c: Chan<E>, e: E): Chan<E> {
    if |c.buffer| < c.cap then c.(buffer := c.buffer + [e]) else c
  }

  lemma OfferStaysOpen<E>(c: Chan<E>, e: E)
    ensures Offer(c, e).closed == c.closed
  {
  }

  function Take<E>(c: Chan<E>): Chan<E> {
    if c.buffer == [] then c else c.(buffer := c.buffer[1..], received := c.received + [c.buffer[0]])
  }

  /** One step; None is a panic: a send on a closed channel, or a second close. */
  function Apply<E>(s: System<E>, op: Op<E>): Option<System<E>> {
    match op
    case Subscribe(buffer) =>
      Some(System(s.channels + [Chan(Capacity(buffer), [], false, [])], s.subscribers + {|s.channels|}))
    case Unsubscribe(id) =>
      if id !in s.subscribers || id >= |s.channels| then Some(s)
      else if s.channels[id].closed then None
      else Some(System(s.channels[id := s.channels[id].(closed := true)], s.subscribers - {id}))
    case Publish(e) =>
      if exists id :: 0 <= id < |s.channels| && id in s.subscribers && s.channels[id].closed then None
      else
        Some(s.(channels := seq(|s.channels|, i requires 0 <= i < |s.channels| =>
                                  if i in s.subscribers then Offer(s.channels[i], e) else s.channels[i])))
    case Receive(id) =>
      if id < |s.channels| then Some(s.(channels := s.channels[id := Take(s.channels[id])])) else Some(s)
  }

  function Run<E>(ops: seq<Op<E>>): Option<System<E>> {
    if ops == [] then Some(System([], {}))
    else
      match Run(ops[..|ops| - 1])
      case None => None
      case Some(s) => Apply(s, ops[|ops| - 1])
  }

  /** Exactly the subscribed channels are open. */
  ghost predicate Inv<E>(s: System<E>) {
    && (forall id :: id in s.subscribers ==> id < |s.channels|)
    && (forall id :: 0 <= id < |s.channels| ==> (id in s.subscribers <==> !s.channels[id].closed))
  }

  lemma ApplyKeepsInv<E>(s: System<E>, op: Op<E>)
    requires Inv(s)
    ensures Apply(s, op).Some? && Inv(Apply(s, op).value)
  {
  }

  /** No interleaving sends on a closed channel or closes one twice. */
  lemma {:induction false} NeverPanics<E>(ops: seq<Op<E>>)
    ensures Run(ops).Some? && Inv(Run(ops).value)
  {
    if ops != [] {
      NeverPanics(ops[..|ops| - 1]);
      ApplyKeepsInv(Run(ops[..|ops| - 1]).value, ops[|ops| - 1]);
    }
  }

  /** A subscriber that left: its channel exists and it is not subscribed. */
  ghost predicate Left<E>(s: System<E>, id: nat) {
    id < |s.channels| && id !in s.subscribers
  }

  lemma LeftForGood<E>(s: System<E>, op: Op<E>, id: nat)
    requires Inv(s)
    requires Left(s, id) || (op == Unsubscribe(id) && id < |s.channels|)
    ensures Apply(s, op).Some? && Left(Apply(s, op).value, id)
    ensures Left(s, id) ==> Apply(s, Unsubscribe(id)) == Some(s)
  {
  }

  /** However the run goes on after an unsubscribe, the subscriber stays out and unsubscribing again does nothing. */
  lemma {:induction false} UnsubscribeIsFinal<E>(ops: seq<Op<E>>, id: nat, more: seq<Op<E>>)
    requires Run(ops).Some? && id < |Run(ops).value.channels|
    ensures var s := Run(ops + [Unsubscribe(id)] + more);
      s.Some? && Left(s.value, id) && Apply(s.value, Unsubscribe(id)) == s
    decreases |more|
  {
    hide Inv, Apply, Left;
    var first := ops + [Unsubscribe(id)];
    NeverPanics(ops);
    if more == [] {
      assert first + more == first && first[..|first| - 1] == ops;
      LeftForGood(Run(ops).value, Unsubscribe(id), id);
    } else {
      var n := |more| - 1;
      UnsubscribeIsFinal(ops, id, more[..n]);
      assert (first + more)[..|first + more| - 1] == first + more[..n];
      NeverPanics(first + more[..n]);
      LeftForGood(Run(first + more[..n]).value, more[n], id);
    }
    NeverPanics(first + more);
    LeftForGood(Run(first + more).value, Unsubscribe(id), id);
  }

  // ---------------------------------------------------------------- one subscriber's view

  datatype Act<+E> = Offered(event: E) | Taken

  /** The number of subscriptions made, which is also the next id. */
  function Created<E>(ops: seq<Op<E>>): nat {
    if ops == [] then 0 else Created(ops[..|ops| - 1]) + if ops[|ops| - 1].Subscribe? then 1 else 0
  }

  /** Subscriber `id` exists and has not unsubscribed. */
  predicate Listening<E>(ops: seq<Op<E>>, id: nat) {
    if ops == [] then false
    else
      var front := ops[..|ops| - 1];
      match ops[|ops| - 1]
      case Subscribe(_) => Created(front) == id || Listening(front, id)
      case Unsubscribe(gone) => gone != id && Listening(front, id)
      case _ => Listening(front, id)
  }

  /** What happens to subscriber `id`: events published while it listens, and its own receives. */
  function Acts<E>(ops: seq<Op<E>>, id: nat): seq<Act<E>> {
    if ops == [] then []
    else
      var front := ops[..|ops| - 1];
      var rest := Acts(front, id);
      match ops[|ops| - 1]
      case Publish(e) => if Listening(front, id) then rest + [Offered(e)] else rest
      case Receive(reader) => if reader == id && id < Created(front) then rest + [Taken] else rest
      case _ => rest
  }

  function CapOf<E>(ops: seq<Op<E>>, id: nat): nat {
    if ops == [] then 0
    else
      var front, op := ops[..|ops| - 1], ops[|ops| - 1];
      if op.Subscribe? && Created(front) == id then Capacity(op.buffer) else CapOf(front, id)
  }

  /** A bounded queue on its own: what is waiting, what was taken, and which offers were kept. */
  datatype QueueState<+E> = QueueState(buffer: seq<E>, received: seq<E>, kept: seq<bool>)

  function QueueStep<E>(cap: nat, q: QueueState<E>, act: Act<E>): QueueState<E> {
    match act
    case Offered(e) =>
      if |q.buffer| < cap then q.(buffer := q.buffer + [e], kept := q.kept + [true]) else q.(kept := q.kept + [false])
    case Taken =>
      if q.buffer == [] then q else q.(buffer := q.buffer[1..], received := q.received + [q.buffer[0]])
  }

  function Queue<E>(cap: nat, acts: seq<Act<E>>): (q: QueueState<E>)
    ensures |q.kept| == |Offers(acts)|
  {
    if acts == [] then QueueState([], [], [])
    else QueueStep(cap, Queue(cap, acts[..|acts| - 1]), acts[|acts| - 1])
  }

  /** The events offered, in order. */
  function Offers<E>(acts: seq<Act<E>>): seq<E> {
    if acts == [] then []
    else
      var rest := Offers(acts[..|acts| - 1]);
      if acts[|acts| - 1].Offered? then rest + [acts[|acts| - 1].event] else rest
  }

  lemma QueueSnoc<E>(cap: nat, acts: seq<Act<E>>, act: Act<E>)
    ensures Queue(cap, acts + [act]) == QueueStep(cap, Queue(cap, acts), act)
  {
    hide QueueStep;
    assert (acts + [act])[..|acts|] == acts;
  }

  /** How one more operation changes what is known of a subscriber. */
  lemma OpSnoc<E>(front: seq<Op<E>>, op: Op<E>, id: nat)
    ensures var ops := front + [op];
      && Created(ops) == Created(front) + (if op.Subscribe? then 1 else 0)
      && Listening(ops, id) == (if op.Subscribe? && Created(front) == id then true
                                else if op == Unsubscribe(id) then false
                                else Listening(front, id))
      && CapOf(ops, id) == (if op.Subscribe? && Created(front) == id then Capacity(op.buffer) else CapOf(front, id))
      && Acts(ops, id) == (if op.Publish? && Listening(front, id) then Acts(front, id) + [Offered(op.event)]
                           else if op == Receive(id) && id < Created(front) then Acts(front, id) + [Taken]
                           else Acts(front, id))
  {
    hide Capacity;
    var ops := front + [op];
    assert ops[..|ops| - 1] == front && ops[|ops| - 1] == op;
  }

  /** The system after `ops` shows subscriber `id` the queue of its own acts. */
  ghost predicate ShowsQueue<E>(s: System<E>, ops: seq<Op<E>>, id: nat) {
    && |s.channels| == Created(ops)
    && (id in s.subscribers <==> Listening(ops, id))
    && (id >= Created(ops) ==> Acts(ops, id) == [])
    && (id < Created(ops) ==>
          var q := Queue(CapOf(ops, id), Acts(ops, id));
          s.channels[id] == Chan(CapOf(ops, id), q.buffer, !Listening(ops, id), q.received))
  }

  lemma StepIsQueueStep<E>(s: System<E>, front: seq<Op<E>>, op: Op<E>, id: nat)
    requires Inv(s) && ShowsQueue(s, front, id)
    ensures Apply(s, op).Some? && ShowsQueue(Apply(s, op).value, front + [op], id)
  {
    hide Created, Listening, CapOf, Acts, Queue, Offers, Capacity;
    ApplyKeepsInv(s, op);
    OpSnoc(front, op, id);
    var cap, acts := CapOf(front, id), Acts(front, id);
    match op
    case Subscribe(buffer) => EmptyQueue<E>(Capacity(buffer));
    case Publish(e) => QueueSnoc(cap, acts, Offered(e));
    case Receive(_) => QueueSnoc(cap, acts, Taken);
    case Unsubscribe(_) =>
  }

  lemma EmptyQueue<E>(cap: nat)
    ensures Queue<E>(cap, []) == QueueState([], [], [])
  {
  }

  /** In every interleaving, a subscriber's channel is exactly a bounded queue fed with its own acts. */
  lemma {:induction false} ChannelIsQueue<E>(ops: seq<Op<E>>, id: nat)
    ensures Run(ops).Some? && ShowsQueue(Run(ops).value, ops, id)
  {
    hide Apply, Inv;
    if ops != [] {
      hide ShowsQueue;
      var front, op := ops[..|ops| - 1], ops[|ops| - 1];
      ChannelIsQueue(front, id);
      NeverPanics(front);
      assert front + [op] == ops;
      StepIsQueueStep(Run(front).value, front, op, id);
    }
  }

  // ---------------------------------------------------------------- what a bounded queue delivers

  /** The elements of `s` at the positions marked. */
  function Select<E>(s: seq<E>, marks: seq<bool>): seq<E>
    requires |s| == |marks|
  {
    if s == [] then []
    else
      var n := |s| - 1;
      var rest := Select(s[..n], marks[..n]);
      if marks[n] then rest + [s[n]] else rest
  }

  lemma {:induction false} SelectIsSubsequence<E(!new)>(s: seq<E>, marks: seq<bool>)
    requires |s| == |marks|
    ensures Subsequence(Select(s, marks), s)
  {
    if s != [] {
      SelectIsSubsequence(s[..|s| - 1], marks[..|s| - 1]);
    }
  }

  lemma {:induction false} QueueDelivers<E>(cap: nat, acts: seq<Act<E>>)
    ensures var q := Queue(cap, acts); q.received + q.buffer == Select(Offers(acts), q.kept) && |q.buffer| <= cap
  {
    if acts != [] {
      var front := acts[..|acts| - 1];
      QueueDelivers(cap, front);
      var before, q := Queue(cap, front), Queue(cap, acts);
      match acts[|acts| - 1]
      case Offered(e) =>
        assert Offers(acts)[..|Offers(front)|] == Offers(front);
        assert q.kept[..|before.kept|] == before.kept;
        if |before.buffer| < cap {
          assert q.received + q.buffer == (before.received + before.buffer) + [e];
        }
      case Taken =>
        assert q.received + q.buffer == before.received + before.buffer;
    }
  }

  /**
   For every interleaving: what subscriber `id` has received, followed by what waits in its channel, is the events
   published while it listened with some left out, in order; each was left out because the channel was full.
  */
  lemma DeliveryIsInOrder<E(!new)>(ops: seq<Op<E>>, id: nat)
    requires id < Created(ops)
    ensures Run(ops).Some? && id < |Run(ops).value.channels|
    ensures var c := Run(ops).value.channels[id]; var offers := Offers(Acts(ops, id));
      && c.received + c.buffer == Select(offers, Queue(c.cap, Acts(ops, id)).kept)
      && Subsequence(c.received + c.buffer, offers)
  {
    ChannelIsQueue(ops, id);
    var cap := CapOf(ops, id);
    QueueDelivers(cap, Acts(ops, id));
    SelectIsSubsequence(Offers(Acts(ops, id)), Queue(cap, Acts(ops, id)).kept);
  }

  lemma PublishReaches<E>(s: System<E>, e: E, id: nat)
    requires Inv(s) && id in s.subscribers
    ensures Apply(s, Publish(e)).Some? && |Apply(s, Publish(e)).value.channels| == |s.channels|
    ensures Apply(s, Publish(e)).value.subscribers == s.subscribers
    ensures Apply(s, Publish(e)).value.channels[id] == Offer(s.channels[id], e)
  {
  }

  /** A published event is lost to a listening subscriber exactly when its channel holds `cap` events at that moment. */
  lemma LostOnlyWhenFull<E>(ops: seq<Op<E>>, e: E, id: nat)
    requires id < Created(ops) && Listening(ops, id)
    ensures Run(ops).Some? && id < |Run(ops).value.channels|
    ensures Run(ops + [Publish(e)]).Some? && id < |Run(ops + [Publish(e)]).value.channels|
    ensures var (c, after) := (Run(ops).value.channels[id], Run(ops + [Publish(e)]).value.channels[id]);
      && |c.buffer| <= c.cap
      && after == if |c.buffer| == c.cap then c else c.(buffer := c.buffer + [e])
  {
    hide Acts, Offers, Queue, CapOf, Apply, Inv, Listening;
    ChannelIsQueue(ops, id);
    NeverPanics(ops);
    QueueDelivers(CapOf(ops, id), Acts(ops, id));
    assert (ops + [Publish(e)])[..|ops|] == ops;
    PublishReaches(Run(ops).value, e, id);
  }

  /** A receive takes the oldest waiting event, if any waits. */
  lemma ReceiveTakesOldest<E>(ops: seq<Op<E>>, id: nat)
    requires id < Created(ops)
    ensures Run(ops).Some? && id < |Run(ops).value.channels|
    ensures Run(ops + [Receive(id)]).Some? && id < |Run(ops + [Receive(id)]).value.channels|
    ensures var (c, after) := (Run(ops).value.channels[id], Run(ops + [Receive(id)]).value.channels[id]);
      if c.buffer == [] then after == c
      else after == c.(buffer := c.buffer[1..], received := c.received + [c.buffer[0]])
  {
    hide Inv, Acts, Offers, Queue, CapOf, Listening;
    ChannelIsQueue(ops, id);
    assert (ops + [Receive(id)])[..|ops|] == ops;
  }

  /** The room a subscriber asks for, which is at least one. */
  function Room(buffer: int): nat {
    if buffer > 1 then buffer else 1
  }

  function Publishes<E>(events: seq<E>): seq<Op<E>> {
    if events == [] then [] else Publishes(events[..|events| - 1]) + [Publish(events[|events| - 1])]
  }

  lemma SubscribeMakesRoom<E>(ops: seq<Op<E>>, buffer: int)
    ensures Run(ops).Some? && Run(ops + [Op.Subscribe(buffer)]).Some?
    ensures var later := Run(ops + [Op.Subscribe(buffer)]).value;
      && Created(ops) in later.subscribers && Created(ops) < |later.channels|
      && later.channels[Created(ops)] == Chan(Room(buffer), [], false, [])
  {
    NeverPanics(ops);
    ChannelIsQueue(ops, 0);
    assert (ops + [Op.Subscribe(buffer)])[..|ops|] == ops;
  }

  /** A channel that has kept the first events, as many as it has room for, still does after one more offer. */
  lemma OfferKeepsFirst<E>(room: nat, events: seq<E>, e: E)
    ensures var kept := if |events| <= room then events else events[..room];
      var longer := events + [e];
      Offer(Chan(room, kept, false, []), e)
      == Chan(room, if |longer| <= room then longer else longer[..room], false, [])
  {
    if |events| >= room { assert (events + [e])[..room] == events[..room]; }
    assert |events| == room ==> events[..room] == events;
  }

  /** A new subscriber has the room it asked for: it keeps the first that many events published before it reads. */
  lemma {:induction false} SubscriberHasRoom<E>(ops: seq<Op<E>>, buffer: int, events: seq<E>)
    ensures var later := Run(ops + [Op.Subscribe(buffer)] + Publishes(events));
      && later.Some? && Created(ops) in later.value.subscribers && Created(ops) < |later.value.channels|
      && later.value.channels[Created(ops)]
         == Chan(Room(buffer), if |events| <= Room(buffer) then events else events[..Room(buffer)], false, [])
  {
    hide Inv, Apply, Created, Room, Offer;
    var first := ops + [Op.Subscribe(buffer)];
    if events == [] {
      SubscribeMakesRoom(ops, buffer);
      assert first + Publishes(events) == first;
    } else {
      var n := |events| - 1;
      var front := first + Publishes(events[..n]);
      var longer := first + Publishes(events);
      SubscriberHasRoom(ops, buffer, events[..n]);
      assert longer[..|longer| - 1] == front && longer[|longer| - 1] == Publish(events[n]);
      NeverPanics(front);
      PublishReaches(Run(front).value, events[n], Created(ops));
      OfferKeepsFirst(Room(buffer), events[..n], events[n]);
      assert events == events[..n] + [events[n]];
    }
  }

  /** The reader never falls `cap` events behind: at each offer, fewer than `cap` earlier offers are unreceived. */
  ghost predicate KeepsUp<E>(cap: nat, acts: seq<Act<E>>) {
    forall n :: 0 <= n < |acts| && acts[n].Offered? ==>
      |Offers(acts[..n])| - |Queue(cap, acts[..n]).received| < cap
  }

  lemma {:induction false} QueueLosesNothing<E>(cap: nat, acts: seq<Act<E>>)
    requires KeepsUp(cap, acts)
    ensures var q := Queue(cap, acts); q.received + q.buffer == Offers(acts)
  {
    if acts != [] {
      var n := |acts| - 1;
      var front := acts[..n];
      forall k | 0 <= k < n && front[k].Offered?
        ensures |Offers(front[..k])| - |Queue(cap, front[..k]).received| < cap
      {
        assert front[..k] == acts[..k];
        assert acts[k].Offered?;
      }
      QueueLosesNothing(cap, front);
      var before, q := Queue(cap, front), Queue(cap, acts);
      assert |before.received + before.buffer| == |before.received| + |before.buffer|;
      match acts[n]
      case Offered(e) =>
        assert acts[n].Offered?;
        assert q.received + q.buffer == (before.received + before.buffer) + [e];
      case Taken =>
        assert q.received + q.buffer == before.received + before.buffer;
    }
  }

  /** A subscriber that keeps up loses nothing. */
  lemma NothingLostWhenKeepingUp<E>(ops: seq<Op<E>>, id: nat)
    requires id < Created(ops) && KeepsUp(CapOf(ops, id), Acts(ops, id))
    ensures Run(ops).Some? && id < |Run(ops).value.channels|
    ensures var c := Run(ops).value.channels[id]; c.received + c.buffer == Offers(Acts(ops, id))
  {
    ChannelIsQueue(ops, id);
    QueueLosesNothing(CapOf(ops, id), Acts(ops, id));
  }

  // ---------------------------------------------------------------- the hub object

  /** What a step does to the table of subscribed channels; `next` is the next id. */
  function Effect<E>(table: map<nat, Chan<E>>, next: nat, op: Op<E>): map<nat, Chan<E>> {
    match op
    case Subscribe(buffer) => table[next := Chan(Capacity(buffer), [], false, [])]
    case Unsubscribe(id) => table - {id}
    case Publish(e) => map id | id in table :: Offer(table[id], e)
    case Receive(id) => if id in table then table[id := Take(table[id])] else table
  }

  /** A publish under way: the subscribers in `rest` are still to be offered the event. */
  ghost predicate Offering<E>(was: map<nat, Chan<E>>, table: map<nat, Chan<E>>, rest: set<nat>, e: E) {
    && table.Keys == was.Keys && rest <= table.Keys
    && (forall id :: id in was ==> table[id] == if id in rest then was[id] else Offer(was[id], e))
  }

  lemma OfferNext<E>(was: map<nat, Chan<E>>, table: map<nat, Chan<E>>, rest: set<nat>, e: E, id: nat)
    requires Offering(was, table, rest, e) && id in rest
    ensures id in table && Offering(was, table[id := Offer(table[id], e)], rest - {id}, e)
  {
  }

  lemma OfferedAll<E>(was: map<nat, Chan<E>>, table: map<nat, Chan<E>>, e: E, next: nat)
    requires Offering(was, table, {}, e)
    ensures table == Effect(was, next, Op.Publish(e))
  {
  }

  ghost function Table<E>(s: System<E>): map<nat, Chan<E>>
    requires Inv(s)
  {
    map id | id in s.subscribers :: s.channels[id]
  }

  /** The hub object below and the atomic steps above are one protocol: both change the table by `Effect`. */
  lemma ApplyIsEffect<E>(s: System<E>, op: Op<E>)
    requires Inv(s)
    ensures Apply(s, op).Some? && Inv(Apply(s, op).value)
    ensures Table(Apply(s, op).value) == Effect(Table(s), |s.channels|, op)
  {
    ApplyKeepsInv(s, op);
  }

  class Channel<E> {
    const cap: nat
    var buffer: seq<E>
    var closed: bool
    ghost var received: seq<E>

    constructor (cap: nat)
      ensures View() == Chan(cap, [], false, [])
    {
      this.cap, buffer, closed, received := cap, [], false, [];
    }

    ghost function View(): Chan<E>
      reads this
    {
      Chan(cap, buffer, closed, received)
    }

    /** A select with a send case and an empty default case; sending on a closed channel would panic. */
    method TrySend(e: E)
      requires !closed
      modifies this
      ensures View() == Offer(old(View()), e)
    {
      if |buffer| < cap {
        buffer := buffer + [e];
      }
    }

    method Close()
      requires !closed
      modifies this
      ensures View() == old(View()).(closed := true)
    {
      closed := true;
    }

    /** A receive that does not wait: None when nothing is buffered. */
    method TryReceive() returns (e: Option<E>)
      modifies this
      ensures View() == Take(old(View()))
      ensures e == if old(buffer) == [] then None else Some(old(buffer)[0])
    {
      if |buffer| == 0 {
        return None;
      }
      e := Some(buffer[0]);
      received := received + [buffer[0]];
      buffer := buffer[1..];
    }
  }

  class EventHub<E> {
    var subscribers: map<nat, Channel<E>>
    var nextID: nat

    /** Ids are below `nextID`, every subscriber has its own channel, and it is open. */
    ghost predicate Valid()
      reads this, subscribers.Values
    {
      && (forall id :: id in subscribers ==> id < nextID && !subscribers[id].closed)
      && (forall i, j :: i in subscribers && j in subscribers && subscribers[i] == subscribers[j] ==> i == j)
    }

    ghost function View(): map<nat, Chan<E>>
      reads this, subscribers.Values
    {
      map id | id in subscribers :: subscribers[id].View()
    }

    constructor ()
      ensures Valid() && View() == map[] && nextID == 0
    {
      subscribers, nextID := map[], 0;
    }

    method Subscribe(buffer: int) returns (id: nat, ch: Channel<E>)
      requires Valid()
      modifies this
      ensures Valid() && fresh(ch) && id == old(nextID) && nextID == id + 1
      ensures subscribers == old(subscribers)[id := ch] && id !in old(subscribers)
      ensures View() == Effect(old(View()), old(nextID), Op.Subscribe(buffer))
    {
      var size := buffer;
      if size < 1 {
        size := 1;
      }
      id := nextID;
      nextID := nextID + 1;
      ch := new Channel(size);
      subscribers := subscribers[id := ch];
    }

    /** The closure returned by Subscribe: removes and closes the channel the first time, and does nothing later. */
    method Unsubscribe(id: nat)
      requires Valid()
      modifies this, subscribers.Values
      ensures Valid() && nextID == old(nextID)
      ensures subscribers == old(subscribers) - {id} && View() == Effect(old(View()), nextID, Op.Unsubscribe(id))
      ensures id in old(subscribers) ==> old(subscribers)[id].View() == old(subscribers[id].View()).(closed := true)
    {
      if id !in subscribers {
        return;
      }
      var sub := subscribers[id];
      subscribers := subscribers - {id};
      sub.Close();
    }

    /** Offers the event to one subscriber; no other has the same channel. */
    method OfferTo(id: nat, event: E)
      requires Valid() && id in subscribers
      modifies subscribers[id]
      ensures Valid()
      ensures View() == old(View())[id := Offer(old(subscribers[id].View()), event)]
    {
      var ch := subscribers[id];
      ch.TrySend(event);
      OfferStaysOpen(old(ch.View()), event);
    }

    /** Offers the event to every subscriber, in whatever order the map yields them. */
    method Publish(event: E)
      requires Valid()
      modifies subscribers.Values
      ensures Valid()
      ensures View() == Effect(old(View()), nextID, Op.Publish(event))
    {
      ghost var was := View();
      var rest := subscribers.Keys;
      assert Offering(was, View(), rest, event);
      hide Offer, Effect, Offering;
      while rest != {}
        invariant Valid() && Offering(was, View(), rest, event)
      {
        var id :| id in rest;
        ghost var table := View();
        OfferNext(was, table, rest, event, id);
        OfferTo(id, event);
        rest := rest - {id};
      }
      OfferedAll(was, View(), event, nextID);
    }
  }
}
