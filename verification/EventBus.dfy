/** The registry of event clients and the dispatch of events over it, with an account of
    who owns every event object. */
module EventBus {
  import opened Events
  import opened ClientQueue

  datatype Slot = Slot(id: ClientId, client: Client)

  /** `slots` is the registry in registration order. `next` is the identity the next created
      event object gets; `handed` are the objects given to consumers and not yet released,
      `destroyed` the deleted ones. */
  datatype Bus = Bus(slots: seq<Slot>, next: nat, handed: multiset<nat>, destroyed: multiset<nat>)

  const EMPTY_BUS := Bus([], 0, multiset{}, multiset{})

  /** The position of a client in the registry, or its length if it is not registered. */
  function IndexOf(slots: seq<Slot>, c: ClientId): (i: nat)
    ensures i <= |slots|
    ensures i < |slots| ==> slots[i].id == c
    ensures forall j :: 0 <= j < i ==> slots[j].id != c
  {
    if slots == [] || slots[0].id == c then 0 else 1 + IndexOf(slots[1..], c)
  }

  predicate Registered(b: Bus, c: ClientId) {
    IndexOf(b.slots, c) < |b.slots|
  }

  function Lookup(b: Bus, c: ClientId): Client
    requires Registered(b, c)
  {
    b.slots[IndexOf(b.slots, c)].client
  }

  /** What EventDestroy deletes: nothing if the event is persistent. */
  function Deleted(e: Event): multiset<nat> {
    if e.flags.persistent then multiset{} else multiset{e.uid}
  }

  /** The objects deleted while `e` is pushed to `c`. */
  function PushDeletes(c: Client, e: Event): multiset<nat> {
    if !c.enabled then Deleted(e)
    else if Replaced(c.queue, e).Some? then Deleted(Replaced(c.queue, e).value)
    else multiset{}
  }

  function SetClient(slots: seq<Slot>, i: nat, c: Client): seq<Slot>
    requires i < |slots|
  {
    slots[i := slots[i].(client := c)]
  }

  /** The number of enabled clients: how many copies a broadcast makes. */
  function EnabledCount(slots: seq<Slot>): nat {
    if slots == [] then 0
    else EnabledCount(slots[..|slots| - 1]) + if slots[|slots| - 1].client.enabled then 1 else 0
  }

  function BroadcastSlot(slots: seq<Slot>, i: nat, e: Event, source: Option<ClientId>, next: nat): Slot
    requires i < |slots|
  {
    var s := slots[i];
    if s.client.enabled
    then s.(client := PushTo(s.client, Clone(e, next + EnabledCount(slots[..i])), source))
    else s
  }

  function BroadcastSlots(slots: seq<Slot>, e: Event, source: Option<ClientId>, next: nat): (r: seq<Slot>)
    ensures |r| == |slots|
    ensures forall i :: 0 <= i < |r| ==> r[i] == BroadcastSlot(slots, i, e, source, next)
    ensures forall i :: 0 <= i < |r| ==> r[i].id == slots[i].id
  {
    seq(|slots|, i requires 0 <= i < |slots| => BroadcastSlot(slots, i, e, source, next))
  }

  function SlotDeletes(slots: seq<Slot>, i: nat, e: Event, next: nat): multiset<nat>
    requires i < |slots|
  {
    if slots[i].client.enabled
    then PushDeletes(slots[i].client, Clone(e, next + EnabledCount(slots[..i]))) else multiset{}
  }

  function BroadcastDeletes(slots: seq<Slot>, e: Event, next: nat): multiset<nat> {
    if slots == [] then multiset{} else
    var n := |slots| - 1;
    BroadcastDeletes(slots[..n], e, next) + SlotDeletes(slots, n, e, next)
  }

  function SendAll(b: Bus, e: Event, source: Option<ClientId>): Bus {
    Bus(BroadcastSlots(b.slots, e, source, b.next), b.next + EnabledCount(b.slots), b.handed,
        b.destroyed + BroadcastDeletes(b.slots, e, b.next) + Deleted(e))
  }

  function SendTo(b: Bus, e: Event, source: Option<ClientId>, i: nat): Bus
    requires i < |b.slots|
  {
    Bus(SetClient(b.slots, i, PushTo(b.slots[i].client, e, source)), b.next, b.handed,
        b.destroyed + PushDeletes(b.slots[i].client, e))
  }

  /** EventDispatch: a broadcast pushes a copy to every enabled client and destroys the
      original; a directed event is pushed to its target if that is registered, and destroyed
      otherwise. */
  function Dispatch(b: Bus, e: Event, source: Option<ClientId>, target: Target): Bus {
    var e := e.(target := target);
    if target.Broadcast? then SendAll(b, e, source)
    else if target.To? && Registered(b, target.client) then
      SendTo(b, e, source, IndexOf(b.slots, target.client))
    else b.(destroyed := b.destroyed + Deleted(e))
  }

  /** EventPop hands out the front event itself, or a new copy of it if it is sticky. */
  function PopAt(b: Bus, i: nat): Bus
    requires i < |b.slots|
  {
    var c := b.slots[i].client;
    var front := Front(c);
    if front.None? then b
    else if front.value.flags.sticky then b.(next := b.next + 1, handed := b.handed + multiset{b.next})
    else b.(slots := SetClient(b.slots, i, PopFrom(c)), handed := b.handed + multiset{front.value.uid})
  }

  function QueueDeletes(q: seq<Event>): multiset<nat> {
    if q == [] then multiset{} else Deleted(q[0]) + QueueDeletes(q[1..])
  }

  datatype BusOp =
    | NewClient(id: ClientId)
    | DeleteClient(id: ClientId)
    | SetEnabled(id: ClientId, on: bool)
    | DispatchNew(event: Event, source: Option<ClientId>, target: Target)
    | DispatchHeld(event: Event, source: Option<ClientId>, target: Target)
    | PopEvent(id: ClientId)
    | Release(event: Event)

  function Register(b: Bus, c: ClientId): Bus {
    if Registered(b, c) then b else b.(slots := b.slots + [Slot(c, NEW_CLIENT)])
  }

  /** Deleting a client destroys the events it still queues. */
  function Unregister(b: Bus, c: ClientId): Bus {
    var i := IndexOf(b.slots, c);
    if i == |b.slots| then b
    else b.(slots := b.slots[..i] + b.slots[i + 1..],
            destroyed := b.destroyed + QueueDeletes(b.slots[i].client.queue))
  }

  function EnableClient(b: Bus, c: ClientId, on: bool): Bus {
    var i := IndexOf(b.slots, c);
    if i == |b.slots| then b else b.(slots := SetClient(b.slots, i, b.slots[i].client.(enabled := on)))
  }

  function PopClient(b: Bus, c: ClientId): Bus {
    var i := IndexOf(b.slots, c);
    if i == |b.slots| then b else PopAt(b, i)
  }

  /** Create an event object and dispatch it. */
  function DispatchCreated(b: Bus, e: Event, source: Option<ClientId>, target: Target): Bus {
    Dispatch(b.(next := b.next + 1), e.(uid := b.next), source, target)
  }

  /** One atomic step of the bus. An operation on a client that does not exist does nothing. */
  function Step(b: Bus, op: BusOp): Bus {
    match op
    case NewClient(c) => Register(b, c)
    case DeleteClient(c) => Unregister(b, c)
    case SetEnabled(c, on) => EnableClient(b, c, on)
    case DispatchNew(e, source, target) => DispatchCreated(b, e, source, target)
    case DispatchHeld(e, source, target) =>
      Dispatch(b.(handed := b.handed - multiset{e.uid}), e, source, target)
    case PopEvent(c) => PopClient(b, c)
    case Release(e) =>
      b.(handed := b.handed - multiset{e.uid}, destroyed := b.destroyed + Deleted(e))
  }

  function Steps(b: Bus, ops: seq<BusOp>): Bus {
    if ops == [] then b else Step(Steps(b, ops[..|ops| - 1]), ops[|ops| - 1])
  }

  // ----- every event object has exactly one owner -----

  /** How often object `u` is in a queue, and in all the queues of the registry. */
  function InQueue(q: seq<Event>, u: nat): nat {
    if q == [] then 0 else (if q[0].uid == u then 1 else 0) + InQueue(q[1..], u)
  }

  function InQueues(slots: seq<Slot>, u: nat): nat {
    if slots == [] then 0
    else InQueues(slots[..|slots| - 1], u) + InQueue(slots[|slots| - 1].client.queue, u)
  }

  ghost predicate QueueOwned(q: seq<Event>) {
    forall j :: 0 <= j < |q| ==> !q[j].flags.persistent
  }

  ghost predicate QueuesOwned(slots: seq<Slot>) {
    forall i :: 0 <= i < |slots| ==> QueueOwned(slots[i].client.queue)
  }

  /** How many owners object `u` has. */
  function Owners(b: Bus, u: nat): nat {
    InQueues(b.slots, u) + b.handed[u] + b.destroyed[u]
  }

  /** Every created object is queued, handed out or destroyed, and only one of these, once. */
  ghost predicate Balanced(b: Bus) {
    && QueuesOwned(b.slots)
    && forall u: nat :: Owners(b, u) == if u < b.next then 1 else 0
  }

  /** The operation uses non-persistent events, and only an event its caller owns. */
  predicate Owned(b: Bus, op: BusOp) {
    match op
    case DispatchNew(e, _, _) => !e.flags.persistent
    case DispatchHeld(e, _, _) => !e.flags.persistent && e.uid in b.handed
    case Release(e) => !e.flags.persistent && e.uid in b.handed
    case _ => true
  }

  ghost predicate OwnedRun(b: Bus, ops: seq<BusOp>) {
    forall i :: 0 <= i < |ops| ==> Owned(Steps(b, ops[..i]), ops[i])
  }

  lemma {:induction false} InQueueConcat(q: seq<Event>, r: seq<Event>, u: nat)
    ensures InQueue(q + r, u) == InQueue(q, u) + InQueue(r, u)
  {
    if q == [] {
      assert q + r == r;
    } else {
      assert (q + r)[1..] == q[1..] + r;
      InQueueConcat(q[1..], r, u);
    }
  }

  lemma InQueueDrop(q: seq<Event>, i: nat, u: nat)
    requires i < |q|
    ensures InQueue(DropAt(q, i), u) + (if q[i].uid == u then 1 else 0) == InQueue(q, u)
  {
    assert q == q[..i] + ([q[i]] + q[i + 1..]);
    InQueueConcat(q[..i], [q[i]] + q[i + 1..], u);
    InQueueConcat(q[..i], q[i + 1..], u);
    InQueueConcat([q[i]], q[i + 1..], u);
  }

  lemma InQueueInsert(q: seq<Event>, e: Event, u: nat)
    ensures InQueue(Insert(q, e), u) == InQueue(q, u) + if e.uid == u then 1 else 0
  {
    InQueueConcat([e], q, u);
    InQueueConcat(q, [e], u);
  }

  /** A push takes in the new object and deletes exactly the one it replaces or refuses. */
  lemma PushOwners(c: Client, e: Event, source: Option<ClientId>, u: nat)
    requires QueueOwned(c.queue) && !e.flags.persistent
    ensures InQueue(PushTo(c, e, source).queue, u) + PushDeletes(c, e)[u]
         == InQueue(c.queue, u) + if e.uid == u then 1 else 0
    ensures QueueOwned(PushTo(c, e, source).queue)
  {
    var e', i := Stamp(e, source, c.accepted), FirstWithId(c.queue, e.id);
    if c.enabled {
      if e.flags.exclusive && i < |c.queue| {
        InQueueDrop(c.queue, i, u);
        InQueueInsert(DropAt(c.queue, i), e', u);
      } else {
        InQueueInsert(c.queue, e', u);
      }
    }
  }

  lemma {:induction false} InQueuesUpdate(slots: seq<Slot>, i: nat, c: Client, u: nat)
    requires i < |slots|
    ensures InQueues(SetClient(slots, i, c), u) + InQueue(slots[i].client.queue, u)
         == InQueues(slots, u) + InQueue(c.queue, u)
    decreases |slots|
  {
    var n, r := |slots| - 1, SetClient(slots, i, c);
    if i < n {
      assert r[..n] == SetClient(slots[..n], i, c);
      InQueuesUpdate(slots[..n], i, c, u);
    } else {
      assert r[..n] == slots[..n];
    }
  }

  lemma {:induction false} InQueuesRemove(slots: seq<Slot>, i: nat, u: nat)
    requires i < |slots|
    ensures InQueues(slots[..i] + slots[i + 1..], u) + InQueue(slots[i].client.queue, u) == InQueues(slots, u)
    decreases |slots|
  {
    var n, r := |slots| - 1, slots[..i] + slots[i + 1..];
    if i < n {
      assert r[..n - 1] == slots[..n][..i] + slots[..n][i + 1..];
      InQueuesRemove(slots[..n], i, u);
    } else {
      assert r == slots[..n];
    }
  }

  lemma {:induction false} DeletesAll(q: seq<Event>, u: nat)
    requires QueueOwned(q)
    ensures QueueDeletes(q)[u] == InQueue(q, u)
  {
    if q != [] { DeletesAll(q[1..], u); }
  }

  lemma BroadcastInit(slots: seq<Slot>, e: Event, source: Option<ClientId>, next: nat)
    requires slots != []
    ensures var n := |slots| - 1;
            BroadcastSlots(slots, e, source, next)
            == BroadcastSlots(slots[..n], e, source, next) + [BroadcastSlot(slots, n, e, source, next)]
  {
    var init := slots[..|slots| - 1];
    forall i | 0 <= i < |init|
      ensures BroadcastSlot(slots, i, e, source, next) == BroadcastSlot(init, i, e, source, next)
    {
      assert slots[..i] == init[..i];
    }
  }

  lemma BroadcastNone(slots: seq<Slot>, e: Event, first: nat)
    ensures EnabledCount(slots[..0]) == 0 && BroadcastDeletes(slots[..0], e, first) == multiset{}
  {
  }

  lemma BroadcastNext(slots: seq<Slot>, i: nat, e: Event, source: Option<ClientId>, first: nat)
    requires i < |slots|
    ensures EnabledCount(slots[..i + 1]) == EnabledCount(slots[..i]) + if slots[i].client.enabled then 1 else 0
    ensures var c, copy := slots[i].client, Clone(e, first + EnabledCount(slots[..i]));
            && BroadcastDeletes(slots[..i + 1], e, first)
               == BroadcastDeletes(slots[..i], e, first) + (if c.enabled then PushDeletes(c, copy) else multiset{})
            && BroadcastSlot(slots, i, e, source, first).client == if c.enabled then PushTo(c, copy, source) else c
  {
    hide PushTo, PushDeletes;
    assert slots[..i + 1][..i] == slots[..i];
  }

  lemma BroadcastSlotOwners(slots: seq<Slot>, i: nat, e: Event, source: Option<ClientId>, next: nat, u: nat)
    requires i < |slots| && QueueOwned(slots[i].client.queue) && !e.flags.persistent
    ensures InQueue(BroadcastSlot(slots, i, e, source, next).client.queue, u) + SlotDeletes(slots, i, e, next)[u]
         == InQueue(slots[i].client.queue, u)
            + if slots[i].client.enabled && u == next + EnabledCount(slots[..i]) then 1 else 0
    ensures QueueOwned(BroadcastSlot(slots, i, e, source, next).client.queue)
  {
    if slots[i].client.enabled {
      PushOwners(slots[i].client, Clone(e, next + EnabledCount(slots[..i])), source, u);
    }
  }

  /** A broadcast creates one object per enabled client, and queues or deletes each. */
  lemma {:induction false} BroadcastOwners(slots: seq<Slot>, e: Event, source: Option<ClientId>, next: nat, u: nat)
    requires QueuesOwned(slots) && !e.flags.persistent
    ensures InQueues(BroadcastSlots(slots, e, source, next), u) + BroadcastDeletes(slots, e, next)[u]
         == InQueues(slots, u) + if next <= u < next + EnabledCount(slots) then 1 else 0
    ensures QueuesOwned(BroadcastSlots(slots, e, source, next))
    decreases |slots|
  {
    if slots != [] {
      var n := |slots| - 1;
      var init, last := slots[..n], BroadcastSlot(slots, n, e, source, next);
      BroadcastOwners(init, e, source, next, u);
      BroadcastInit(slots, e, source, next);
      BroadcastSlotOwners(slots, n, e, source, next, u);
      AppendOwners(BroadcastSlots(init, e, source, next), last, u);
    }
  }

  lemma AppendOwners(slots: seq<Slot>, s: Slot, u: nat)
    ensures InQueues(slots + [s], u) == InQueues(slots, u) + InQueue(s.client.queue, u)
    ensures QueuesOwned(slots) && QueueOwned(s.client.queue) ==> QueuesOwned(slots + [s])
  {
  }

  lemma SendToOwners(b: Bus, e: Event, source: Option<ClientId>, i: nat, u: nat)
    requires QueuesOwned(b.slots) && !e.flags.persistent && i < |b.slots|
    ensures Owners(SendTo(b, e, source, i), u) == Owners(b, u) + if e.uid == u then 1 else 0
    ensures QueuesOwned(SendTo(b, e, source, i).slots)
  {
    PushOwners(b.slots[i].client, e, source, u);
    InQueuesUpdate(b.slots, i, PushTo(b.slots[i].client, e, source), u);
  }

  /** `r` has the owners of `b`, plus one for object `x` and for each object created in between. */
  ghost predicate Delivered(b: Bus, r: Bus, x: nat, u: nat) {
    && Owners(r, u) == Owners(b, u) + (if x == u then 1 else 0) + (if b.next <= u < r.next then 1 else 0)
    && QueuesOwned(r.slots) && r.next >= b.next
  }

  lemma DispatchOwners(b: Bus, e: Event, source: Option<ClientId>, target: Target, u: nat)
    requires QueuesOwned(b.slots) && !e.flags.persistent
    ensures Delivered(b, Dispatch(b, e, source, target), e.uid, u)
  {
    var e' := e.(target := target);
    if target.Broadcast? {
      BroadcastOwners(b.slots, e', source, b.next, u);
    } else if target.To? && Registered(b, target.client) {
      SendToOwners(b, e', source, IndexOf(b.slots, target.client), u);
    }
  }

  /** `r` has the owners of `b`, plus one for each object created in between. */
  ghost predicate OwnersFollow(b: Bus, r: Bus, u: nat) {
    && Owners(r, u) == Owners(b, u) + (if b.next <= u < r.next then 1 else 0)
    && QueuesOwned(r.slots) && r.next >= b.next
  }

  lemma CreatedFollows(b: Bus, r: Bus, u: nat)
    requires Delivered(b.(next := b.next + 1), r, b.next, u)
    ensures OwnersFollow(b, r, u)
  {
  }

  lemma HeldFollows(b: Bus, r: Bus, x: nat, u: nat)
    requires x in b.handed && Delivered(b.(handed := b.handed - multiset{x}), r, x, u)
    ensures OwnersFollow(b, r, u)
  {
  }

  /** One step moves objects between owners; it only adds the objects it creates. */
  lemma StepOwners(b: Bus, op: BusOp, u: nat)
    requires QueuesOwned(b.slots) && Owned(b, op)
    ensures OwnersFollow(b, Step(b, op), u)
  {
    hide Dispatch, Register, Unregister, EnableClient, PopAt, Delivered;
    match op {
      case NewClient(c) => RegisterOwners(b, c, u);
      case DeleteClient(c) => UnregisterOwners(b, c, u);
      case SetEnabled(c, on) => EnableOwners(b, c, on, u);
      case DispatchNew(e, source, target) =>
        DispatchOwners(b.(next := b.next + 1), e.(uid := b.next), source, target, u);
        CreatedFollows(b, DispatchCreated(b, e, source, target), u);
      case DispatchHeld(e, source, target) =>
        DispatchOwners(b.(handed := b.handed - multiset{e.uid}), e, source, target, u);
        HeldFollows(b, Step(b, op), e.uid, u);
      case PopEvent(c) =>
        if Registered(b, c) { PopOwners(b, IndexOf(b.slots, c), u); }
      case Release(e) =>
    }
  }

  lemma RegisterOwners(b: Bus, c: ClientId, u: nat)
    requires QueuesOwned(b.slots)
    ensures OwnersFollow(b, Register(b, c), u)
  {
  }

  lemma UnregisterOwners(b: Bus, c: ClientId, u: nat)
    requires QueuesOwned(b.slots)
    ensures OwnersFollow(b, Unregister(b, c), u)
  {
    var i := IndexOf(b.slots, c);
    if i < |b.slots| {
      InQueuesRemove(b.slots, i, u);
      DeletesAll(b.slots[i].client.queue, u);
    }
  }

  lemma EnableOwners(b: Bus, c: ClientId, on: bool, u: nat)
    requires QueuesOwned(b.slots)
    ensures OwnersFollow(b, EnableClient(b, c, on), u)
  {
    var i := IndexOf(b.slots, c);
    if i < |b.slots| { InQueuesUpdate(b.slots, i, b.slots[i].client.(enabled := on), u); }
  }

  lemma PopOwners(b: Bus, i: nat, u: nat)
    requires QueuesOwned(b.slots) && i < |b.slots|
    ensures OwnersFollow(b, PopAt(b, i), u)
  {
    var c := b.slots[i].client;
    if c.queue != [] && !c.queue[0].flags.sticky {
      InQueuesUpdate(b.slots, i, PopFrom(c), u);
      assert c.queue == [c.queue[0]] + c.queue[1..];
    }
  }

  /** Over every run that uses non-persistent, owned events no object is lost or shared,
      whatever is broadcast, sent to an unknown or disabled client, replaced by an exclusive
      event or queued at a client that is deleted. */
  lemma {:induction false} OwnershipConserved(b: Bus, ops: seq<BusOp>)
    requires Balanced(b) && OwnedRun(b, ops)
    ensures Balanced(Steps(b, ops))
    decreases |ops|
  {
    if ops != [] {
      var before, op := ops[..|ops| - 1], ops[|ops| - 1];
      assert forall i :: 0 <= i < |before| ==> before[..i] == ops[..i];
      OwnershipConserved(b, before);
      var m := Steps(b, before);
      StepOwners(m, op, 0);
      forall u: nat ensures Owners(Step(m, op), u) == if u < Step(m, op).next then 1 else 0 {
        StepOwners(m, op, u);
      }
    }
  }

  /** In particular over every run of the daemon, which starts without clients and events. */
  lemma OwnershipFromStart(ops: seq<BusOp>)
    requires OwnedRun(EMPTY_BUS, ops)
    ensures Balanced(Steps(EMPTY_BUS, ops))
  {
    OwnershipConserved(EMPTY_BUS, ops);
  }

  lemma {:induction false} QueuePlaces(q: seq<Event>, u: nat, j: nat)
    requires j < |q| && q[j].uid == u
    ensures InQueue(q, u) >= 1
    ensures forall k :: 0 <= k < |q| && k != j && q[k].uid == u ==> InQueue(q, u) >= 2
  {
    if j > 0 {
      QueuePlaces(q[1..], u, j - 1);
      assert forall k :: 1 <= k < |q| ==> q[1..][k - 1] == q[k];
    } else if k :| 0 < k < |q| && q[k].uid == u {
      QueuePlaces(q[1..], u, k - 1);
    }
  }

  lemma {:induction false} QueuesPlaces(slots: seq<Slot>, i: nat, k: nat, u: nat)
    requires i <= k < |slots|
    ensures InQueues(slots, u) >=
            InQueue(slots[k].client.queue, u) + if i < k then InQueue(slots[i].client.queue, u) else 0
    decreases |slots|
  {
    var n := |slots| - 1;
    if k < n {
      QueuesPlaces(slots[..n], i, k, u);
    } else if i < n {
      QueuesPlaces(slots[..n], i, i, u);
    }
  }

  /** What balance means for a queued object: it is in one place of one queue, and neither
      handed out nor destroyed. */
  lemma SingleOwner(b: Bus, i: nat, j: nat)
    requires Balanced(b) && i < |b.slots| && j < |b.slots[i].client.queue|
    ensures var u := b.slots[i].client.queue[j].uid;
            && u < b.next && u !in b.handed && u !in b.destroyed
            && (forall i', j' | 0 <= i' < |b.slots| && 0 <= j' < |b.slots[i'].client.queue| ::
                 b.slots[i'].client.queue[j'].uid == u ==> i' == i && j' == j)
  {
    var u := b.slots[i].client.queue[j].uid;
    assert Owners(b, u) <= 1;
    QueuePlaces(b.slots[i].client.queue, u, j);
    QueuesPlaces(b.slots, i, i, u);
    forall i', j' | 0 <= i' < |b.slots| && 0 <= j' < |b.slots[i'].client.queue| &&
                    b.slots[i'].client.queue[j'].uid == u
      ensures i' == i && j' == j
    {
      QueuePlaces(b.slots[i'].client.queue, u, j');
      QueuesPlaces(b.slots, if i < i' then i else i', if i < i' then i' else i, u);
    }
  }

  // ----- what a bus run does to one client -----

  /** Client `c` is registered and in state `d`. */
  predicate Holds(b: Bus, c: ClientId, d: Client) {
    Registered(b, c) && Lookup(b, c) == d
  }

  /** The queue operations a bus step performs on client `c`. */
  function Project(b: Bus, op: BusOp, c: ClientId): seq<Op>
    requires Registered(b, c)
  {
    match op
    case SetEnabled(d, on) => if d == c then [Enable(on)] else []
    case PopEvent(d) => if d == c then [Pop] else []
    case DispatchNew(e, source, target) =>
      ProjectDispatch(b.(next := b.next + 1), e.(uid := b.next), source, target, c)
    case DispatchHeld(e, source, target) =>
      ProjectDispatch(b.(handed := b.handed - multiset{e.uid}), e, source, target, c)
    case _ => []
  }

  function ProjectDispatch(b: Bus, e: Event, source: Option<ClientId>, target: Target, c: ClientId): seq<Op>
    requires Registered(b, c)
  {
    var e := e.(target := target);
    if target.Broadcast? then
      [Push(Clone(e, b.next + EnabledCount(b.slots[..IndexOf(b.slots, c)])), source)]
    else if target == To(c) then [Push(e, source)]
    else []
  }

  lemma {:induction false} IndexOfFirst(slots: seq<Slot>, c: ClientId, i: nat)
    requires i < |slots| && slots[i].id == c && forall j :: 0 <= j < i ==> slots[j].id != c
    ensures IndexOf(slots, c) == i
  {
  }

  ghost predicate SameRegistry(b: Bus, r: Bus) {
    |r.slots| == |b.slots| && forall i :: 0 <= i < |b.slots| ==> r.slots[i].id == b.slots[i].id
  }

  lemma DispatchIds(b: Bus, e: Event, source: Option<ClientId>, target: Target)
    ensures SameRegistry(b, Dispatch(b, e, source, target))
  {
  }

  lemma SameIds(slots: seq<Slot>, r: seq<Slot>, c: ClientId)
    requires |r| == |slots| && forall j :: 0 <= j < |r| ==> r[j].id == slots[j].id
    ensures IndexOf(r, c) == IndexOf(slots, c)
  {
  }

  lemma DisabledIgnores(c: Client, e: Event, source: Option<ClientId>)
    ensures !c.enabled ==> PushTo(c, e, source) == c
  {
  }

  lemma SendAllProjects(b: Bus, e: Event, source: Option<ClientId>, c: ClientId)
    requires Registered(b, c)
    ensures Holds(SendAll(b, e, source), c,
                  PushTo(Lookup(b, c), Clone(e, b.next + EnabledCount(b.slots[..IndexOf(b.slots, c)])), source))
  {
    hide PushTo, EnabledCount, BroadcastDeletes;
    DisabledIgnores(Lookup(b, c), Clone(e, b.next + EnabledCount(b.slots[..IndexOf(b.slots, c)])), source);
    SameIds(b.slots, SendAll(b, e, source).slots, c);
  }

  lemma SendToProjects(b: Bus, e: Event, source: Option<ClientId>, i: nat, c: ClientId)
    requires Registered(b, c) && i < |b.slots|
    ensures Holds(SendTo(b, e, source, i), c,
                  if i == IndexOf(b.slots, c) then PushTo(Lookup(b, c), e, source) else Lookup(b, c))
  {
    SameIds(b.slots, SendTo(b, e, source, i).slots, c);
  }

  /** A dispatch reaches a client as at most one push. */
  lemma DispatchProjects(b: Bus, e: Event, source: Option<ClientId>, target: Target, c: ClientId)
    requires Registered(b, c)
    ensures Holds(Dispatch(b, e, source, target), c, Run(Lookup(b, c), ProjectDispatch(b, e, source, target, c)))
  {
    hide PushTo, SendAll, SendTo;
    var e' := e.(target := target);
    if target.Broadcast? {
      SendAllProjects(b, e', source, c);
      RunOne(Lookup(b, c), Push(Clone(e', b.next + EnabledCount(b.slots[..IndexOf(b.slots, c)])), source));
    } else if target.To? && Registered(b, target.client) {
      SendToProjects(b, e', source, IndexOf(b.slots, target.client), c);
      RunOne(Lookup(b, c), Push(e', source));
    }
  }

  lemma RegisterProjects(b: Bus, d: ClientId, c: ClientId)
    requires Registered(b, c)
    ensures Holds(Register(b, d), c, Lookup(b, c))
  {
    IndexOfFirst(Register(b, d).slots, c, IndexOf(b.slots, c));
  }

  lemma UnregisterProjects(b: Bus, d: ClientId, c: ClientId)
    requires Registered(b, c) && c != d
    ensures Holds(Unregister(b, d), c, Lookup(b, c))
  {
    var i, k := IndexOf(b.slots, d), IndexOf(b.slots, c);
    IndexOfFirst(Unregister(b, d).slots, c, if i < k then k - 1 else k);
  }

  lemma EnableProjects(b: Bus, d: ClientId, on: bool, c: ClientId)
    requires Registered(b, c)
    ensures Holds(EnableClient(b, d, on), c, Run(Lookup(b, c), Project(b, SetEnabled(d, on), c)))
  {
    SameIds(b.slots, EnableClient(b, d, on).slots, c);
    RunOne(Lookup(b, c), Enable(on));
  }

  lemma PopProjects(b: Bus, d: ClientId, c: ClientId)
    requires Registered(b, c)
    ensures Holds(PopClient(b, d), c, Run(Lookup(b, c), Project(b, PopEvent(d), c)))
  {
    SameIds(b.slots, PopClient(b, d).slots, c);
    RunOne(Lookup(b, c), Pop);
  }

  lemma NewProjects(b: Bus, op: BusOp, c: ClientId)
    requires Registered(b, c) && op.DispatchNew?
    ensures Holds(Step(b, op), c, Run(Lookup(b, c), Project(b, op, c)))
  {
    hide Dispatch, ProjectDispatch, IndexOf, Run;
    var b' := b.(next := b.next + 1);
    assert Registered(b', c) && Lookup(b', c) == Lookup(b, c);
    DispatchProjects(b', op.event.(uid := b.next), op.source, op.target, c);
  }

  lemma HeldProjects(b: Bus, op: BusOp, c: ClientId)
    requires Registered(b, c) && op.DispatchHeld?
    ensures Holds(Step(b, op), c, Run(Lookup(b, c), Project(b, op, c)))
  {
    hide Dispatch, ProjectDispatch, IndexOf, Run;
    var b' := b.(handed := b.handed - multiset{op.event.uid});
    assert Registered(b', c) && Lookup(b', c) == Lookup(b, c);
    DispatchProjects(b', op.event, op.source, op.target, c);
  }

  /** A step keeps every registered client except the one it deletes, and acts on it as its
      projection does. */
  lemma StepProjects(b: Bus, op: BusOp, c: ClientId)
    requires Registered(b, c) && op != DeleteClient(c)
    ensures Holds(Step(b, op), c, Run(Lookup(b, c), Project(b, op, c)))
  {
    match op {
      case NewClient(d) => RegisterProjects(b, d, c);
      case DeleteClient(d) => UnregisterProjects(b, d, c);
      case SetEnabled(d, on) => EnableProjects(b, d, on, c);
      case DispatchNew(_, _, _) => NewProjects(b, op, c);
      case DispatchHeld(_, _, _) => HeldProjects(b, op, c);
      case PopEvent(d) => PopProjects(b, d, c);
      case Release(_) =>
    }
  }

  ghost predicate DistinctIds(slots: seq<Slot>) {
    forall i, j :: 0 <= i < j < |slots| ==> slots[i].id != slots[j].id
  }

  /** Only registration adds a client to the registry, and only deletion removes one. */
  lemma StepIds(b: Bus, op: BusOp)
    ensures !op.NewClient? && !op.DeleteClient? ==> SameRegistry(b, Step(b, op))
  {
    match op {
      case DispatchNew(e, source, target) =>
        DispatchIds(b.(next := b.next + 1), e.(uid := b.next), source, target);
      case DispatchHeld(e, source, target) =>
        DispatchIds(b.(handed := b.handed - multiset{e.uid}), e, source, target);
      case _ =>
    }
  }

  lemma StepKeepsDistinct(b: Bus, op: BusOp)
    requires DistinctIds(b.slots)
    ensures DistinctIds(Step(b, op).slots)
  {
    StepIds(b, op);
    if op.NewClient? {
      assert Register(b, op.id).slots[..|b.slots|] == b.slots;
    }
  }

  /** A client that a step brings into the registry is new and empty. */
  lemma NewlyRegistered(b: Bus, op: BusOp, c: ClientId)
    requires DistinctIds(b.slots) && Registered(Step(b, op), c)
    requires !Registered(b, c) || op == DeleteClient(c)
    ensures op == NewClient(c) && Lookup(Step(b, op), c) == NEW_CLIENT
    ensures Lookup(Step(b, op), c).enabled && Lookup(Step(b, op), c).queue == []
  {
    if !op.NewClient? && !op.DeleteClient? { StepIds(b, op); }
  }

  // ----- what arrives -----

  /** `x` is `e` as client `c` must see it: marked with sender and target, everything else kept. */
  predicate IsDelivery(x: Event, e: Event, source: Option<ClientId>, target: Target, arrival: nat) {
    x == e.(uid := x.uid, source := source, target := target, arrival := arrival)
  }

  /** An enabled client gets a directed or broadcast event at the front if it has high
      priority and at the back otherwise, marked with its sender and its target. */
  lemma ArrivesMarked(b: Bus, e: Event, source: Option<ClientId>, target: Target, c: ClientId)
    requires Registered(b, c) && Lookup(b, c).enabled && (target == To(c) || target == Broadcast)
    ensures var r := Dispatch(b, e, source, target);
            && Registered(r, c) && Lookup(r, c).queue != []
            && var q := Lookup(r, c).queue;
               IsDelivery(q[if e.flags.highPriority then 0 else |q| - 1], e, source, target, Lookup(b, c).accepted)
  {
    hide Dispatch, IndexOf;
    DispatchProjects(b, e, source, target, c);
    var p, d := ProjectDispatch(b, e, source, target, c), Lookup(b, c);
    RunOne(d, p[0]);
  }

  /** An event sent to one client changes no other. */
  lemma OthersUnchanged(b: Bus, e: Event, source: Option<ClientId>, target: Target, c: ClientId)
    requires Registered(b, c) && target != To(c) && target != Broadcast
    ensures var r := Dispatch(b, e, source, target); Registered(r, c) && Lookup(r, c) == Lookup(b, c)
  {
    hide Dispatch, IndexOf;
    DispatchProjects(b, e, source, target, c);
  }

  /** A new client receives: the first event sent to it, or broadcast, is what it queues. */
  lemma NewClientReceives(b: Bus, c: ClientId, e: Event, source: Option<ClientId>, target: Target)
    requires !Registered(b, c) && (target == To(c) || target == Broadcast)
    ensures var r := Steps(b, [NewClient(c), DispatchNew(e, source, target)]);
            && Registered(r, c) && |Lookup(r, c).queue| == 1
            && var x := Lookup(r, c).queue[0]; IsDelivery(x, e, source, target, x.arrival)
  {
    hide Dispatch, IsDelivery, ProjectDispatch;
    var ops := [NewClient(c), DispatchNew(e, source, target)];
    assert ops[..1] == [NewClient(c)] && ops[..1][..0] == [];
    var m := Register(b, c);
    assert Steps(b, ops[..1]) == m;
    IndexOfFirst(m.slots, c, |b.slots|);
    NewClientGets(m, c, e, source, target);
  }

  lemma NewClientGets(m: Bus, c: ClientId, e: Event, source: Option<ClientId>, target: Target)
    requires Registered(m, c) && Lookup(m, c).enabled && Lookup(m, c).queue == []
    requires target == To(c) || target == Broadcast
    ensures var r := DispatchCreated(m, e, source, target);
            && Registered(r, c) && |Lookup(r, c).queue| == 1
            && var x := Lookup(r, c).queue[0]; IsDelivery(x, e, source, target, x.arrival)
  {
    hide Dispatch, IndexOf;
    var b, e' := m.(next := m.next + 1), e.(uid := m.next);
    assert Registered(b, c) && Lookup(b, c) == Lookup(m, c);
    DispatchProjects(b, e', source, target, c);
    RunOne(Lookup(b, c), ProjectDispatch(b, e', source, target, c)[0]);
  }

  /** The enable switch decides: a client that was switched on queues what is sent to it, one
      that was switched off keeps its queue, and the event is destroyed. */
  lemma EnableDecides(b: Bus, c: ClientId, on: bool, e: Event, source: Option<ClientId>)
    requires Registered(b, c) && !e.flags.exclusive && !e.flags.highPriority
    ensures var m := Step(b, SetEnabled(c, on));
            var r := Dispatch(m, e, source, To(c));
            && Registered(r, c) && |Lookup(r, c).queue| == |Lookup(b, c).queue| + (if on then 1 else 0)
            && Lookup(r, c).queue[..|Lookup(b, c).queue|] == Lookup(b, c).queue
            && (!on && !e.flags.persistent ==> e.uid in r.destroyed)
  {
    EnableProjects(b, c, on, c);
    RunOne(Lookup(b, c), Enable(on));
    var m := EnableClient(b, c, on);
    SendToProjects(m, e.(target := To(c)), source, IndexOf(m.slots, c), c);
  }

  /** A deleted client is gone: nobody can send to it any more. */
  lemma DeletedIsGone(b: Bus, c: ClientId, e: Event, source: Option<ClientId>)
    requires DistinctIds(b.slots) && Registered(b, c)
    ensures var r := Step(b, DeleteClient(c));
            && !Registered(r, c) && |r.slots| == |b.slots| - 1
            && Dispatch(r, e, source, To(c)).slots == r.slots
            && (!e.flags.persistent ==> e.uid in Dispatch(r, e, source, To(c)).destroyed)
  {
    hide QueueDeletes;
    var i := IndexOf(b.slots, c);
    var r := Unregister(b, c);
    assert forall j :: 0 <= j < |r.slots| ==> r.slots[j] == b.slots[if j < i then j else j + 1];
  }

  // ----- persistent events are never deleted -----

  ghost predicate PersistentIn(q: seq<Event>, u: nat) {
    forall j :: 0 <= j < |q| && q[j].uid == u ==> q[j].flags.persistent
  }

  /** Object `u` exists, was not deleted, and is persistent wherever it is queued. */
  ghost predicate Lasting(b: Bus, u: nat) {
    && u < b.next && u !in b.destroyed
    && forall i :: 0 <= i < |b.slots| ==> PersistentIn(b.slots[i].client.queue, u)
  }

  predicate UsesPersistent(op: BusOp, u: nat) {
    (op.DispatchHeld? || op.Release?) && op.event.uid == u ==> op.event.flags.persistent
  }

  lemma PushKeepsPersistent(c: Client, e: Event, source: Option<ClientId>, u: nat)
    requires PersistentIn(c.queue, u) && (e.uid == u ==> e.flags.persistent)
    ensures PersistentIn(PushTo(c, e, source).queue, u) && u !in PushDeletes(c, e)
  {
    var i := FirstWithId(c.queue, e.id);
    var d := DropAt(c.queue, i);
    assert forall k :: 0 <= k < |d| ==> d[k] == c.queue[if k < i then k else k + 1];
  }

  lemma {:induction false} BroadcastKeepsPersistent(slots: seq<Slot>, e: Event, source: Option<ClientId>,
                                                    next: nat, u: nat)
    requires u < next && forall i :: 0 <= i < |slots| ==> PersistentIn(slots[i].client.queue, u)
    ensures u !in BroadcastDeletes(slots, e, next)
    ensures forall i :: 0 <= i < |slots| ==>
              PersistentIn(BroadcastSlots(slots, e, source, next)[i].client.queue, u)
    decreases |slots|
  {
    if slots != [] {
      hide PersistentIn, PushTo, PushDeletes, EnabledCount;
      var n := |slots| - 1;
      BroadcastKeepsPersistent(slots[..n], e, source, next, u);
      BroadcastInit(slots, e, source, next);
      PushKeepsPersistent(slots[n].client, Clone(e, next + EnabledCount(slots[..n])), source, u);
    }
  }

  lemma {:induction false} QueueDeletesPersistent(q: seq<Event>, u: nat)
    requires PersistentIn(q, u)
    ensures u !in QueueDeletes(q)
  {
    if q != [] {
      assert forall j :: 0 <= j < |q[1..]| ==> q[1..][j] == q[j + 1];
      QueueDeletesPersistent(q[1..], u);
    }
  }

  lemma DispatchKeepsPersistent(b: Bus, e: Event, source: Option<ClientId>, target: Target, u: nat)
    requires Lasting(b, u) && (e.uid == u ==> e.flags.persistent)
    ensures Lasting(Dispatch(b, e, source, target), u)
  {
    hide PersistentIn, PushTo, PushDeletes, EnabledCount, BroadcastDeletes, BroadcastSlots;
    var e' := e.(target := target);
    if target.Broadcast? {
      BroadcastKeepsPersistent(b.slots, e', source, b.next, u);
    } else if target.To? && Registered(b, target.client) {
      PushKeepsPersistent(b.slots[IndexOf(b.slots, target.client)].client, e', source, u);
    }
  }

  lemma StepKeepsPersistent(b: Bus, op: BusOp, u: nat)
    requires Lasting(b, u) && UsesPersistent(op, u)
    ensures Lasting(Step(b, op), u)
  {
    hide Dispatch, QueueDeletes;
    match op {
      case DispatchNew(e, source, target) =>
        DispatchKeepsPersistent(b.(next := b.next + 1), e.(uid := b.next), source, target, u);
      case DispatchHeld(e, source, target) =>
        DispatchKeepsPersistent(b.(handed := b.handed - multiset{e.uid}), e, source, target, u);
      case DeleteClient(c) =>
        var i := IndexOf(b.slots, c);
        if i < |b.slots| { QueueDeletesPersistent(b.slots[i].client.queue, u); }
      case _ =>
    }
  }

  /** No bus operation deletes a persistent event, whether it is replaced, refused, sent to
      nobody, broadcast, released or queued at a client that is deleted. */
  lemma {:induction false} PersistentIsNeverDeleted(b: Bus, ops: seq<BusOp>, u: nat)
    requires Lasting(b, u) && forall i :: 0 <= i < |ops| ==> UsesPersistent(ops[i], u)
    ensures Lasting(Steps(b, ops), u)
    decreases |ops|
  {
    hide Step, Lasting, UsesPersistent;
    if ops != [] {
      PersistentIsNeverDeleted(b, ops[..|ops| - 1], u);
      StepKeepsPersistent(Steps(b, ops[..|ops| - 1]), ops[|ops| - 1], u);
    }
  }

  /** A consumer that pops an event and releases what it got acts on an event it owns. */
  lemma PopThenReleaseIsOwned(b: Bus, c: ClientId, e: Event)
    requires Balanced(b) && Registered(b, c) && Front(Lookup(b, c)).Some?
    requires !e.flags.persistent
    requires e.uid == if Front(Lookup(b, c)).value.flags.sticky then b.next else Front(Lookup(b, c)).value.uid
    ensures OwnedRun(b, [PopEvent(c), Release(e)])
  {
  }

  // ----- shutdown -----

  predicate ProperOp(op: BusOp) {
    (op.DispatchNew? || op.DispatchHeld?) ==> ProperQuit(op.event)
  }

  ghost predicate ProperOps(ops: seq<BusOp>) {
    forall i :: 0 <= i < |ops| ==> ProperOp(ops[i])
  }

  /** Every queue is well shaped, and every QUIT in it is sticky and high-priority. */
  ghost predicate Sound(b: Bus) {
    forall c :: Registered(b, c) ==> WellShaped(Lookup(b, c)) && ProperQuits(Lookup(b, c).queue)
  }

  lemma StepKeepsSound(b: Bus, op: BusOp)
    requires Sound(b) && DistinctIds(b.slots) && ProperOp(op)
    ensures Sound(Step(b, op)) && DistinctIds(Step(b, op).slots)
  {
    var r := Step(b, op);
    StepKeepsDistinct(b, op);
    forall c | Registered(r, c) ensures WellShaped(Lookup(r, c)) && ProperQuits(Lookup(r, c).queue) {
      if Registered(b, c) && op != DeleteClient(c) {
        StepProjects(b, op, c);
        RunKeepsShape(Lookup(b, c), Project(b, op, c));
        QuitStays(Lookup(b, c), Project(b, op, c));
      } else {
        NewlyRegistered(b, op, c);
      }
    }
  }

  lemma {:induction false} RunKeepsSound(b: Bus, ops: seq<BusOp>)
    requires Sound(b) && DistinctIds(b.slots) && ProperOps(ops)
    ensures Sound(Steps(b, ops)) && DistinctIds(Steps(b, ops).slots)
    decreases |ops|
  {
    if ops != [] {
      RunKeepsSound(b, ops[..|ops| - 1]);
      StepKeepsSound(Steps(b, ops[..|ops| - 1]), ops[|ops| - 1]);
    }
  }

  lemma {:induction false} HeldQuitStays(b: Bus, ops: seq<BusOp>, c: ClientId)
    requires Sound(b) && DistinctIds(b.slots) && ProperOps(ops)
    requires Registered(b, c) && HoldsQuit(Lookup(b, c)) && DeleteClient(c) !in ops
    ensures var r := Steps(b, ops);
            Registered(r, c) && HoldsQuit(Lookup(r, c)) && FrontIsHigh(Lookup(r, c))
    decreases |ops|
  {
    if ops == [] {
      QuitStays(Lookup(b, c), []);
    } else {
      hide Step, Project;
      var before, op := ops[..|ops| - 1], ops[|ops| - 1];
      HeldQuitStays(b, before, c);
      RunKeepsSound(b, before);
      var m := Steps(b, before);
      StepProjects(m, op, c);
      QuitStays(Lookup(m, c), Project(m, op, c));
    }
  }

  /** Once a QUIT broadcast completes, every client that was enabled holds a QUIT for the
      rest of its life, and whatever is popped from it then has high priority. */
  lemma QuitReachesEveryone(setup: seq<BusOp>, quit: Event, source: Option<ClientId>, later: seq<BusOp>, c: ClientId)
    requires ProperOps(setup) && ProperOps(later) && DeleteClient(c) !in later
    requires quit.id == QUIT && ProperQuit(quit)
    requires Registered(Steps(EMPTY_BUS, setup), c) && Lookup(Steps(EMPTY_BUS, setup), c).enabled
    ensures var r := Steps(Step(Steps(EMPTY_BUS, setup), DispatchNew(quit, source, Broadcast)), later);
            Registered(r, c) && HoldsQuit(Lookup(r, c)) && FrontIsHigh(Lookup(r, c))
  {
    RunKeepsSound(EMPTY_BUS, setup);
    var b, op := Steps(EMPTY_BUS, setup), DispatchNew(quit, source, Broadcast);
    StepKeepsSound(b, op);
    QuitArrives(b, quit, source, c);
    HeldQuitStays(Step(b, op), later, c);
  }

  lemma QuitArrives(b: Bus, quit: Event, source: Option<ClientId>, c: ClientId)
    requires Registered(b, c) && Lookup(b, c).enabled && ProperQuits(Lookup(b, c).queue)
    requires quit.id == QUIT && ProperQuit(quit)
    ensures var r := Step(b, DispatchNew(quit, source, Broadcast));
            Registered(r, c) && HoldsQuit(Lookup(r, c))
  {
    StepProjects(b, DispatchNew(quit, source, Broadcast), c);
    hide Step;
    var p, d := Project(b, DispatchNew(quit, source, Broadcast), c), Lookup(b, c);
    RunOne(d, p[0]);
    AcceptKeepsQuits(d.queue, Stamp(p[0].event, source, d.accepted));
  }
}
