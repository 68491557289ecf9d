/** The event clients as objects updated in place, refining the bus of EventBus. */
module EventClients {
  import opened Events
  import opened ClientQueue
  import opened EventBus

  class EventClient {
    const id: ClientId
    var enabled: bool
    var queue: seq<Event>
    var accepted: nat

    constructor (id: ClientId)
      ensures this.id == id && enabled && queue == [] && View() == NEW_CLIENT
    {
      this.id := id;
      enabled, queue, accepted := true, [], 0;
    }

    function View(): Client
      reads this
    {
      Client(enabled, queue, accepted)
    }

    /** Search the queue from the front. */
    method Find(eventId: nat) returns (i: nat)
      ensures i == FirstWithId(queue, eventId)
    {
      i := 0;
      while i < |queue| && queue[i].id != eventId
        invariant i <= |queue| && forall j :: 0 <= j < i ==> queue[j].id != eventId
      {
        i := i + 1;
      }
      FirstWithIdIs(queue, eventId, i);
    }

    method EventPush(e: Event, source: Option<ClientId>) returns (ghost deleted: multiset<nat>)
      modifies this
      ensures View() == PushTo(old(View()), e, source)
      ensures deleted == PushDeletes(old(View()), e)
    {
      deleted := multiset{};
      if !enabled {
        deleted := Deleted(e);
        return;
      }
      if e.flags.exclusive {
        var i := Find(e.id);
        if i < |queue| {
          deleted := Deleted(queue[i]);
          queue := queue[..i] + queue[i + 1..];
        }
      }
      var stamped := e.(source := source, arrival := accepted);
      accepted := accepted + 1;
      if e.flags.highPriority {
        queue := [stamped] + queue;
      } else {
        queue := queue + [stamped];
      }
    }

    /** `uid` is the identity of the copy made if the front event is sticky. */
    method EventPop(uid: nat) returns (r: Option<Event>)
      modifies this
      ensures View() == PopFrom(old(View()))
      ensures r == match Front(old(View()))
                   case None => None
                   case Some(e) => Some(if e.flags.sticky then Clone(e, uid) else e)
    {
      r := None;
      if |queue| > 0 {
        if queue[0].flags.sticky {
          r := Some(Clone(queue[0], uid));
        } else {
          r := Some(queue[0]);
          queue := queue[1..];
        }
      }
    }

    method EventsEnable(on: bool)
      modifies this`enabled
      ensures View() == old(View()).(enabled := on)
    {
      enabled := on;
    }
  }

  lemma {:induction false} FirstWithIdIs(q: seq<Event>, id: nat, i: nat)
    requires i <= |q| && (i < |q| ==> q[i].id == id) && forall j :: 0 <= j < i ==> q[j].id != id
    ensures FirstWithId(q, id) == i
  {
  }

  lemma PopSticky(c: Client)
    ensures Front(c).None? || Front(c).value.flags.sticky ==> PopFrom(c) == c
  {
  }

  /** The static registry that every event client shares. */
  class Registry {
    var clients: seq<EventClient>
    var next: nat
    ghost var handed: multiset<nat>
    ghost var destroyed: multiset<nat>

    constructor ()
      ensures Valid() && View() == EMPTY_BUS
    {
      clients, next := [], 0;
      handed, destroyed := multiset{}, multiset{};
    }

    ghost predicate Valid()
      reads this`clients, clients
    {
      forall i, j :: 0 <= i < j < |clients| ==> clients[i] != clients[j] && clients[i].id != clients[j].id
    }

    ghost function Slots(): (s: seq<Slot>)
      reads this`clients, clients
      ensures |s| == |clients|
      ensures forall i :: 0 <= i < |s| ==> s[i] == Slot(clients[i].id, clients[i].View())
    {
      var cs := clients;
      seq(|cs|, i requires 0 <= i < |cs| reads cs => Slot(cs[i].id, cs[i].View()))
    }

    ghost function View(): Bus
      reads this, clients
    {
      Bus(Slots(), next, handed, destroyed)
    }

    method Find(c: ClientId) returns (i: nat)
      requires Valid()
      ensures i == IndexOf(Slots(), c)
    {
      i := 0;
      while i < |clients| && clients[i].id != c
        invariant i <= |clients| && forall j :: 0 <= j < i ==> clients[j].id != c
      {
        i := i + 1;
      }
      if i < |clients| {
        IndexOfFirst(Slots(), c, i);
      }
    }

    /** What the constructor of an event client does to the registry. */
    method Add(client: EventClient)
      requires Valid() && client !in clients && client.View() == NEW_CLIENT
      requires forall i :: 0 <= i < |clients| ==> clients[i].id != client.id
      modifies this`clients
      ensures Valid() && View() == Register(old(View()), client.id)
    {
      assert !Registered(View(), client.id);
      clients := clients + [client];
    }

    /** What the destructor of a registered event client does: destroy what it queues, then
        leave the registry. */
    method Remove(client: EventClient)
      requires Valid() && client in clients
      modifies this, client
      ensures Valid() && View() == Unregister(old(View()), client.id)
    {
      hide QueueDeletes;
      var i := Find(client.id);
      assert clients[i] == client;
      RemoveSlot(i);
    }

    method RemoveSlot(i: nat)
      requires Valid() && i < |clients|
      modifies this`clients, this`destroyed, clients[i]
      ensures Valid() && Slots() == old(Slots()[..i] + Slots()[i + 1..])
      ensures next == old(next) && handed == old(handed)
      ensures destroyed == old(destroyed) + QueueDeletes(old(Slots()[i].client.queue))
    {
      hide QueueDeletes;
      DestroyAll(clients[i].queue);
      RemoveAt(i);
    }

    method RemoveAt(i: nat)
      requires Valid() && i < |clients|
      modifies this`clients, clients[i]
      ensures Valid() && Slots() == old(Slots()[..i] + Slots()[i + 1..])
    {
      ghost var slots := Slots();
      var client := clients[i];
      clients := clients[..i] + clients[i + 1..];
      assert client !in clients;
      client.queue := [];
      assert Slots() == slots[..i] + slots[i + 1..];
    }

    method DestroyAll(q: seq<Event>)
      modifies this`destroyed
      ensures destroyed == old(destroyed) + QueueDeletes(q)
    {
      var k := 0;
      while k < |q|
        invariant k <= |q|
        invariant destroyed + QueueDeletes(q[k..]) == old(destroyed) + QueueDeletes(q)
      {
        assert q[k..][1..] == q[k + 1..];
        destroyed := destroyed + Deleted(q[k]);
        k := k + 1;
      }
    }

    method EventDispatch(e: Event, source: Option<ClientId>, target: Target)
      requires Valid()
      modifies this`next, this`destroyed, clients
      ensures Valid() && View() == Dispatch(old(View()), e, source, target)
    {
      hide SendTo, SendAll, Deleted;
      var aimed := e.(target := target);
      match target {
        case Broadcast => BroadcastAll(aimed, source);
        case To(c) =>
          var i := Find(c);
          if i < |clients| {
            PushAt(i, aimed, source);
          } else {
            destroyed := destroyed + Deleted(aimed);
          }
        case Unset =>
          destroyed := destroyed + Deleted(aimed);
      }
    }

    /** Create an event object and dispatch it. */
    method DispatchNewEvent(e: Event, source: Option<ClientId>, target: Target)
      requires Valid()
      modifies this`next, this`destroyed, clients
      ensures Valid() && View() == DispatchCreated(old(View()), e, source, target)
    {
      hide Dispatch;
      var uid := next;
      next := next + 1;
      EventDispatch(e.(uid := uid), source, target);
    }

    method PushAt(i: nat, e: Event, source: Option<ClientId>)
      requires Valid() && i < |clients|
      modifies this`destroyed, clients[i]
      ensures Valid() && View() == SendTo(old(View()), e, source, i)
    {
      hide PushTo, PushDeletes;
      ghost var slots := Slots();
      ghost var deleted := clients[i].EventPush(e, source);
      destroyed := destroyed + deleted;
      assert Slots() == SetClient(slots, i, PushTo(slots[i].client, e, source));
    }

    method BroadcastAll(e: Event, source: Option<ClientId>)
      requires Valid()
      modifies this`next, this`destroyed, clients
      ensures Valid() && View() == SendAll(old(View()), e, source)
    {
      hide PushTo, PushDeletes, Deleted, EnabledCount, BroadcastDeletes, BroadcastSlot, Clone;
      ghost var slots, all := Slots(), multiset{};
      BroadcastNone(slots, e, next);
      var first, i := next, 0;
      while i < |clients|
        invariant i <= |clients| && Valid() && next == first + EnabledCount(slots[..i])
        invariant destroyed == old(destroyed) && all == BroadcastDeletes(slots[..i], e, first)
        invariant forall j :: 0 <= j < i ==> clients[j].View() == BroadcastSlot(slots, j, e, source, first).client
        invariant forall j :: i <= j < |clients| ==> clients[j].View() == slots[j].client
      {
        BroadcastNext(slots, i, e, source, first);
        ghost var deleted := SendCopy(clients[i], e, source);
        assert clients[i].View() == BroadcastSlot(slots, i, e, source, first).client;
        all := all + deleted;
        i := i + 1;
      }
      assert slots[..|slots|] == slots;
      destroyed := destroyed + all + Deleted(e);
      assert Slots() == BroadcastSlots(slots, e, source, first);
    }

    method SendCopy(client: EventClient, e: Event, source: Option<ClientId>) returns (ghost deleted: multiset<nat>)
      modifies this`next, client
      ensures client.View() ==
              if old(client.enabled) then PushTo(old(client.View()), Clone(e, old(next)), source)
              else old(client.View())
      ensures next == old(next) + if old(client.enabled) then 1 else 0
      ensures deleted ==
              if old(client.enabled) then PushDeletes(old(client.View()), Clone(e, old(next))) else multiset{}
    {
      hide PushTo, PushDeletes;
      deleted := multiset{};
      if client.enabled {
        deleted := client.EventPush(Clone(e, next), source);
        next := next + 1;
      }
    }

    method EventPop(client: EventClient) returns (r: Option<Event>)
      requires Valid() && client in clients
      modifies this`next, this`handed, client
      ensures Valid() && View() == PopClient(old(View()), client.id)
      ensures r.None? <==> old(client.queue) == []
      ensures r.Some? ==> r.value == old(client.queue[0]).(uid := r.value.uid)
      ensures r.Some? ==> handed == old(handed) + multiset{r.value.uid}
    {
      hide PopAt;
      ghost var i := IndexOf(Slots(), client.id);
      assert clients[i] == client;
      r := PopSlot(client, i);
    }

    method PopSlot(client: EventClient, ghost i: nat) returns (r: Option<Event>)
      requires Valid() && i < |clients| && clients[i] == client
      modifies this`next, this`handed, client
      ensures Valid() && View() == PopAt(old(View()), i)
      ensures r.None? <==> old(client.queue) == []
      ensures r.Some? ==> r.value == old(client.queue[0]).(uid := r.value.uid)
      ensures r.Some? ==> handed == old(handed) + multiset{r.value.uid}
    {
      hide PopFrom;
      ghost var slots := Slots();
      PopSticky(client.View());
      var copied := |client.queue| > 0 && client.queue[0].flags.sticky;
      r := client.EventPop(next);
      if r.Some? { handed := handed + multiset{r.value.uid}; }
      if copied { next := next + 1; }
      assert Slots() == SetClient(slots, i, PopFrom(slots[i].client));
    }
  }
}
