/** The event object passed between event clients, and its reserved ids. */
module Events {

  datatype Option<+T> = None | Some(value: T)

  /** The address of an event client. */
  type ClientId = nat

  const QUIT: nat := 0
  const TIMER: nat := 2

  /** The reserved ids as the header file numbers them. */
  lemma ReservedIds()
    ensures QUIT == 0x0000 && TIMER == 0x0002
  {
  }

  /** The four flag bits of an event. */
  datatype Flags = Flags(exclusive: bool, highPriority: bool, sticky: bool, persistent: bool)

  const NO_FLAGS := Flags(false, false, false, false)

  datatype Target = Unset | Broadcast | To(client: ClientId)

  /** `uid` is the identity of the object, `arrival` numbers the accepted pushes of the
      client that queues it; both only serve to state properties, no operation tests them.
      `data` is what a derived event carries (for a timer event, the timer). */
  datatype Event = Event(uid: nat, id: nat, flags: Flags, source: Option<ClientId>,
                         target: Target, data: nat, arrival: nat)

  /** A copy of an event is a new object with the same contents. */
  function Clone(e: Event, uid: nat): Event {
    e.(uid := uid)
  }
}
