/** A broadcast one push at a time. The thread that broadcasts holds the registry mutex, which
    keeps out other dispatches and the construction and destruction of clients, but not pops,
    enable calls or direct pushes. */
module BroadcastSteps {
  import opened Events
  import opened ClientQueue
  import opened EventBus

  /** A broadcast under way: `at` is the position in the registry, and `chosen` says that the
      client there was found enabled and its push comes next. */
  datatype Cast = Cast(event: Event, source: Option<ClientId>, at: nat, chosen: bool)

  datatype System = System(bus: Bus, cast: Option<Cast>)

  const START := System(EMPTY_BUS, None)

  datatype Act =
    | Atomic(op: BusOp)
    | PushDirectly(client: ClientId, event: Event, source: Option<ClientId>)
    | Begin(event: Event, source: Option<ClientId>)
    | Look
    | PushCopy
    | End

  /** The operation takes the registry mutex. */
  predicate NeedsRegistry(op: BusOp) {
    op.NewClient? || op.DeleteClient? || op.DispatchNew? || op.DispatchHeld?
  }

  predicate Can(s: System, a: Act) {
    match a
    case Atomic(op) => s.cast.Some? ==> !NeedsRegistry(op)
    case PushDirectly(_, _, _) => true
    case Begin(_, _) => s.cast.None?
    case Look => s.cast.Some? && !s.cast.value.chosen && s.cast.value.at < |s.bus.slots|
    case PushCopy => s.cast.Some? && s.cast.value.chosen && s.cast.value.at < |s.bus.slots|
    case End => s.cast.Some? && !s.cast.value.chosen && s.cast.value.at >= |s.bus.slots|
  }

  /** Push a new object to the client at position `i`. */
  function PushNew(b: Bus, e: Event, source: Option<ClientId>, i: nat): Bus
    requires i < |b.slots|
  {
    SendTo(b.(next := b.next + 1), e.(uid := b.next), source, i)
  }

  function Do(s: System, a: Act): System
    requires Can(s, a)
  {
    match a
    case Atomic(op) => s.(bus := Step(s.bus, op))
    case PushDirectly(c, e, source) =>
      if Registered(s.bus, c) then s.(bus := PushNew(s.bus, e, source, IndexOf(s.bus.slots, c))) else s
    case Begin(e, source) =>
      System(s.bus.(next := s.bus.next + 1),
             Some(Cast(e.(uid := s.bus.next, target := Broadcast), source, 0, false)))
    case Look =>
      var cast := s.cast.value;
      if s.bus.slots[cast.at].client.enabled then s.(cast := Some(cast.(chosen := true)))
      else s.(cast := Some(cast.(at := cast.at + 1)))
    case PushCopy =>
      var cast := s.cast.value;
      System(PushNew(s.bus, cast.event, cast.source, cast.at), Some(cast.(at := cast.at + 1, chosen := false)))
    case End =>
      System(s.bus.(destroyed := s.bus.destroyed + Deleted(s.cast.value.event)), None)
  }

  ghost predicate IsRun(s: System, acts: seq<Act>)
    decreases |acts|
  {
    acts == [] || (Can(s, acts[0]) && IsRun(Do(s, acts[0]), acts[1..]))
  }

  ghost function After(s: System, acts: seq<Act>): System
    requires IsRun(s, acts)
    decreases |acts|
  {
    if acts == [] then s else After(Do(s, acts[0]), acts[1..])
  }

  /** Pops, enable calls, releases and direct pushes are possible at any time, also between the
      pushes of a broadcast. */
  lemma AlwaysPossible(s: System, c: ClientId, on: bool, e: Event, source: Option<ClientId>)
    ensures Can(s, Atomic(PopEvent(c))) && Can(s, Atomic(SetEnabled(c, on))) && Can(s, Atomic(Release(e)))
    ensures Can(s, PushDirectly(c, e, source))
  {
  }

  /** The position of a broadcast that has chosen a client is that of a client. */
  ghost predicate InRange(s: System) {
    s.cast.Some? && s.cast.value.chosen ==> s.cast.value.at < |s.bus.slots|
  }

  lemma ActKeepsRange(s: System, a: Act)
    requires InRange(s) && Can(s, a)
    ensures InRange(Do(s, a))
  {
    hide Step, PushTo, PushDeletes;
    if a.Atomic? && s.cast.Some? { StepIds(s.bus, a.op); }
  }

  /** Whatever happens in between, a broadcast that has begun can go on. */
  lemma {:induction false} BroadcastGoesOn(s: System, acts: seq<Act>)
    requires InRange(s) && IsRun(s, acts)
    ensures var t := After(s, acts); t.cast.Some? ==> Can(t, Look) || Can(t, PushCopy) || Can(t, End)
    decreases |acts|
  {
    hide Do;
    if acts != [] {
      ActKeepsRange(s, acts[0]);
      BroadcastGoesOn(Do(s, acts[0]), acts[1..]);
    }
  }

  // ----- what one client sees -----

  /** The queue operations an act performs on client `c`. */
  function ActOps(s: System, a: Act, c: ClientId): seq<Op>
    requires Can(s, a) && Registered(s.bus, c)
  {
    match a
    case Atomic(op) => Project(s.bus, op, c)
    case PushDirectly(d, e, source) => if d == c then [Push(e.(uid := s.bus.next), source)] else []
    case PushCopy =>
      var cast := s.cast.value;
      if IndexOf(s.bus.slots, c) == cast.at then [Push(Clone(cast.event, s.bus.next), cast.source)] else []
    case _ => []
  }

  lemma PushNewProjects(b: Bus, e: Event, source: Option<ClientId>, i: nat, c: ClientId)
    requires Registered(b, c) && i < |b.slots|
    ensures Holds(PushNew(b, e, source, i), c,
                  Run(Lookup(b, c), if i == IndexOf(b.slots, c) then [Push(e.(uid := b.next), source)] else []))
  {
    hide PushTo, SendTo;
    var b' := b.(next := b.next + 1);
    assert Registered(b', c) && Lookup(b', c) == Lookup(b, c);
    SendToProjects(b', e.(uid := b.next), source, i, c);
    RunOne(Lookup(b, c), Push(e.(uid := b.next), source));
  }

  lemma ActProjects(s: System, a: Act, c: ClientId)
    requires Can(s, a) && Registered(s.bus, c) && a != Atomic(DeleteClient(c))
    ensures Holds(Do(s, a).bus, c, Run(Lookup(s.bus, c), ActOps(s, a, c)))
  {
    hide PushNew, Step, Project;
    match a {
      case Atomic(op) => StepProjects(s.bus, op, c);
      case PushDirectly(d, e, source) =>
        if Registered(s.bus, d) { PushNewProjects(s.bus, e, source, IndexOf(s.bus.slots, d), c); }
      case PushCopy =>
        var cast := s.cast.value;
        PushNewProjects(s.bus, cast.event, cast.source, cast.at, c);
      case _ =>
    }
  }

  /** No act but construction and destruction changes who is registered. */
  lemma ActIds(s: System, a: Act)
    requires Can(s, a) && !(a.Atomic? && (a.op.NewClient? || a.op.DeleteClient?))
    ensures SameRegistry(s.bus, Do(s, a).bus)
  {
    hide Step, PushTo, PushDeletes;
    if a.Atomic? { StepIds(s.bus, a.op); }
  }

  lemma ActKeepsRegistry(s: System, a: Act, c: ClientId)
    requires Can(s, a) && !(a.Atomic? && (a.op.NewClient? || a.op.DeleteClient?))
    ensures IndexOf(Do(s, a).bus.slots, c) == IndexOf(s.bus.slots, c) && |Do(s, a).bus.slots| == |s.bus.slots|
  {
    hide Do, IndexOf;
    ActIds(s, a);
    SameIds(s.bus.slots, Do(s, a).bus.slots, c);
  }

  // ----- every queue keeps its order, every QUIT its flags -----

  predicate ProperAct(a: Act) {
    match a
    case Atomic(op) => ProperOp(op)
    case PushDirectly(_, e, _) => ProperQuit(e)
    case Begin(e, _) => ProperQuit(e)
    case _ => true
  }

  ghost predicate ProperActs(acts: seq<Act>) {
    forall i :: 0 <= i < |acts| ==> ProperAct(acts[i])
  }

  ghost predicate SoundSystem(s: System) {
    Sound(s.bus) && DistinctIds(s.bus.slots) && (s.cast.Some? ==> ProperQuit(s.cast.value.event))
  }

  lemma ActOpsProper(s: System, a: Act, c: ClientId)
    requires SoundSystem(s) && Can(s, a) && ProperAct(a) && Registered(s.bus, c)
    ensures OpsProper(ActOps(s, a, c))
  {
  }

  lemma ActKeepsSound(s: System, a: Act)
    requires SoundSystem(s) && Can(s, a) && ProperAct(a)
    ensures SoundSystem(Do(s, a))
  {
    if a.Atomic? {
      StepKeepsSound(s.bus, a.op);
    } else {
      ActKeepsQueues(s, a);
    }
  }

  lemma ActKeepsQueues(s: System, a: Act)
    requires SoundSystem(s) && Can(s, a) && ProperAct(a) && !a.Atomic?
    ensures Sound(Do(s, a).bus) && DistinctIds(Do(s, a).bus.slots)
  {
    hide Do, ActOps, WellShaped, ProperQuits, OpsProper;
    ActIds(s, a);
    var r := Do(s, a).bus;
    forall c | Registered(r, c) ensures WellShaped(Lookup(r, c)) && ProperQuits(Lookup(r, c).queue) {
      ActKeepsRegistry(s, a, c);
      ActProjects(s, a, c);
      ActOpsProper(s, a, c);
      RunKeepsShape(Lookup(s.bus, c), ActOps(s, a, c));
      QuitStays(Lookup(s.bus, c), ActOps(s, a, c));
    }
  }

  lemma {:induction false} RunKeepsSystemSound(s: System, acts: seq<Act>)
    requires SoundSystem(s) && IsRun(s, acts) && ProperActs(acts)
    ensures SoundSystem(After(s, acts))
    decreases |acts|
  {
    hide Do, Can, SoundSystem, ProperAct;
    if acts != [] {
      ActKeepsSound(s, acts[0]);
      RunKeepsSystemSound(Do(s, acts[0]), acts[1..]);
    }
  }

  // ----- a QUIT that has arrived stays -----

  ghost predicate Quits(s: System, c: ClientId) {
    Registered(s.bus, c) && HoldsQuit(Lookup(s.bus, c))
  }

  lemma ActKeepsQuit(s: System, a: Act, c: ClientId)
    requires SoundSystem(s) && Can(s, a) && ProperAct(a) && a != Atomic(DeleteClient(c)) && Quits(s, c)
    ensures Quits(Do(s, a), c)
  {
    hide Do, ActOps, HoldsQuit, OpsProper;
    ActProjects(s, a, c);
    ActOpsProper(s, a, c);
    QuitStays(Lookup(s.bus, c), ActOps(s, a, c));
  }

  lemma {:induction false} QuitStaysForLife(s: System, acts: seq<Act>, c: ClientId)
    requires SoundSystem(s) && IsRun(s, acts) && ProperActs(acts) && Quits(s, c)
    requires Atomic(DeleteClient(c)) !in acts
    ensures var t := After(s, acts); Quits(t, c) && FrontIsHigh(Lookup(t.bus, c))
    decreases |acts|
  {
    hide Do, Can, ProperAct;
    if acts == [] {
      QuitStays(Lookup(s.bus, c), []);
    } else {
      assert acts[0] in acts;
      ActKeepsSound(s, acts[0]);
      ActKeepsQuit(s, acts[0], c);
      QuitStaysForLife(Do(s, acts[0]), acts[1..], c);
    }
  }

  // ----- a broadcast QUIT reaches every client whose turn finds it enabled -----

  /** The broadcast of a QUIT is about to push its copy to client `c`, which is enabled. */
  ghost predicate TurnOf(s: System, c: ClientId) {
    && Registered(s.bus, c) && Lookup(s.bus, c).enabled
    && s.cast.Some? && s.cast.value.event.id == QUIT && s.cast.value.chosen
    && s.cast.value.at == IndexOf(s.bus.slots, c)
  }

  lemma TurnDelivers(s: System, c: ClientId)
    requires SoundSystem(s) && TurnOf(s, c)
    ensures Can(s, PushCopy) && Quits(Do(s, PushCopy), c)
  {
    ActProjects(s, PushCopy, c);
    hide Do, PushNew;
    var d, p := Lookup(s.bus, c), ActOps(s, PushCopy, c);
    RunOne(d, p[0]);
    AcceptKeepsQuits(d.queue, Stamp(p[0].event, p[0].source, d.accepted));
  }

  /** Whatever falls between the pushes of a QUIT broadcast, a client that is enabled when its
      copy is pushed holds a QUIT from then on for the rest of its life, and whatever it pops
      then has high priority. */
  lemma QuitFromItsTurnOn(setup: seq<Act>, later: seq<Act>, c: ClientId)
    requires ProperActs(setup) && IsRun(START, setup) && TurnOf(After(START, setup), c)
    requires IsRun(Do(After(START, setup), PushCopy), later)
    requires ProperActs(later) && Atomic(DeleteClient(c)) !in later
    ensures var t := After(Do(After(START, setup), PushCopy), later);
            Quits(t, c) && FrontIsHigh(Lookup(t.bus, c))
  {
    hide Do, ProperActs, Quits, TurnOf;
    RunKeepsSystemSound(START, setup);
    var s := After(START, setup);
    TurnDelivers(s, c);
    ActKeepsSound(s, PushCopy);
    QuitStaysForLife(Do(s, PushCopy), later, c);
  }

  /** The broadcast of a QUIT has delivered it to `c`, or has yet to come to `c`, which is
      enabled. */
  ghost predicate OnItsWay(s: System, c: ClientId) {
    Quits(s, c) || (Registered(s.bus, c) && Lookup(s.bus, c).enabled && s.cast.Some?
                    && s.cast.value.event.id == QUIT && s.cast.value.at <= IndexOf(s.bus.slots, c))
  }

  lemma EnabledStays(s: System, a: Act, c: ClientId)
    requires Can(s, a) && Registered(s.bus, c) && Lookup(s.bus, c).enabled
    requires a != Atomic(DeleteClient(c)) && a != Atomic(SetEnabled(c, false))
    ensures Registered(Do(s, a).bus, c) && Lookup(Do(s, a).bus, c).enabled
  {
    hide Do, PushTo;
    ActProjects(s, a, c);
    OpsKeepEnabled(s, a, c);
  }

  lemma OpsKeepEnabled(s: System, a: Act, c: ClientId)
    requires Can(s, a) && Registered(s.bus, c) && Lookup(s.bus, c).enabled && a != Atomic(SetEnabled(c, false))
    ensures Run(Lookup(s.bus, c), ActOps(s, a, c)).enabled
  {
    hide Accept;
    var p := ActOps(s, a, c);
    assert |p| <= 1;
    if p != [] { RunOne(Lookup(s.bus, c), p[0]); }
  }

  lemma ActKeepsOnItsWay(s: System, a: Act, c: ClientId)
    requires SoundSystem(s) && Can(s, a) && ProperAct(a) && OnItsWay(s, c)
    requires a != Atomic(DeleteClient(c)) && a != Atomic(SetEnabled(c, false))
    ensures OnItsWay(Do(s, a), c)
    ensures a.End? ==> Quits(Do(s, a), c)
  {
    if Quits(s, c) {
      ActKeepsQuit(s, a, c);
    } else {
      StillComing(s, a, c);
    }
  }

  lemma StillComing(s: System, a: Act, c: ClientId)
    requires SoundSystem(s) && Can(s, a) && ProperAct(a) && OnItsWay(s, c) && !Quits(s, c)
    requires a != Atomic(DeleteClient(c)) && a != Atomic(SetEnabled(c, false))
    ensures OnItsWay(Do(s, a), c) && !a.End?
  {
    hide Step, PushNew, Quits, SoundSystem, IndexOf;
    EnabledStays(s, a, c);
    if !a.Atomic? || !NeedsRegistry(a.op) { ActKeepsRegistry(s, a, c); }
    if a.PushCopy? && s.cast.value.at == IndexOf(s.bus.slots, c) { TurnDelivers(s, c); }
  }

  lemma {:induction false} RunKeepsOnItsWay(s: System, acts: seq<Act>, c: ClientId)
    requires SoundSystem(s) && IsRun(s, acts) && ProperActs(acts) && OnItsWay(s, c)
    requires Atomic(DeleteClient(c)) !in acts && Atomic(SetEnabled(c, false)) !in acts
    ensures OnItsWay(After(s, acts), c)
    decreases |acts|
  {
    hide Do, Can, ProperAct, OnItsWay, SoundSystem;
    if acts != [] {
      assert acts[0] in acts;
      ActKeepsSound(s, acts[0]);
      ActKeepsOnItsWay(s, acts[0], c);
      RunKeepsOnItsWay(Do(s, acts[0]), acts[1..], c);
    }
  }

  /** A client that is enabled when a QUIT broadcast begins and is not disabled while it is
      under way holds a QUIT when it completes, and for the rest of its life, whatever pops,
      pushes and enable calls fall between the pushes of the broadcast or come after it. */
  lemma SplitQuitReachesEveryone(setup: seq<Act>, quit: Event, source: Option<ClientId>, during: seq<Act>,
                                 later: seq<Act>, c: ClientId)
    requires ProperActs(setup) && ProperActs(during) && ProperActs(later) && quit.id == QUIT && ProperQuit(quit)
    requires IsRun(START, setup) && Can(After(START, setup), Begin(quit, source))
    requires var s := After(START, setup); Registered(s.bus, c) && Lookup(s.bus, c).enabled
    requires IsRun(Do(After(START, setup), Begin(quit, source)), during)
    requires var m := After(Do(After(START, setup), Begin(quit, source)), during);
             Can(m, End) && IsRun(Do(m, End), later)
    requires Atomic(DeleteClient(c)) !in during + later && Atomic(SetEnabled(c, false)) !in during
    ensures var m := After(Do(After(START, setup), Begin(quit, source)), during);
            var t := After(Do(m, End), later);
            Quits(t, c) && FrontIsHigh(Lookup(t.bus, c))
  {
    hide ProperActs, Quits;
    RunKeepsSystemSound(START, setup);
    var s := After(START, setup);
    var b := Do(s, Begin(quit, source));
    ActKeepsSound(s, Begin(quit, source));
    assert OnItsWay(b, c);
    hide Do, OnItsWay;
    RunKeepsSystemSound(b, during);
    RunKeepsOnItsWay(b, during, c);
    var m := After(b, during);
    ActKeepsOnItsWay(m, End, c);
    ActKeepsSound(m, End);
    QuitStaysForLife(Do(m, End), later, c);
  }

  // ----- ownership -----

  /** The object that a broadcast under way holds. */
  function CastOwns(s: System, u: nat): nat {
    if s.cast.Some? && s.cast.value.event.uid == u then 1 else 0
  }

  /** Every created object is queued, handed out, destroyed or being broadcast, and only one of
      these, once. */
  ghost predicate Accounted(s: System) {
    && QueuesOwned(s.bus.slots) && (s.cast.Some? ==> !s.cast.value.event.flags.persistent)
    && forall u: nat :: Owners(s.bus, u) + CastOwns(s, u) == if u < s.bus.next then 1 else 0
  }

  predicate OwnedAct(s: System, a: Act) {
    match a
    case Atomic(op) => Owned(s.bus, op)
    case PushDirectly(_, e, _) => !e.flags.persistent
    case Begin(e, _) => !e.flags.persistent
    case _ => true
  }

  ghost predicate OwnedActs(s: System, acts: seq<Act>)
    requires IsRun(s, acts)
    decreases |acts|
  {
    acts == [] || (OwnedAct(s, acts[0]) && OwnedActs(Do(s, acts[0]), acts[1..]))
  }

  lemma PushNewOwners(b: Bus, e: Event, source: Option<ClientId>, i: nat, u: nat)
    requires QueuesOwned(b.slots) && !e.flags.persistent && i < |b.slots|
    ensures Owners(PushNew(b, e, source, i), u) == Owners(b, u) + if b.next == u then 1 else 0
    ensures QueuesOwned(PushNew(b, e, source, i).slots) && PushNew(b, e, source, i).next == b.next + 1
  {
    SendToOwners(b.(next := b.next + 1), e.(uid := b.next), source, i, u);
  }

  lemma ActOwners(s: System, a: Act, u: nat)
    requires QueuesOwned(s.bus.slots) && (s.cast.Some? ==> !s.cast.value.event.flags.persistent)
    requires Can(s, a) && OwnedAct(s, a)
    ensures var r := Do(s, a);
            && Owners(r.bus, u) + CastOwns(r, u)
               == Owners(s.bus, u) + CastOwns(s, u) + (if s.bus.next <= u < r.bus.next then 1 else 0)
            && QueuesOwned(r.bus.slots) && r.bus.next >= s.bus.next
            && (r.cast.Some? ==> !r.cast.value.event.flags.persistent)
  {
    hide PushNew, Step, QueuesOwned, InQueues;
    match a {
      case Atomic(op) => StepOwners(s.bus, op, u);
      case PushDirectly(c, e, source) =>
        if Registered(s.bus, c) { PushNewOwners(s.bus, e, source, IndexOf(s.bus.slots, c), u); }
      case PushCopy => PushNewOwners(s.bus, s.cast.value.event, s.cast.value.source, s.cast.value.at, u);
      case _ =>
    }
  }

  lemma ActKeepsAccount(s: System, a: Act)
    requires Accounted(s) && Can(s, a) && OwnedAct(s, a)
    ensures Accounted(Do(s, a))
  {
    hide Do, Owners, CastOwns, QueuesOwned;
    ActOwners(s, a, 0);
    var r := Do(s, a);
    forall u: nat ensures Owners(r.bus, u) + CastOwns(r, u) == if u < r.bus.next then 1 else 0 {
      ActOwners(s, a, u);
    }
  }

  /** Also with operations between the pushes of a broadcast, no object is lost, shared or
      destroyed twice. */
  lemma {:induction false} OwnershipWhileBroadcasting(s: System, acts: seq<Act>)
    requires Accounted(s) && IsRun(s, acts) && OwnedActs(s, acts)
    ensures Accounted(After(s, acts))
    decreases |acts|
  {
    hide Do, Can, Accounted, OwnedAct;
    if acts != [] {
      ActKeepsAccount(s, acts[0]);
      OwnershipWhileBroadcasting(Do(s, acts[0]), acts[1..]);
    }
  }

  lemma OwnershipOfEveryRun(acts: seq<Act>)
    requires IsRun(START, acts) && OwnedActs(START, acts)
    ensures Accounted(After(START, acts))
  {
    OwnershipWhileBroadcasting(START, acts);
  }

  // ----- without interference the broadcast is the atomic one -----

  /** The iteration of the broadcast loop for one client. */
  function Turn(enabled: bool): seq<Act> {
    if enabled then [Look, PushCopy] else [Look]
  }

  function Turns(slots: seq<Slot>, i: nat): seq<Act>
    requires i <= |slots|
    decreases |slots| - i
  {
    if i == |slots| then [] else Turn(slots[i].client.enabled) + Turns(slots, i + 1)
  }

  /** The bus after the first `i` iterations of the broadcast of `e`. */
  function Partly(b: Bus, e: Event, source: Option<ClientId>, i: nat): Bus
    requires i <= |b.slots|
  {
    Bus(BroadcastSlots(b.slots, e, source, b.next)[..i] + b.slots[i..], b.next + EnabledCount(b.slots[..i]),
        b.handed, b.destroyed + BroadcastDeletes(b.slots[..i], e, b.next))
  }

  /** A push at position `i` after the pushes before it. */
  lemma PartlyNext(b: Bus, e: Event, source: Option<ClientId>, i: nat)
    requires i < |b.slots|
    ensures Partly(b, e, source, i).slots[i] == b.slots[i]
    ensures Partly(b, e, source, i + 1)
         == if b.slots[i].client.enabled then PushNew(Partly(b, e, source, i), e, source, i)
            else Partly(b, e, source, i)
  {
    hide PushTo, PushDeletes, EnabledCount, BroadcastDeletes, BroadcastSlot;
    BroadcastNext(b.slots, i, e, source, b.next);
    SlotKeepsId(b.slots, i, e, source, b.next);
    var p, q, all := Partly(b, e, source, i), Partly(b, e, source, i + 1), BroadcastSlots(b.slots, e, source, b.next);
    assert all[..i + 1] == all[..i] + [all[i]];
    assert q.slots == p.slots[i := all[i]];
    assert p.slots[i := p.slots[i]] == p.slots;
  }

  lemma SlotKeepsId(slots: seq<Slot>, i: nat, e: Event, source: Option<ClientId>, next: nat)
    requires i < |slots|
    ensures BroadcastSlot(slots, i, e, source, next).id == slots[i].id
  {
  }

  lemma {:induction false} RunsJoin(s: System, x: seq<Act>, y: seq<Act>)
    requires IsRun(s, x) && IsRun(After(s, x), y)
    ensures IsRun(s, x + y) && After(s, x + y) == After(After(s, x), y)
    decreases |x|
  {
    hide Do, Can;
    if x == [] {
      assert x + y == y;
    } else {
      assert (x + y)[1..] == x[1..] + y;
      RunsJoin(Do(s, x[0]), x[1..], y);
    }
  }

  lemma RunOneAct(s: System, a: Act)
    requires Can(s, a)
    ensures IsRun(s, [a]) && After(s, [a]) == Do(s, a)
  {
    hide Do, Can;
    assert [a][1..] == [];
    assert IsRun(Do(s, a), []);
  }

  function CastAt(b: Bus, e: Event, source: Option<ClientId>, i: nat): System
    requires i <= |b.slots|
  {
    System(Partly(b, e, source, i), Some(Cast(e, source, i, false)))
  }

  lemma TurnRuns(b: Bus, e: Event, source: Option<ClientId>, i: nat)
    requires i < |b.slots|
    ensures var turn := Turn(b.slots[i].client.enabled);
            IsRun(CastAt(b, e, source, i), turn)
            && After(CastAt(b, e, source, i), turn) == CastAt(b, e, source, i + 1)
  {
    hide Partly, PushNew;
    PartlyNext(b, e, source, i);
    var s := CastAt(b, e, source, i);
    assert i < |s.bus.slots| by { PartlySize(b, e, source, i); }
    RunOneAct(s, Look);
    if b.slots[i].client.enabled {
      var m := Do(s, Look);
      RunOneAct(m, PushCopy);
      RunsJoin(s, [Look], [PushCopy]);
      assert [Look] + [PushCopy] == [Look, PushCopy];
    }
  }

  lemma PartlySize(b: Bus, e: Event, source: Option<ClientId>, i: nat)
    requires i <= |b.slots|
    ensures |Partly(b, e, source, i).slots| == |b.slots|
  {
  }

  lemma {:induction false} TurnsRun(b: Bus, e: Event, source: Option<ClientId>, i: nat)
    requires i <= |b.slots|
    ensures IsRun(CastAt(b, e, source, i), Turns(b.slots, i))
    ensures After(CastAt(b, e, source, i), Turns(b.slots, i)) == CastAt(b, e, source, |b.slots|)
    decreases |b.slots| - i
  {
    hide CastAt, IsRun, After, Turn;
    if i == |b.slots| {
      RunNothing(CastAt(b, e, source, i));
    } else {
      TurnRuns(b, e, source, i);
      TurnsRun(b, e, source, i + 1);
      RunsJoin(CastAt(b, e, source, i), Turn(b.slots[i].client.enabled), Turns(b.slots, i + 1));
    }
  }

  lemma RunNothing(s: System)
    ensures IsRun(s, []) && After(s, []) == s
  {
  }

  lemma CastBegins(b: Bus, e: Event, source: Option<ClientId>)
    ensures Do(System(b, None), Begin(e, source))
         == CastAt(b.(next := b.next + 1), e.(uid := b.next, target := Broadcast), source, 0)
  {
  }

  lemma CastEnds(b: Bus, e: Event, source: Option<ClientId>)
    ensures Can(CastAt(b, e, source, |b.slots|), End)
    ensures Do(CastAt(b, e, source, |b.slots|), End) == System(SendAll(b, e, source), None)
  {
    hide BroadcastSlots, BroadcastDeletes, EnabledCount, Deleted;
    assert b.slots[..|b.slots|] == b.slots;
    var all := BroadcastSlots(b.slots, e, source, b.next);
    assert |all| == |b.slots| by { PartlySize(b, e, source, |b.slots|); }
    assert all[..|all|] + b.slots[|b.slots|..] == all;
  }

  lemma CastRuns(s: System, begin: Act, m: System, turns: seq<Act>, n: System)
    requires Can(s, begin) && Do(s, begin) == m && IsRun(m, turns) && After(m, turns) == n && Can(n, End)
    ensures IsRun(s, [begin] + turns + [End]) && After(s, [begin] + turns + [End]) == Do(n, End)
  {
    hide Can, Do, IsRun, After;
    RunOneAct(s, begin);
    RunsJoin(s, [begin], turns);
    RunOneAct(n, End);
    RunsJoin(s, [begin] + turns, [End]);
  }

  lemma AtomicBroadcast(b: Bus, e: Event, source: Option<ClientId>)
    ensures DispatchCreated(b, e, source, Broadcast)
         == SendAll(b.(next := b.next + 1), e.(uid := b.next, target := Broadcast), source)
  {
    hide SendAll;
  }

  /** A broadcast whose pushes nothing falls between does exactly what the atomic dispatch does. */
  lemma UninterruptedIsAtomic(b: Bus, e: Event, source: Option<ClientId>)
    ensures var acts := [Begin(e, source)] + Turns(b.slots, 0) + [End];
            IsRun(System(b, None), acts)
            && After(System(b, None), acts) == System(DispatchCreated(b, e, source, Broadcast), None)
  {
    hide CastAt, IsRun, After, Turns, SendAll, Do, DispatchCreated;
    var s, b', e' := System(b, None), b.(next := b.next + 1), e.(uid := b.next, target := Broadcast);
    CastBegins(b, e, source);
    TurnsRun(b', e', source, 0);
    CastEnds(b', e', source);
    CastRuns(s, Begin(e, source), CastAt(b', e', source, 0), Turns(b.slots, 0), CastAt(b', e', source, |b.slots|));
    AtomicBroadcast(b, e, source);
  }
}
