/** The mutexes of the daemon, the data each of them guards, the order in which every operation
    takes them, and the absence of deadlocks and data races among any number of threads running
    these operations. */
module LockOrder {

  datatype Lock =
    | TimerVector
    | TimerMutex(timer: nat)
    | ClientRegistry
    | QueueMutex(client: nat)
    | ConditionMutex(client: nat)
    | ReplyMutex(event: nat)
    | CriticalSection
    | Logger

  /** The nesting order. Locks of equal rank are never held together. */
  function Rank(l: Lock): (r: nat)
    ensures r <= 4
  {
    match l
    case TimerVector => 0
    case TimerMutex(_) => 1
    case ClientRegistry => 2
    case QueueMutex(_) => 3
    case ConditionMutex(_) => 3
    case ReplyMutex(_) => 3
    case CriticalSection => 3
    case Logger => 4
  }

  /** The data that threads share. `RegistryMutex` is the pointer to the registry's mutex, which
      the first client creates. */
  datatype Data =
    | TimerList
    | TimerState(timer: nat)
    | ClientList
    | Queue(client: nat)
    | Replies(event: nat)
    | RegistryMutex
    | LogOutput

  /** The lock that must be held to touch the data. */
  function Guard(d: Data): Lock {
    match d
    case TimerList => TimerVector
    case TimerState(t) => TimerMutex(t)
    case ClientList => ClientRegistry
    case Queue(c) => QueueMutex(c)
    case Replies(e) => ReplyMutex(e)
    case RegistryMutex => CriticalSection
    case LogOutput => Logger
  }

  datatype Act = Acquire(lock: Lock) | Release(lock: Lock) | Touch(data: Data)

  // ----- the lock operations each call performs, in program order -----

  function Section(l: Lock, inner: seq<Act>): seq<Act> {
    [Acquire(l)] + inner + [Release(l)]
  }

  /** The client destructor takes the second lock before it gives the first one back. */
  function HandOver(l: Lock, first: seq<Act>, m: Lock, second: seq<Act>): seq<Act> {
    [Acquire(l)] + first + ([Acquire(m)] + [Release(l)]) + second + [Release(m)]
  }

  /** A call of the logger; `on` is false when the level is masked or compiled out. */
  function LogActs(on: bool): seq<Act> {
    if on then Section(Logger, [Touch(LogOutput)]) else []
  }

  /** EventPush on a client: nothing at all if the client is disabled. */
  datatype PushCall = PushCall(client: nat, enabled: bool, logs: bool)

  function PushActs(p: PushCall): seq<Act> {
    if p.enabled then Section(QueueMutex(p.client), [Touch(Queue(p.client))] + LogActs(p.logs)) else []
  }

  function PushesActs(ps: seq<PushCall>): seq<Act> {
    if ps == [] then [] else PushActs(ps[0]) + PushesActs(ps[1..])
  }

  /** EventDispatch: under the registry mutex, any number of pushes (several for a broadcast)
      and possibly a log line for an unknown target. */
  datatype DispatchCall = DispatchCall(pushes: seq<PushCall>, logs: bool)

  function DispatchActs(d: DispatchCall): seq<Act> {
    Section(ClientRegistry, [Touch(ClientList)] + (PushesActs(d.pushes) + LogActs(d.logs)))
  }

  /** One iteration of Tick: a timer, and the dispatch it makes if it fires. */
  datatype TimerTick = TimerTick(timer: nat, fires: bool, dispatch: DispatchCall)

  function TimerTickActs(t: TimerTick): seq<Act> {
    Section(TimerMutex(t.timer), [Touch(TimerState(t.timer))] + if t.fires then DispatchActs(t.dispatch) else [])
  }

  function TimerTicksActs(ts: seq<TimerTick>): seq<Act> {
    if ts == [] then [] else TimerTickActs(ts[0]) + TimerTicksActs(ts[1..])
  }

  datatype Call =
    | Tick(timers: seq<TimerTick>)
    | AddOrRemoveTimer
    | TimerField(timer: nat)                 // Start, Stop, SetValue, SetInterval, Extend, GetRemaining
    | Dispatch(dispatch: DispatchCall)
    | PushDirectly(push: PushCall)
    | Pop(client: nat)
    | WaitOnCondition(client: nat)           // before pthread_cond_wait blocks, and again after it wakes
    | ReplyList(event: nat)                  // AddReply, GetReply
    | Log
    | ConstructClient(logs: bool)
    | DestroyClient(logsInside: bool, lastOne: bool)

  function CallActs(c: Call): seq<Act> {
    match c
    case Tick(ts) => Section(TimerVector, [Touch(TimerList)] + TimerTicksActs(ts))
    case AddOrRemoveTimer => Section(TimerVector, [Touch(TimerList)])
    case TimerField(t) => Section(TimerMutex(t), [Touch(TimerState(t))])
    case Dispatch(d) => DispatchActs(d)
    case PushDirectly(p) => PushActs(p)
    case Pop(q) => Section(QueueMutex(q), [Touch(Queue(q))])
    case WaitOnCondition(q) => Section(ConditionMutex(q), [])
    case ReplyList(e) => Section(ReplyMutex(e), [Touch(Replies(e))])
    case Log => LogActs(true)
    case ConstructClient(logs) =>
      Section(CriticalSection, [Touch(RegistryMutex)]) + Section(ClientRegistry, [Touch(ClientList)] + LogActs(logs))
    case DestroyClient(logsInside, lastOne) =>
      HandOver(ClientRegistry, [Touch(ClientList)] + LogActs(logsInside),
               CriticalSection, [Touch(RegistryMutex)] + LogActs(lastOne && logsInside))
  }

  // ----- the discipline -----

  /** Run against the set of held locks, the actions acquire upwards in rank only, release
      only what is held, touch data only under its guard, and end with nothing held. */
  predicate Disciplined(held: set<Lock>, acts: seq<Act>)
    decreases |acts|
  {
    if acts == [] then held == {}
    else match acts[0]
      case Acquire(l) => (forall h :: h in held ==> Rank(h) < Rank(l)) && Disciplined(held + {l}, acts[1..])
      case Release(l) => l in held && Disciplined(held - {l}, acts[1..])
      case Touch(d) => Guard(d) in held && Disciplined(held, acts[1..])
  }

  /** The actions lead from holding `h` to holding `k`, and obey the discipline on the way. */
  ghost predicate Leads(h: set<Lock>, acts: seq<Act>, k: set<Lock>) {
    forall rest :: Disciplined(k, rest) ==> Disciplined(h, acts + rest)
  }

  ghost predicate Nested(held: set<Lock>, acts: seq<Act>) {
    Leads(held, acts, held)
  }

  ghost predicate Below(held: set<Lock>, r: nat) {
    forall h :: h in held ==> Rank(h) < r
  }

  lemma NestedNil(held: set<Lock>)
    ensures Nested(held, [])
  {
    assert forall rest: seq<Act> :: [] + rest == rest;
  }

  lemma LeadsConcat(h: set<Lock>, a: seq<Act>, k: set<Lock>, b: seq<Act>, m: set<Lock>)
    requires Leads(h, a, k) && Leads(k, b, m)
    ensures Leads(h, a + b, m)
  {
    forall rest | Disciplined(m, rest) ensures Disciplined(h, (a + b) + rest) {
      assert (a + b) + rest == a + (b + rest);
    }
  }

  lemma AcquireLeads(held: set<Lock>, l: Lock)
    requires Below(held, Rank(l))
    ensures Leads(held, [Acquire(l)], held + {l})
  {
  }

  lemma ReleaseLeads(held: set<Lock>, l: Lock)
    requires l in held
    ensures Leads(held, [Release(l)], held - {l})
  {
  }

  lemma TouchLeads(held: set<Lock>, d: Data)
    requires Guard(d) in held
    ensures Nested(held, [Touch(d)])
  {
    assert forall rest :: ([Touch(d)] + rest)[1..] == rest;
  }

  /** Touch the data that the lock just taken guards, then do what is inside. */
  lemma NestedTouch(held: set<Lock>, d: Data, inner: seq<Act>)
    requires Below(held, Rank(Guard(d))) && Nested(held + {Guard(d)}, inner)
    ensures Nested(held, Section(Guard(d), [Touch(d)] + inner))
  {
    var inside := held + {Guard(d)};
    TouchLeads(inside, d);
    LeadsConcat(inside, [Touch(d)], inside, inner, inside);
    NestedSection(held, Guard(d), [Touch(d)] + inner);
  }

  lemma NestedSection(held: set<Lock>, l: Lock, inner: seq<Act>)
    requires Below(held, Rank(l)) && Nested(held + {l}, inner)
    ensures Nested(held, Section(l, inner))
  {
    assert l !in held && held + {l} - {l} == held;
    AcquireLeads(held, l);
    ReleaseLeads(held + {l}, l);
    LeadsConcat(held, [Acquire(l)], held + {l}, inner, held + {l});
    LeadsConcat(held, [Acquire(l)] + inner, held + {l}, [Release(l)], held);
  }

  lemma NestedLog(held: set<Lock>, on: bool)
    requires Below(held, 4)
    ensures Nested(held, LogActs(on))
  {
    NestedNil(held);
    NestedNil(held + {Logger});
    NestedTouch(held, LogOutput, []);
    assert [Touch(LogOutput)] + [] == [Touch(LogOutput)];
  }

  lemma NestedPush(held: set<Lock>, p: PushCall)
    requires Below(held, 3)
    ensures Nested(held, PushActs(p))
  {
    NestedNil(held);
    NestedLog(held + {QueueMutex(p.client)}, p.logs);
    NestedTouch(held, Queue(p.client), LogActs(p.logs));
  }

  lemma {:induction false} NestedPushes(held: set<Lock>, ps: seq<PushCall>)
    requires Below(held, 3)
    ensures Nested(held, PushesActs(ps))
  {
    if ps == [] {
      NestedNil(held);
    } else {
      NestedPush(held, ps[0]);
      NestedPushes(held, ps[1..]);
      LeadsConcat(held, PushActs(ps[0]), held, PushesActs(ps[1..]), held);
    }
  }

  lemma NestedDispatch(held: set<Lock>, d: DispatchCall)
    requires Below(held, 2)
    ensures Nested(held, DispatchActs(d))
  {
    var inside := held + {ClientRegistry};
    NestedPushes(inside, d.pushes);
    NestedLog(inside, d.logs);
    LeadsConcat(inside, PushesActs(d.pushes), inside, LogActs(d.logs), inside);
    NestedTouch(held, ClientList, PushesActs(d.pushes) + LogActs(d.logs));
  }

  lemma {:induction false} NestedTicks(held: set<Lock>, ts: seq<TimerTick>)
    requires Below(held, 1)
    ensures Nested(held, TimerTicksActs(ts))
  {
    NestedNil(held);
    if ts != [] {
      var t := ts[0];
      var inside := held + {TimerMutex(t.timer)};
      NestedNil(inside);
      NestedDispatch(inside, t.dispatch);
      NestedTouch(held, TimerState(t.timer), if t.fires then DispatchActs(t.dispatch) else []);
      NestedTicks(held, ts[1..]);
      LeadsConcat(held, TimerTickActs(t), held, TimerTicksActs(ts[1..]), held);
    }
  }

  lemma SimpleSection(l: Lock)
    ensures Nested({}, Section(l, []))
  {
    NestedNil({} + {l});
    NestedSection({}, l, []);
  }

  lemma TouchSection(d: Data)
    ensures Nested({}, Section(Guard(d), [Touch(d)]))
  {
    NestedNil({} + {Guard(d)});
    NestedTouch({}, d, []);
    assert [Touch(d)] + [] == [Touch(d)];
  }

  /** Every call of the daemon obeys the order, whatever timers, clients, targets and log
      levels it meets. */
  lemma CallIsDisciplined(c: Call)
    ensures Nested({}, CallActs(c))
  {
    hide Leads, Section, TimerTicksActs, DispatchActs, PushActs, LogActs, HandOver;
    match c {
      case Tick(ts) =>
        NestedTicks({} + {TimerVector}, ts);
        NestedTouch({}, TimerList, TimerTicksActs(ts));
      case AddOrRemoveTimer => TouchSection(TimerList);
      case TimerField(t) => TouchSection(TimerState(t));
      case Dispatch(d) => NestedDispatch({}, d);
      case PushDirectly(p) => NestedPush({}, p);
      case Pop(q) => TouchSection(Queue(q));
      case WaitOnCondition(q) => SimpleSection(ConditionMutex(q));
      case ReplyList(e) => TouchSection(Replies(e));
      case Log => NestedLog({}, true);
      case ConstructClient(logs) =>
        TouchSection(RegistryMutex);
        NestedLog({} + {ClientRegistry}, logs);
        NestedTouch({}, ClientList, LogActs(logs));
        LeadsConcat({}, Section(CriticalSection, [Touch(RegistryMutex)]), {},
                    Section(ClientRegistry, [Touch(ClientList)] + LogActs(logs)), {});
      case DestroyClient(logsInside, lastOne) =>
        NestedLog({ClientRegistry}, logsInside);
        NestedLog({CriticalSection}, lastOne && logsInside);
        TouchLeads({ClientRegistry}, ClientList);
        TouchLeads({CriticalSection}, RegistryMutex);
        LeadsConcat({ClientRegistry}, [Touch(ClientList)], {ClientRegistry}, LogActs(logsInside), {ClientRegistry});
        LeadsConcat({CriticalSection}, [Touch(RegistryMutex)], {CriticalSection},
                    LogActs(lastOne && logsInside), {CriticalSection});
        NestedHandOver(ClientRegistry, [Touch(ClientList)] + LogActs(logsInside),
                       CriticalSection, [Touch(RegistryMutex)] + LogActs(lastOne && logsInside));
    }
  }

  lemma NestedHandOver(l: Lock, first: seq<Act>, m: Lock, second: seq<Act>)
    requires Rank(l) < Rank(m) && Nested({l}, first) && Nested({m}, second)
    ensures Nested({}, HandOver(l, first, m, second))
  {
    hide Leads;
    assert {} + {l} == {l} && {l} + {m} - {l} == {m} && {m} - {m} == {};
    AcquireLeads({}, l);
    AcquireLeads({l}, m);
    ReleaseLeads({l} + {m}, l);
    ReleaseLeads({m}, m);
    LeadsConcat({}, [Acquire(l)], {l}, first, {l});
    LeadsConcat({l}, [Acquire(m)], {l} + {m}, [Release(l)], {m});
    LeadsConcat({}, [Acquire(l)] + first, {l}, [Acquire(m)] + [Release(l)], {m});
    LeadsConcat({}, [Acquire(l)] + first + ([Acquire(m)] + [Release(l)]), {m}, second, {m});
    LeadsConcat({}, [Acquire(l)] + first + ([Acquire(m)] + [Release(l)]) + second, {m}, [Release(m)], {});
  }

  // ----- the threads -----

  /** What a thread holds, and the lock operations left of the call it is in. */
  datatype Thread = Thread(held: set<Lock>, todo: seq<Act>)

  const IDLE := Thread({}, [])

  /** Thread `t` can take its next lock operation: an acquire must find the lock free. */
  predicate CanStep(ts: seq<Thread>, t: nat) {
    && t < |ts| && ts[t].todo != []
    && (ts[t].todo[0].Acquire? ==> forall u :: 0 <= u < |ts| ==> ts[t].todo[0].lock !in ts[u].held)
  }

  datatype Move = Begin(thread: nat, call: Call) | Advance(thread: nat)

  predicate CanMove(ts: seq<Thread>, m: Move) {
    match m
    case Begin(t, _) => t < |ts| && ts[t].todo == []
    case Advance(t) => CanStep(ts, t)
  }

  /** The locks held after an action. */
  function Held(held: set<Lock>, a: Act): set<Lock> {
    match a
    case Acquire(l) => held + {l}
    case Release(l) => held - {l}
    case Touch(_) => held
  }

  function Do(ts: seq<Thread>, m: Move): seq<Thread>
    requires CanMove(ts, m)
  {
    var t := m.thread;
    match m
    case Begin(_, c) => ts[t := ts[t].(todo := CallActs(c))]
    case Advance(_) =>
      var a := ts[t].todo[0];
      ts[t := Thread(Held(ts[t].held, a), ts[t].todo[1..])]
  }

  ghost predicate IsRun(ts: seq<Thread>, moves: seq<Move>)
    decreases |moves|
  {
    moves == [] || (CanMove(ts, moves[0]) && IsRun(Do(ts, moves[0]), moves[1..]))
  }

  ghost function After(ts: seq<Thread>, moves: seq<Move>): seq<Thread>
    requires IsRun(ts, moves)
    decreases |moves|
  {
    if moves == [] then ts else After(Do(ts, moves[0]), moves[1..])
  }

  /** Every thread is inside a disciplined call, and no lock has two holders. */
  ghost predicate Orderly(ts: seq<Thread>) {
    && (forall t :: 0 <= t < |ts| ==> Disciplined(ts[t].held, ts[t].todo))
    && (forall t, u :: 0 <= t < |ts| && 0 <= u < |ts| && t != u ==> ts[t].held !! ts[u].held)
  }

  lemma MoveKeepsOrder(ts: seq<Thread>, m: Move)
    requires Orderly(ts) && CanMove(ts, m)
    ensures Orderly(Do(ts, m))
  {
    if m.Begin? {
      CallIsDisciplined(m.call);
      assert CallActs(m.call) + [] == CallActs(m.call);
      assert ts[m.thread].held == {};
      assert Disciplined({}, []);
    }
  }

  /** Mutual exclusion and the lock order hold in every reachable state. */
  lemma {:induction false} RunKeepsOrder(ts: seq<Thread>, moves: seq<Move>)
    requires Orderly(ts) && IsRun(ts, moves)
    ensures Orderly(After(ts, moves))
    decreases |moves|
  {
    if moves != [] {
      MoveKeepsOrder(ts, moves[0]);
      RunKeepsOrder(Do(ts, moves[0]), moves[1..]);
    }
  }

  /** Thread `t` waits for a lock that `u` holds. */
  predicate WaitsFor(ts: seq<Thread>, t: nat, u: nat) {
    t < |ts| && u < |ts| && ts[t].todo != [] && ts[t].todo[0].Acquire? && ts[t].todo[0].lock in ts[u].held
  }

  ghost predicate Chain(ts: seq<Thread>, path: seq<nat>) {
    path != [] && forall i :: 0 < i < |path| ==> WaitsFor(ts, path[i - 1], path[i])
  }

  /** From every thread that is inside a call, following who waits for whom leads, after at
      most five hops, to a thread that can take its next step: there is no deadlock. */
  lemma {:induction false} WaitingEnds(ts: seq<Thread>, t: nat) returns (path: seq<nat>)
    requires Orderly(ts) && t < |ts| && ts[t].todo != []
    ensures Chain(ts, path) && path[0] == t && CanStep(ts, path[|path| - 1])
    ensures |path| <= 6 - if ts[t].todo[0].Acquire? then Rank(ts[t].todo[0].lock) else 5
    decreases if ts[t].todo[0].Acquire? then 5 - Rank(ts[t].todo[0].lock) else 0
  {
    if CanStep(ts, t) {
      path := [t];
    } else {
      var l := ts[t].todo[0].lock;
      var u :| 0 <= u < |ts| && l in ts[u].held;
      assert Disciplined(ts[u].held, ts[u].todo);
      assert ts[u].todo != [];
      var rest := WaitingEnds(ts, u);
      path := [t] + rest;
    }
  }

  /** A thread never waits for itself, and no set of threads is deadlocked: started idle, the
      daemon always has a thread that can step while any call is unfinished. */
  lemma NoDeadlock(n: nat, moves: seq<Move>, t: nat)
    requires var idle := seq(n, _ => IDLE); IsRun(idle, moves) && t < |After(idle, moves)|
    ensures var ts := After(seq(n, _ => IDLE), moves);
            && !WaitsFor(ts, t, t)
            && (ts[t].todo != [] ==> exists u :: CanStep(ts, u))
  {
    var idle := seq(n, _ => IDLE);
    assert Orderly(idle);
    RunKeepsOrder(idle, moves);
    var ts := After(idle, moves);
    assert Disciplined(ts[t].held, ts[t].todo);
    if ts[t].todo != [] {
      var path := WaitingEnds(ts, t);
      assert CanStep(ts, path[|path| - 1]);
    }
  }

  /** No data race: at no moment of any run are two threads about to touch the same data, nor is
      a thread about to touch data whose guard another thread holds. */
  lemma NoRace(n: nat, moves: seq<Move>, t: nat, u: nat)
    requires IsRun(seq(n, _ => IDLE), moves)
    requires var ts := After(seq(n, _ => IDLE), moves);
             t < |ts| && u < |ts| && t != u && ts[t].todo != [] && ts[t].todo[0].Touch?
    ensures var ts := After(seq(n, _ => IDLE), moves);
            && Guard(ts[t].todo[0].data) !in ts[u].held
            && (ts[u].todo != [] ==> ts[u].todo[0] != ts[t].todo[0])
  {
    var idle := seq(n, _ => IDLE);
    assert Orderly(idle);
    RunKeepsOrder(idle, moves);
    var ts := After(idle, moves);
    assert Disciplined(ts[t].held, ts[t].todo) && Disciplined(ts[u].held, ts[u].todo);
    assert ts[t].held !! ts[u].held;
  }

  // ----- what each call touches, and what it holds meanwhile -----

  lemma InSection(l: Lock, inner: seq<Act>, a: Act)
    ensures a in inner ==> a in Section(l, inner)
  {
  }

  lemma {:induction false} PushesTouch(ps: seq<PushCall>, i: nat)
    requires i < |ps| && ps[i].enabled
    ensures Touch(Queue(ps[i].client)) in PushesActs(ps)
  {
    if i == 0 {
      var touch := Touch(Queue(ps[0].client));
      InSection(QueueMutex(ps[0].client), [touch] + LogActs(ps[0].logs), touch);
    } else {
      PushesTouch(ps[1..], i - 1);
    }
  }

  lemma DispatchTouches(d: DispatchCall, i: nat)
    ensures Touch(ClientList) in DispatchActs(d)
    ensures i < |d.pushes| && d.pushes[i].enabled ==> Touch(Queue(d.pushes[i].client)) in DispatchActs(d)
  {
    var inner := [Touch(ClientList)] + (PushesActs(d.pushes) + LogActs(d.logs));
    InSection(ClientRegistry, inner, Touch(ClientList));
    if i < |d.pushes| && d.pushes[i].enabled {
      PushesTouch(d.pushes, i);
      InSection(ClientRegistry, inner, Touch(Queue(d.pushes[i].client)));
    }
  }

  lemma {:induction false} TicksTouch(ts: seq<TimerTick>, i: nat, k: nat)
    requires i < |ts|
    ensures Touch(TimerState(ts[i].timer)) in TimerTicksActs(ts)
    ensures ts[i].fires && k < |ts[i].dispatch.pushes| && ts[i].dispatch.pushes[k].enabled ==>
              Touch(Queue(ts[i].dispatch.pushes[k].client)) in TimerTicksActs(ts)
  {
    if i == 0 {
      var t := ts[0];
      var inner := [Touch(TimerState(t.timer))] + if t.fires then DispatchActs(t.dispatch) else [];
      InSection(TimerMutex(t.timer), inner, Touch(TimerState(t.timer)));
      DispatchTouches(t.dispatch, k);
      if t.fires && k < |t.dispatch.pushes| {
        InSection(TimerMutex(t.timer), inner, Touch(Queue(t.dispatch.pushes[k].client)));
      }
    } else {
      TicksTouch(ts[1..], i - 1, k);
    }
  }

  /** The data each call works on is among what it touches. */
  lemma CallTouches(c: Call, i: nat, k: nat)
    ensures c.Tick? ==> Touch(TimerList) in CallActs(c)
    ensures c.Tick? && i < |c.timers| ==> Touch(TimerState(c.timers[i].timer)) in CallActs(c)
    ensures c.Tick? && i < |c.timers| && c.timers[i].fires && k < |c.timers[i].dispatch.pushes|
            && c.timers[i].dispatch.pushes[k].enabled ==>
              Touch(Queue(c.timers[i].dispatch.pushes[k].client)) in CallActs(c)
    ensures c.AddOrRemoveTimer? ==> Touch(TimerList) in CallActs(c)
    ensures c.TimerField? ==> Touch(TimerState(c.timer)) in CallActs(c)
    ensures c.Dispatch? ==> Touch(ClientList) in CallActs(c)
    ensures c.Dispatch? && i < |c.dispatch.pushes| && c.dispatch.pushes[i].enabled ==>
              Touch(Queue(c.dispatch.pushes[i].client)) in CallActs(c)
    ensures c.PushDirectly? && c.push.enabled ==> Touch(Queue(c.push.client)) in CallActs(c)
    ensures c.Pop? ==> Touch(Queue(c.client)) in CallActs(c)
    ensures c.WaitOnCondition? ==> Acquire(ConditionMutex(c.client)) in CallActs(c)
    ensures c.ReplyList? ==> Touch(Replies(c.event)) in CallActs(c)
    ensures c.Log? ==> Touch(LogOutput) in CallActs(c)
    ensures c.ConstructClient? || c.DestroyClient? ==>
              Touch(ClientList) in CallActs(c) && Touch(RegistryMutex) in CallActs(c)
  {
    hide TimerTicksActs, DispatchActs;
    match c {
      case Tick(ts) =>
        if i < |ts| { TicksTouch(ts, i, k); }
      case Dispatch(d) => DispatchTouches(d, i);
      case _ =>
    }
  }

  /** The locks held after a sequence of actions. */
  function HeldAfter(held: set<Lock>, acts: seq<Act>): set<Lock>
    decreases |acts|
  {
    if acts == [] then held else HeldAfter(Held(held, acts[0]), acts[1..])
  }

  lemma {:induction false} StaysHeld(held: set<Lock>, l: Lock, acts: seq<Act>)
    requires l in held && Release(l) !in acts
    ensures l in HeldAfter(held, acts)
    decreases |acts|
  {
    if acts != [] {
      assert acts[0] in acts;
      StaysHeld(Held(held, acts[0]), l, acts[1..]);
    }
  }

  /** Everything inside a section happens while its lock is held. */
  lemma HeldInside(l: Lock, inner: seq<Act>, i: nat)
    requires 0 < i <= |inner| && Release(l) !in inner
    ensures Section(l, inner)[i] in inner && l in HeldAfter({}, Section(l, inner)[..i])
  {
    var acts := Section(l, inner)[..i];
    assert acts == [Acquire(l)] + inner[..i - 1] && acts[1..] == inner[..i - 1];
    assert forall a :: a in inner[..i - 1] ==> a in inner;
    StaysHeld({l}, l, inner[..i - 1]);
    assert Held({}, acts[0]) == {l};
  }

  lemma {:induction false} PushesKeepLock(ps: seq<PushCall>, l: Lock)
    requires Rank(l) < 3
    ensures Release(l) !in PushesActs(ps)
  {
    hide Section, LogActs;
    if ps != [] {
      PushesKeepLock(ps[1..], l);
      LogKeepsLock(ps[0].logs, l);
      SectionKeepsLock(QueueMutex(ps[0].client), [Touch(Queue(ps[0].client))] + LogActs(ps[0].logs), l);
    }
  }

  lemma {:induction false} TicksKeepLock(ts: seq<TimerTick>)
    ensures Release(TimerVector) !in TimerTicksActs(ts)
  {
    hide TimerTickActs;
    if ts != [] {
      TickKeepsLock(ts[0]);
      TicksKeepLock(ts[1..]);
    }
  }

  lemma SectionKeepsLock(l: Lock, inner: seq<Act>, m: Lock)
    requires l != m && Release(m) !in inner
    ensures Release(m) !in Section(l, inner)
  {
  }

  lemma TickKeepsLock(t: TimerTick)
    ensures Release(TimerVector) !in TimerTickActs(t)
  {
    hide Section, LogActs;
    PushesKeepLock(t.dispatch.pushes, TimerVector);
    LogKeepsLock(t.dispatch.logs, TimerVector);
    SectionKeepsLock(ClientRegistry,
                     [Touch(ClientList)] + (PushesActs(t.dispatch.pushes) + LogActs(t.dispatch.logs)), TimerVector);
    SectionKeepsLock(TimerMutex(t.timer),
                     [Touch(TimerState(t.timer))] + if t.fires then DispatchActs(t.dispatch) else [], TimerVector);
  }

  lemma LogKeepsLock(on: bool, l: Lock)
    requires l != Logger
    ensures Release(l) !in LogActs(on)
  {
  }

  /** A dispatch makes each of its pushes while it holds the registry, so that no client can be
      destroyed under it. */
  lemma PushedUnderRegistry(d: DispatchCall, i: nat)
    requires i < |DispatchActs(d)| && DispatchActs(d)[i].Touch?
    ensures ClientRegistry in HeldAfter({}, DispatchActs(d)[..i])
  {
    var inner := [Touch(ClientList)] + (PushesActs(d.pushes) + LogActs(d.logs));
    PushesKeepLock(d.pushes, ClientRegistry);
    HeldInside(ClientRegistry, inner, i);
  }

  /** A tick does all its work while it holds the timer vector, so that no timer can be removed
      under it. */
  lemma TickedUnderVector(ts: seq<TimerTick>, i: nat)
    requires i < |CallActs(Tick(ts))| && CallActs(Tick(ts))[i].Touch?
    ensures TimerVector in HeldAfter({}, CallActs(Tick(ts))[..i])
  {
    hide TimerTicksActs;
    var inner := [Touch(TimerList)] + TimerTicksActs(ts);
    TicksKeepLock(ts);
    HeldInside(TimerVector, inner, i);
  }
}
