/** The timer thread: a vector of timers ticked in order, whose events go over the bus. */
module TimerBus {
  import opened Events
  import Q = ClientQueue
  import opened EventBus
  import opened Counting
  import T = Timers

  /** `handle` is the address of the timer object. */
  datatype Cell = Cell(handle: nat, target: Option<ClientId>, timer: T.Timer)

  /** A timer without a target reports to the parent of the timer thread. */
  function Destination(cell: Cell, parent: ClientId): ClientId {
    match cell.target
    case None => parent
    case Some(c) => c
  }

  function TimerEvent(handle: nat): Event {
    Event(0, TIMER, NO_FLAGS, None, Unset, handle, 0)
  }

  function TickCell(cell: Cell): Cell {
    cell.(timer := T.TickTimer(cell.timer))
  }

  function TickCells(cells: seq<Cell>): (r: seq<Cell>)
    ensures |r| == |cells| && forall i :: 0 <= i < |r| ==> r[i] == TickCell(cells[i])
  {
    seq(|cells|, i requires 0 <= i < |cells| => TickCell(cells[i]))
  }

  /** What one timer dispatches at a tick. */
  function CellFires(b: Bus, cell: Cell, self: ClientId, parent: ClientId): Bus {
    if T.Fires(cell.timer)
    then DispatchCreated(b, TimerEvent(cell.handle), Some(self), To(Destination(cell, parent)))
    else b
  }

  /** The dispatches of one tick, in vector order. */
  function TickBus(b: Bus, cells: seq<Cell>, self: ClientId, parent: ClientId): Bus {
    if cells == [] then b else
    var n := |cells| - 1;
    CellFires(TickBus(b, cells[..n], self, parent), cells[n], self, parent)
  }

  function CellsAfter(cells: seq<Cell>, n: nat): (r: seq<Cell>)
    ensures |r| == |cells|
  {
    if n == 0 then cells else TickCells(CellsAfter(cells, n - 1))
  }

  function BusAfter(b: Bus, cells: seq<Cell>, self: ClientId, parent: ClientId, n: nat): Bus {
    if n == 0 then b
    else TickBus(BusAfter(b, cells, self, parent, n - 1), CellsAfter(cells, n - 1), self, parent)
  }

  // ----- the specification: who fires when -----

  function FireOf(cell: Cell, parent: ClientId, c: ClientId): seq<nat> {
    if T.Fires(cell.timer) && Destination(cell, parent) == c then [cell.handle] else []
  }

  /** The timers that fire at the next tick and report to `c`, in vector order. */
  function FiresAt(cells: seq<Cell>, parent: ClientId, c: ClientId): seq<nat> {
    if cells == [] then [] else
    var n := |cells| - 1;
    FiresAt(cells[..n], parent, c) + FireOf(cells[n], parent, c)
  }

  /** The timers that report to `c` during `n` ticks: by tick, then by vector position. */
  function FireLog(cells: seq<Cell>, parent: ClientId, c: ClientId, n: nat): seq<nat> {
    if n == 0 then []
    else FireLog(cells, parent, c, n - 1) + FiresAt(CellsAfter(cells, n - 1), parent, c)
  }

  // ----- the queues grow by exactly the fires -----

  predicate Reports(e: Event, handle: nat) {
    e.id == TIMER && e.flags == NO_FLAGS && e.data == handle
  }

  /** `after` is `before` with one timer event appended for each handle, in order. */
  ghost predicate Grown(before: Q.Client, after: Q.Client, handles: seq<nat>) {
    && before.enabled && after.enabled
    && |after.queue| == |before.queue| + |handles|
    && after.queue[..|before.queue|] == before.queue
    && forall i :: 0 <= i < |handles| ==> Reports(after.queue[|before.queue| + i], handles[i])
  }

  lemma GrownTrans(a: Q.Client, b: Q.Client, c: Q.Client, xs: seq<nat>, ys: seq<nat>)
    requires Grown(a, b, xs) && Grown(b, c, ys)
    ensures Grown(a, c, xs + ys)
  {
  }

  ghost predicate QueueGrown(b: Bus, r: Bus, c: ClientId, handles: seq<nat>) {
    && Registered(b, c) && Registered(r, c)
    && Grown(Lookup(b, c), Lookup(r, c), handles)
  }

  lemma PushTimer(c: Q.Client, e: Event, source: Option<ClientId>)
    requires c.enabled && e.id == TIMER && e.flags == NO_FLAGS
    ensures Grown(c, Q.PushTo(c, e, source), [e.data])
  {
  }

  /** One timer event reaches its destination and no other client. */
  lemma TimerDispatch(b: Bus, handle: nat, self: ClientId, d: ClientId, c: ClientId)
    requires Registered(b, c) && Lookup(b, c).enabled
    ensures QueueGrown(b, DispatchCreated(b, TimerEvent(handle), Some(self), To(d)), c, if d == c then [handle] else [])
  {
    var op := DispatchNew(TimerEvent(handle), Some(self), To(d));
    StepProjects(b, op, c);
    var p := Project(b, op, c);
    if d == c {
      Q.RunOne(Lookup(b, c), p[0]);
      PushTimer(Lookup(b, c), p[0].event, p[0].source);
    }
  }

  lemma {:induction false} TickGrows(b: Bus, cells: seq<Cell>, self: ClientId, parent: ClientId, c: ClientId)
    requires Registered(b, c) && Lookup(b, c).enabled
    ensures QueueGrown(b, TickBus(b, cells, self, parent), c, FiresAt(cells, parent, c))
    decreases |cells|
  {
    if cells != [] {
      hide DispatchCreated;
      var n := |cells| - 1;
      TickGrows(b, cells[..n], self, parent, c);
      var m := TickBus(b, cells[..n], self, parent);
      if T.Fires(cells[n].timer) {
        var d := Destination(cells[n], parent);
        TimerDispatch(m, cells[n].handle, self, d, c);
        GrownTrans(Lookup(b, c), Lookup(m, c), Lookup(TickBus(b, cells, self, parent), c),
                   FiresAt(cells[..n], parent, c), if d == c then [cells[n].handle] else []);
      }
    }
  }

  /** Over `n` ticks with no pops, the queue of every registered, enabled client grows by
      exactly the events of the timers that report to it, by tick and then by position. */
  lemma {:induction false} QueuesFollowTimers(b: Bus, cells: seq<Cell>, self: ClientId, parent: ClientId,
                                              n: nat, c: ClientId)
    requires Registered(b, c) && Lookup(b, c).enabled
    ensures QueueGrown(b, BusAfter(b, cells, self, parent, n), c, FireLog(cells, parent, c, n))
  {
    if n > 0 {
      QueuesFollowTimers(b, cells, self, parent, n - 1, c);
      var m := BusAfter(b, cells, self, parent, n - 1);
      var now := CellsAfter(cells, n - 1);
      TickGrows(m, now, self, parent, c);
      GrownTrans(Lookup(b, c), Lookup(m, c), Lookup(TickBus(m, now, self, parent), c),
                 FireLog(cells, parent, c, n - 1), FiresAt(now, parent, c));
    }
  }

  // ----- removing a timer -----

  ghost predicate DistinctHandles(cells: seq<Cell>) {
    forall i, j :: 0 <= i < j < |cells| ==> cells[i].handle != cells[j].handle
  }

  function RemoveCell(cells: seq<Cell>, handle: nat): seq<Cell> {
    if cells == [] then []
    else if cells[0].handle == handle then cells[1..]
    else [cells[0]] + RemoveCell(cells[1..], handle)
  }

  function WithoutCell(cells: seq<Cell>, handle: nat): seq<Cell> {
    if cells == [] then [] else
    var n := |cells| - 1;
    WithoutCell(cells[..n], handle) + if cells[n].handle == handle then [] else [cells[n]]
  }

  function Without(log: seq<nat>, handle: nat): seq<nat> {
    if log == [] then [] else
    var n := |log| - 1;
    Without(log[..n], handle) + if log[n] == handle then [] else [log[n]]
  }

  lemma {:induction false} WithoutConcat(a: seq<nat>, b: seq<nat>, handle: nat)
    ensures Without(a + b, handle) == Without(a, handle) + Without(b, handle)
    decreases |b|
  {
    if b == [] {
      assert a + b == a;
    } else {
      var n := |b| - 1;
      assert (a + b)[..|a + b| - 1] == a + b[..n];
      WithoutConcat(a, b[..n], handle);
    }
  }

  lemma {:induction false} WithoutCellConcat(a: seq<Cell>, b: seq<Cell>, handle: nat)
    ensures WithoutCell(a + b, handle) == WithoutCell(a, handle) + WithoutCell(b, handle)
    decreases |b|
  {
    if b == [] {
      assert a + b == a;
    } else {
      var n := |b| - 1;
      assert (a + b)[..|a + b| - 1] == a + b[..n];
      WithoutCellConcat(a, b[..n], handle);
    }
  }

  lemma {:induction false} NothingToDrop(cells: seq<Cell>, handle: nat)
    requires forall i :: 0 <= i < |cells| ==> cells[i].handle != handle
    ensures WithoutCell(cells, handle) == cells
    decreases |cells|
  {
    if cells != [] { NothingToDrop(cells[..|cells| - 1], handle); }
  }

  /** With distinct timers, erasing the first match erases every match. */
  lemma {:induction false} RemoveIsFilter(cells: seq<Cell>, handle: nat)
    requires DistinctHandles(cells)
    ensures RemoveCell(cells, handle) == WithoutCell(cells, handle)
  {
    if cells != [] {
      var rest := cells[1..];
      assert cells == [cells[0]] + rest;
      WithoutCellConcat([cells[0]], rest, handle);
      assert WithoutCell([cells[0]], handle) == if cells[0].handle == handle then [] else [cells[0]];
      if cells[0].handle == handle {
        NothingToDrop(rest, handle);
      } else {
        RemoveIsFilter(rest, handle);
      }
    }
  }

  lemma FiresAppend(cells: seq<Cell>, cell: Cell, parent: ClientId, c: ClientId)
    ensures FiresAt(cells + [cell], parent, c) == FiresAt(cells, parent, c) + FireOf(cell, parent, c)
  {
  }

  lemma FireOfWithout(cell: Cell, parent: ClientId, c: ClientId, handle: nat)
    ensures Without(FireOf(cell, parent, c), handle) == if cell.handle == handle then [] else FireOf(cell, parent, c)
  {
  }

  lemma {:induction false} FiresWithout(cells: seq<Cell>, parent: ClientId, c: ClientId, handle: nat)
    ensures FiresAt(WithoutCell(cells, handle), parent, c) == Without(FiresAt(cells, parent, c), handle)
    decreases |cells|
  {
    if cells != [] {
      hide FireOf;
      var n := |cells| - 1;
      FiresWithout(cells[..n], parent, c, handle);
      WithoutConcat(FiresAt(cells[..n], parent, c), FireOf(cells[n], parent, c), handle);
      FireOfWithout(cells[n], parent, c, handle);
      var w := WithoutCell(cells[..n], handle);
      if cells[n].handle == handle {
        assert w + [] == w;
      } else {
        FiresAppend(w, cells[n], parent, c);
      }
    }
  }

  lemma {:induction false} TickWithout(cells: seq<Cell>, handle: nat)
    ensures TickCells(WithoutCell(cells, handle)) == WithoutCell(TickCells(cells), handle)
    decreases |cells|
  {
    if cells != [] {
      var n := |cells| - 1;
      TickWithout(cells[..n], handle);
      assert TickCells(cells)[..n] == TickCells(cells[..n]);
    }
  }

  lemma {:induction false} AfterWithout(cells: seq<Cell>, handle: nat, n: nat)
    ensures CellsAfter(WithoutCell(cells, handle), n) == WithoutCell(CellsAfter(cells, n), handle)
  {
    if n > 0 {
      AfterWithout(cells, handle, n - 1);
      TickWithout(CellsAfter(cells, n - 1), handle);
    }
  }

  lemma {:induction false} LogWithout(cells: seq<Cell>, handle: nat, parent: ClientId, c: ClientId, n: nat)
    ensures FireLog(WithoutCell(cells, handle), parent, c, n) == Without(FireLog(cells, parent, c, n), handle)
  {
    if n > 0 {
      LogWithout(cells, handle, parent, c, n - 1);
      LogWithoutStep(cells, handle, parent, c, n);
    }
  }

  lemma LogWithoutStep(cells: seq<Cell>, handle: nat, parent: ClientId, c: ClientId, n: nat)
    requires n > 0
    requires FireLog(WithoutCell(cells, handle), parent, c, n - 1) == Without(FireLog(cells, parent, c, n - 1), handle)
    ensures FireLog(WithoutCell(cells, handle), parent, c, n) == Without(FireLog(cells, parent, c, n), handle)
  {
    hide Without, WithoutCell, FiresAt, CellsAfter;
    AfterWithout(cells, handle, n - 1);
    FiresWithout(CellsAfter(cells, n - 1), parent, c, handle);
    WithoutConcat(FireLog(cells, parent, c, n - 1), FiresAt(CellsAfter(cells, n - 1), parent, c), handle);
  }

  lemma {:induction false} NotInWithout(log: seq<nat>, handle: nat)
    ensures handle !in Without(log, handle)
    decreases |log|
  {
    if log != [] { NotInWithout(log[..|log| - 1], handle); }
  }

  /** After RemoveTimer no event names the removed timer, and the other timers fire as if it
      had never been there. */
  lemma RemovedTimerIsSilent(cells: seq<Cell>, handle: nat, parent: ClientId, c: ClientId, n: nat)
    requires DistinctHandles(cells)
    ensures FireLog(RemoveCell(cells, handle), parent, c, n) == Without(FireLog(cells, parent, c, n), handle)
    ensures handle !in FireLog(RemoveCell(cells, handle), parent, c, n)
  {
    RemoveIsFilter(cells, handle);
    LogWithout(cells, handle, parent, c, n);
    NotInWithout(FireLog(cells, parent, c, n), handle);
  }

  /** The same in the queues: after RemoveTimer, the queue of every enabled client grows over
      `n` ticks by the events it would have got, without those of the removed timer. */
  lemma QueuesWithoutTimer(b: Bus, cells: seq<Cell>, handle: nat, self: ClientId, parent: ClientId, n: nat, c: ClientId)
    requires DistinctHandles(cells) && Registered(b, c) && Lookup(b, c).enabled
    ensures QueueGrown(b, BusAfter(b, RemoveCell(cells, handle), self, parent, n), c,
                       Without(FireLog(cells, parent, c, n), handle))
  {
    hide QueueGrown, BusAfter, FireLog, Without;
    RemovedTimerIsSilent(cells, handle, parent, c, n);
    QueuesFollowTimers(b, RemoveCell(cells, handle), self, parent, n, c);
  }

  // ----- a timer in the vector fires as it would alone -----

  function Ticks(n: nat): (r: seq<T.Op>)
    ensures |r| == n && forall i :: 0 <= i < n ==> r[i] == T.Tick
  {
    seq(n, _ => T.Tick)
  }

  lemma {:induction false} CellAlone(cells: seq<Cell>, i: nat, n: nat)
    requires i < |cells|
    ensures CellsAfter(cells, n)[i] == cells[i].(timer := T.Run(cells[i].timer, Ticks(n)))
  {
    if n > 0 {
      CellAlone(cells, i, n - 1);
      assert Ticks(n)[..n - 1] == Ticks(n - 1);
    }
  }

  lemma CountFireOf(cell: Cell, parent: ClientId, c: ClientId, handle: nat)
    ensures CountOf(FireOf(cell, parent, c), handle)
         == if cell.handle == handle && T.Fires(cell.timer) && Destination(cell, parent) == c then 1 else 0
  {
  }

  lemma {:induction false} FiresOnce(cells: seq<Cell>, i: nat, parent: ClientId, c: ClientId)
    requires DistinctHandles(cells) && i < |cells|
    ensures CountOf(FiresAt(cells, parent, c), cells[i].handle)
         == if T.Fires(cells[i].timer) && Destination(cells[i], parent) == c then 1 else 0
    decreases |cells|
  {
    hide CountOf, FireOf, T.Fires;
    var n, h := |cells| - 1, cells[i].handle;
    CountConcat(FiresAt(cells[..n], parent, c), FireOf(cells[n], parent, c), h);
    CountFireOf(cells[n], parent, c, h);
    if i < n {
      FiresOnce(cells[..n], i, parent, c);
    } else {
      NoFires(cells[..n], h, parent, c);
    }
  }

  lemma {:induction false} NoFires(cells: seq<Cell>, handle: nat, parent: ClientId, c: ClientId)
    requires forall i :: 0 <= i < |cells| ==> cells[i].handle != handle
    ensures CountOf(FiresAt(cells, parent, c), handle) == 0
    decreases |cells|
  {
    if cells != [] {
      var n := |cells| - 1;
      NoFires(cells[..n], handle, parent, c);
      CountConcat(FiresAt(cells[..n], parent, c), FireOf(cells[n], parent, c), handle);
      CountFireOf(cells[n], parent, c, handle);
    }
  }

  lemma {:induction false} SameHandles(cells: seq<Cell>, n: nat)
    ensures forall i :: 0 <= i < |cells| ==> CellsAfter(cells, n)[i].handle == cells[i].handle
  {
    if n > 0 { SameHandles(cells, n - 1); }
  }

  /** The timer reports to `c`: `c` is its target, or it has none and `c` is the parent of the
      timer thread. */
  predicate ReportsTo(cell: Cell, parent: ClientId, c: ClientId) {
    cell.target == Some(c) || (cell.target == None && parent == c)
  }

  /** In `n` ticks a timer of the vector sends its client as many events as it would alone, and
      no event to any other client. */
  lemma {:induction false} TimersAreIndependent(cells: seq<Cell>, i: nat, parent: ClientId, c: ClientId, n: nat)
    requires DistinctHandles(cells) && i < |cells|
    ensures CountOf(FireLog(cells, parent, c, n), cells[i].handle)
         == if ReportsTo(cells[i], parent, c) then T.Fired(cells[i].timer, Ticks(n)) else 0
  {
    if n > 0 {
      TimersAreIndependent(cells, i, parent, c, n - 1);
      IndependentStep(cells, i, parent, c, n);
    }
  }

  lemma IndependentStep(cells: seq<Cell>, i: nat, parent: ClientId, c: ClientId, n: nat)
    requires DistinctHandles(cells) && i < |cells| && n > 0
    requires CountOf(FireLog(cells, parent, c, n - 1), cells[i].handle)
          == if ReportsTo(cells[i], parent, c) then T.Fired(cells[i].timer, Ticks(n - 1)) else 0
    ensures CountOf(FireLog(cells, parent, c, n), cells[i].handle)
         == if ReportsTo(cells[i], parent, c) then T.Fired(cells[i].timer, Ticks(n)) else 0
  {
    hide CountOf, FiresAt, CellsAfter, T.Fires, T.Apply;
    var now := CellsAfter(cells, n - 1);
    SameHandles(cells, n - 1);
    CellAlone(cells, i, n - 1);
    FiresOnce(now, i, parent, c);
    CountConcat(FireLog(cells, parent, c, n - 1), FiresAt(now, parent, c), cells[i].handle);
    assert Ticks(n)[..n - 1] == Ticks(n - 1);
  }

  lemma {:induction false} AlwaysRunning(t: T.Timer, n: nat)
    requires t.running && t.interval > 0
    ensures T.Run(t, Ticks(n)).running && T.Run(t, Ticks(n)).interval == t.interval
    ensures T.RunningTicks(t, Ticks(n)) == n
  {
    if n > 0 {
      AlwaysRunning(t, n - 1);
      assert Ticks(n)[..n - 1] == Ticks(n - 1);
    }
  }

  /** From timers to queues: over `n` ticks a running periodic timer adds to the queue of its
      client exactly 1 + (n - first) / interval events, `first` being max(value, 1), if n is at
      least `first`, and none otherwise, whatever other timers share the vector and the client. */
  lemma EventsInQueue(b: Bus, cells: seq<Cell>, self: ClientId, parent: ClientId, n: nat, i: nat, c: ClientId)
    requires DistinctHandles(cells) && i < |cells| && cells[i].timer.running && cells[i].timer.interval > 0
    requires ReportsTo(cells[i], parent, c) && Registered(b, c) && Lookup(b, c).enabled
    ensures var first := if cells[i].timer.value < 1 then 1 else cells[i].timer.value;
            var log := FireLog(cells, parent, c, n);
            && QueueGrown(b, BusAfter(b, cells, self, parent, n), c, log)
            && CountOf(log, cells[i].handle) == if n < first then 0 else 1 + (n - first) / cells[i].timer.interval
  {
    hide QueueGrown, FireLog, CountOf, Ticks;
    QueuesFollowTimers(b, cells, self, parent, n, c);
    TimersAreIndependent(cells, i, parent, c, n);
    AlwaysRunning(cells[i].timer, n);
    T.ClosedForm(cells[i].timer, Ticks(n));
  }

  // ----- the order of the events -----

  /** `x` stands before `y` in the sequence. */
  ghost predicate Precedes(log: seq<nat>, x: nat, y: nat) {
    exists p, q :: 0 <= p < q < |log| && log[p] == x && log[q] == y
  }

  lemma {:induction false} FiringIsIn(cells: seq<Cell>, i: nat, parent: ClientId, c: ClientId)
    requires i < |cells| && ReportsTo(cells[i], parent, c) && cells[i].timer.running && cells[i].timer.value <= 1
    ensures cells[i].handle in FiresAt(cells, parent, c)
    decreases |cells|
  {
    if i < |cells| - 1 { FiringIsIn(cells[..|cells| - 1], i, parent, c); }
  }

  /** Timers that fire at the same tick for the same client report in the order of the vector. */
  lemma {:induction false} FiresInVectorOrder(cells: seq<Cell>, i: nat, j: nat, parent: ClientId, c: ClientId)
    requires i < j < |cells| && ReportsTo(cells[i], parent, c) && ReportsTo(cells[j], parent, c)
    requires cells[i].timer.running && cells[i].timer.value <= 1
    requires cells[j].timer.running && cells[j].timer.value <= 1
    ensures Precedes(FiresAt(cells, parent, c), cells[i].handle, cells[j].handle)
    decreases |cells|
  {
    var n := |cells| - 1;
    var before, all := FiresAt(cells[..n], parent, c), FiresAt(cells, parent, c);
    if j < n {
      FiresInVectorOrder(cells[..n], i, j, parent, c);
      var p, q :| 0 <= p < q < |before| && before[p] == cells[i].handle && before[q] == cells[j].handle;
      assert all[p] == before[p] && all[q] == before[q];
    } else {
      FiringIsIn(cells[..n], i, parent, c);
      var p :| 0 <= p < |before| && before[p] == cells[i].handle;
      assert all[p] == before[p] && all[|before|] == cells[j].handle;
    }
  }

  /** The events of earlier ticks come first. */
  lemma {:induction false} LogGrows(cells: seq<Cell>, parent: ClientId, c: ClientId, n: nat, m: nat)
    requires n <= m
    ensures |FireLog(cells, parent, c, n)| <= |FireLog(cells, parent, c, m)|
    ensures FireLog(cells, parent, c, m)[..|FireLog(cells, parent, c, n)|] == FireLog(cells, parent, c, n)
    decreases m
  {
    if n < m { LogGrows(cells, parent, c, n, m - 1); }
  }
}
