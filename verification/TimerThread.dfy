/** The timers and the timer thread as objects updated in place, refining TimerBus. */
module TimerThread {
  import opened Events
  import opened EventBus
  import opened EventClients
  import opened TimerBus
  import T = Timers

  class TimerObject {
    const handle: nat
    const target: Option<ClientId>
    var running: bool
    var value: int
    var interval: int

    constructor (handle: nat, value: int, interval: int, target: Option<ClientId>)
      ensures !running && this.value == value && this.interval == interval
      ensures View() == Cell(handle, target, T.Timer(false, value, interval))
    {
      this.handle, this.target := handle, target;
      this.running, this.value, this.interval := false, value, interval;
    }

    function View(): Cell
      reads this
    {
      Cell(handle, target, T.Timer(running, value, interval))
    }

    method Start()
      modifies this`running
      ensures running && value == old(value) && interval == old(interval)
      ensures View().timer == T.Apply(old(View().timer), T.Start)
    {
      running := true;
    }

    method Stop()
      modifies this`running
      ensures !running && value == old(value) && interval == old(interval)
      ensures View().timer == T.Apply(old(View().timer), T.Stop)
    {
      running := false;
    }

    method SetValue(value: int)
      modifies this`value
      ensures View().timer == old(View().timer).(value := value)
    {
      this.value := value;
    }

    method SetInterval(interval: int)
      modifies this`interval
      ensures View().timer == old(View().timer).(interval := interval)
    {
      this.interval := interval;
    }

    method Extend(k: int)
      modifies this`value
      ensures running == old(running) && value == old(value) + k && interval == old(interval)
      ensures View().timer == T.Extend(old(View().timer), k)
    {
      value := value + k;
    }

    method GetRemaining() returns (remaining: int)
      ensures remaining == value == View().timer.value
    {
      remaining := value;
    }
  }

  class Thread {
    const self: ClientId
    const parent: ClientId
    const registry: Registry
    var timers: seq<TimerObject>

    constructor (self: ClientId, parent: ClientId, registry: Registry)
      requires registry.Valid()
      ensures Valid() && Cells() == [] && this.registry == registry
      ensures this.self == self && this.parent == parent
    {
      this.self, this.parent, this.registry := self, parent, registry;
      timers := [];
    }

    ghost predicate Valid()
      reads this, timers, registry, registry.clients
    {
      && registry.Valid()
      && forall i, j :: 0 <= i < j < |timers| ==> timers[i] != timers[j] && timers[i].handle != timers[j].handle
    }

    ghost function Cells(): (s: seq<Cell>)
      reads this`timers, timers
      ensures |s| == |timers| && forall i :: 0 <= i < |s| ==> s[i] == timers[i].View()
    {
      var ts := timers;
      seq(|ts|, i requires 0 <= i < |ts| reads ts => ts[i].View())
    }

    method AddTimer(t: TimerObject)
      requires Valid() && t !in timers && forall i :: 0 <= i < |timers| ==> timers[i].handle != t.handle
      modifies this`timers
      ensures Valid() && Cells() == old(Cells()) + [t.View()]
    {
      timers := timers + [t];
    }

    method RemoveTimer(t: TimerObject)
      requires Valid()
      modifies this`timers
      ensures Valid() && t !in timers
      ensures old(t in timers) ==> Cells() == RemoveCell(old(Cells()), t.handle)
      ensures old(t !in timers) ==> timers == old(timers)
    {
      var i := 0;
      while i < |timers| && timers[i] != t
        invariant i <= |timers| && t !in timers[..i]
      {
        i := i + 1;
      }
      if i < |timers| {
        ghost var cells := Cells();
        timers := timers[..i] + timers[i + 1..];
        assert Cells() == cells[..i] + cells[i + 1..];
        RemoveCellAt(cells, i);
      }
    }

    /** One tick of the clock: every running timer counts down; one that reaches zero
        dispatches its event and reloads. */
    method Tick()
      requires Valid()
      modifies timers, registry`next, registry`destroyed, registry.clients
      ensures Valid() && Cells() == TickCells(old(Cells()))
      ensures registry.View() == TickBus(old(registry.View()), old(Cells()), self, parent)
    {
      hide TickCell, TickBus, CellFires, Registry.Valid, Registry.View;
      ghost var cells, bus := Cells(), registry.View();
      TickBusNone(bus, cells, self, parent);
      var i := 0;
      while i < |timers|
        invariant i <= |timers| && Valid()
        invariant registry.View() == TickBus(bus, cells[..i], self, parent)
        invariant forall j :: 0 <= j < i ==> timers[j].View() == TickCell(cells[j])
        invariant forall j :: i <= j < |timers| ==> timers[j].View() == cells[j]
      {
        TickBusNext(bus, cells, i, self, parent);
        TickOne(timers[i]);
        i := i + 1;
      }
      assert cells[..|cells|] == cells;
    }

    method TickOne(t: TimerObject)
      requires registry.Valid()
      modifies t, registry`next, registry`destroyed, registry.clients
      ensures registry.Valid() && t.View() == TickCell(old(t.View()))
      ensures registry.View() == CellFires(old(registry.View()), old(t.View()), self, parent)
    {
      hide DispatchCreated;
      if t.running {
        t.value := t.value - 1;
        if t.value <= 0 {
          var d := match t.target case None => parent case Some(c) => c;
          registry.DispatchNewEvent(TimerEvent(t.handle), Some(self), To(d));
          t.value := t.interval;
          t.running := t.value > 0;
        }
      }
    }
  }

  lemma TickBusNone(b: Bus, cells: seq<Cell>, self: ClientId, parent: ClientId)
    ensures TickBus(b, cells[..0], self, parent) == b
  {
  }

  lemma TickBusNext(b: Bus, cells: seq<Cell>, i: nat, self: ClientId, parent: ClientId)
    requires i < |cells|
    ensures TickBus(b, cells[..i + 1], self, parent)
         == CellFires(TickBus(b, cells[..i], self, parent), cells[i], self, parent)
  {
    assert cells[..i + 1][..i] == cells[..i];
  }

  lemma {:induction false} RemoveCellAt(cells: seq<Cell>, i: nat)
    requires DistinctHandles(cells) && i < |cells|
    ensures RemoveCell(cells, cells[i].handle) == cells[..i] + cells[i + 1..]
  {
    if i > 0 {
      RemoveCellAt(cells[1..], i - 1);
      assert cells[1..][..i - 1] == cells[1..i] && cells[..i] == [cells[0]] + cells[1..i];
    }
  }
}
