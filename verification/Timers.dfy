/** One timer: a countdown with reload, pause and extension, and its exact arithmetic. */
module Timers {

  datatype Timer = Timer(running: bool, value: int, interval: int)

  datatype Op = Start | Stop | Tick

  function Max(a: int, b: int): int {
    if a < b then b else a
  }

  /** The tick decrements the value of a running timer and fires when that reaches zero. */
  predicate Fires(t: Timer) {
    t.running && t.value - 1 <= 0
  }

  function TickTimer(t: Timer): Timer {
    if !t.running then t
    else if Fires(t) then Timer(t.interval > 0, t.interval, t.interval)
    else t.(value := t.value - 1)
  }

  function Extend(t: Timer, k: int): Timer {
    t.(value := t.value + k)
  }

  function Apply(t: Timer, op: Op): Timer {
    match op
    case Start => t.(running := true)
    case Stop => t.(running := false)
    case Tick => TickTimer(t)
  }

  function Run(t: Timer, ops: seq<Op>): Timer {
    if ops == [] then t else Apply(Run(t, ops[..|ops| - 1]), ops[|ops| - 1])
  }

  /** The ticks of a run that find the timer running. */
  function RunningTicks(t: Timer, ops: seq<Op>): nat {
    if ops == [] then 0 else
    var before := ops[..|ops| - 1];
    RunningTicks(t, before) + if ops[|ops| - 1].Tick? && Run(t, before).running then 1 else 0
  }

  /** The number of events a run makes the timer dispatch. */
  function Fired(t: Timer, ops: seq<Op>): nat {
    if ops == [] then 0 else
    var before := ops[..|ops| - 1];
    Fired(t, before) + if ops[|ops| - 1].Tick? && Fires(Run(t, before)) then 1 else 0
  }

  /** The running ticks until the first event. */
  function FirstFire(t: Timer): nat {
    Max(t.value, 1)
  }

  /** The running ticks between two events. */
  function Period(t: Timer): nat
    ensures Period(t) >= 1
  {
    Max(t.interval, 1)
  }

  ghost predicate Closed(t: Timer, r: nat, fired: nat, now: Timer) {
    var m, p := FirstFire(t), Period(t);
    && now.interval == t.interval
    && (r < m ==> fired == 0 && now.value == t.value - r)
    && (r >= m ==> fired == 1 + (r - m) / p)
    && (r >= m ==> now.value == if t.interval > 0 then t.interval - (r - m) % t.interval else t.interval)
  }

  lemma DivStep(x: nat, p: nat)
    requires p >= 1
    ensures x % p == p - 1 ==> (x + 1) / p == x / p + 1 && (x + 1) % p == 0
    ensures x % p < p - 1 ==> (x + 1) / p == x / p && (x + 1) % p == x % p + 1
  {
    var q, m := x / p, x % p;
    assert x == p * q + m;
    if m == p - 1 {
      assert x + 1 == p * (q + 1);
      DivExact(x + 1, p, q + 1, 0);
    } else {
      DivExact(x + 1, p, q, m + 1);
    }
  }

  lemma DivExact(x: nat, p: nat, q: nat, m: nat)
    requires p >= 1 && m < p && x == p * q + m
    ensures x / p == q && x % p == m
  {
    var q', m' := x / p, x % p;
    assert x == p * q' + m' && 0 <= m' < p;
    if q' < q {
      MulGap(p, q', q);
    } else if q < q' {
      MulGap(p, q, q');
    }
  }

  lemma MulGap(p: nat, a: nat, b: nat)
    requires a < b
    ensures p * b >= p * a + p
  {
    var d := b - a - 1;
    assert p * b == p * (a + 1 + d) == p * a + p + p * d;
    assert p * d >= 0;
  }

  lemma TickClosed(t: Timer, r: nat, fired: nat, now: Timer)
    requires Closed(t, r, fired, now) && now.running
    ensures Closed(t, r + 1, fired + (if Fires(now) then 1 else 0), TickTimer(now))
  {
    var m, p := FirstFire(t), Period(t);
    if r >= m {
      DivStep(r - m, p);
      if t.interval <= 0 { assert (r - m) / 1 == r - m && (r + 1 - m) / 1 == r + 1 - m; }
    } else if r + 1 == m {
      assert 0 / p == 0 && 0 % p == 0;
    }
  }

  /** After any interleaving of starts, stops and ticks, `r` of them taken while running, the
      timer has fired 0 times if r < max(value, 1) and 1 + (r - max(value, 1)) / interval times
      otherwise, and the value left is determined by `r` alone. A timer without a positive
      interval fires on every running tick from the first fire on. */
  lemma {:induction false} ClosedForm(t: Timer, ops: seq<Op>)
    ensures Closed(t, RunningTicks(t, ops), Fired(t, ops), Run(t, ops))
    decreases |ops|
  {
    if ops != [] {
      var before := ops[..|ops| - 1];
      ClosedForm(t, before);
      if ops[|ops| - 1].Tick? && Run(t, before).running {
        TickClosed(t, RunningTicks(t, before), Fired(t, before), Run(t, before));
      }
    }
  }

  /** A timer with no positive interval stops when it fires, and nothing but Start makes it
      fire again. */
  lemma {:induction false} OneShotStops(t: Timer, ops: seq<Op>)
    requires t.interval <= 0 && Fires(t) && Start !in ops
    ensures !Run(TickTimer(t), ops).running && Fired(TickTimer(t), ops) == 0
    decreases |ops|
  {
    if ops != [] {
      OneShotStops(t, ops[..|ops| - 1]);
      assert ops[|ops| - 1] in ops;
    }
  }

  /** Some event has been sent exactly if FirstFire running ticks have passed. */
  lemma FiresAtFirst(t: Timer, ops: seq<Op>)
    ensures Fired(t, ops) >= 1 <==> RunningTicks(t, ops) >= FirstFire(t)
  {
    ClosedForm(t, ops);
    var r, m, p := RunningTicks(t, ops), FirstFire(t), Period(t);
    if r >= m { assert (r - m) / p >= 0; }
  }

  /** Extend moves the next event by exactly `k` running ticks if and only if the remaining
      value is positive before and after, or `k` is zero. */
  lemma ExtendDelays(t: Timer, k: int, ops: seq<Op>)
    ensures FirstFire(Extend(t, k)) == FirstFire(t) + k <==> k == 0 || (t.value >= 1 && t.value + k >= 1)
    ensures t.value >= 1 && k >= 0 ==>
              (Fired(Extend(t, k), ops) >= 1 <==> RunningTicks(Extend(t, k), ops) >= FirstFire(t) + k)
  {
    FiresAtFirst(Extend(t, k), ops);
  }

  // ----- what the starts and stops of a run mean -----

  ghost predicate OnlyTicks(ops: seq<Op>) {
    forall i :: 0 <= i < |ops| ==> ops[i] == Tick
  }

  ghost predicate StartedAt(ops: seq<Op>, i: nat) {
    i < |ops| && ops[i] == Start && OnlyTicks(ops[i + 1..])
  }

  /** The last Start or Stop of the run is a Start, or there is none and the timer ran before. */
  ghost predicate SwitchedOn(was: bool, ops: seq<Op>) {
    (exists i: nat :: StartedAt(ops, i)) || (was && OnlyTicks(ops))
  }

  /** The ticks of a run that come after a Start that no Stop has followed yet. */
  ghost function TicksWhileOn(was: bool, ops: seq<Op>): nat {
    if ops == [] then 0 else
    var before := ops[..|ops| - 1];
    TicksWhileOn(was, before) + if ops[|ops| - 1].Tick? && SwitchedOn(was, before) then 1 else 0
  }

  lemma TicksConcat(a: seq<Op>, b: seq<Op>)
    ensures OnlyTicks(a + b) <==> OnlyTicks(a) && OnlyTicks(b)
  {
    if OnlyTicks(a + b) {
      assert forall i :: 0 <= i < |a| ==> a[i] == (a + b)[i];
      assert forall i :: 0 <= i < |b| ==> b[i] == (a + b)[|a| + i];
    }
  }

  lemma SwitchedSnoc(was: bool, ops: seq<Op>)
    requires ops != []
    ensures var before := ops[..|ops| - 1];
            SwitchedOn(was, ops) <==>
              match ops[|ops| - 1] case Start => true case Stop => false case Tick => SwitchedOn(was, before)
  {
    var n := |ops| - 1;
    var before := ops[..n];
    if ops[n] == Start {
      assert StartedAt(ops, n);
    } else if ops[n] == Tick {
      if i: nat :| StartedAt(before, i) {
        assert ops[i + 1..] == before[i + 1..] + [Tick];
        TicksConcat(before[i + 1..], [Tick]);
        assert StartedAt(ops, i);
      }
      if i: nat :| StartedAt(ops, i) {
        assert ops[i + 1..] == before[i + 1..] + [Tick];
        TicksConcat(before[i + 1..], [Tick]);
        assert StartedAt(before, i);
      }
      TicksConcat(before, [Tick]);
      assert ops == before + [Tick];
    }
  }

  /** A periodic timer runs exactly if it was last started and not stopped since. */
  lemma {:induction false} RunsExactlyIfStarted(t: Timer, ops: seq<Op>)
    requires t.interval > 0
    ensures Run(t, ops).running <==> SwitchedOn(t.running, ops)
    ensures Run(t, ops).interval == t.interval
    decreases |ops|
  {
    hide SwitchedOn;
    if ops == [] {
      NeverSwitched(t.running);
    } else {
      RunsExactlyIfStarted(t, ops[..|ops| - 1]);
      SwitchedSnoc(t.running, ops);
    }
  }

  lemma NeverSwitched(was: bool)
    ensures SwitchedOn(was, []) <==> was
  {
    assert OnlyTicks([]);
  }

  lemma {:induction false} RunningTicksAre(t: Timer, ops: seq<Op>)
    requires t.interval > 0
    ensures RunningTicks(t, ops) == TicksWhileOn(t.running, ops)
    decreases |ops|
  {
    hide SwitchedOn;
    if ops != [] {
      RunningTicksAre(t, ops[..|ops| - 1]);
      RunsExactlyIfStarted(t, ops[..|ops| - 1]);
    }
  }

  /** The events of a periodic timer and the value it has left, from its starting value, its
      interval and the calls made alone. */
  lemma FiresByTheCalls(t: Timer, ops: seq<Op>)
    requires t.interval > 0
    ensures var r, first := TicksWhileOn(t.running, ops), if t.value < 1 then 1 else t.value;
            && Fired(t, ops) == (if r < first then 0 else 1 + (r - first) / t.interval)
            && Run(t, ops).value == if r < first then t.value - r else t.interval - (r - first) % t.interval
  {
    hide TicksWhileOn, Run, Fired, RunningTicks;
    RunningTicksAre(t, ops);
    ClosedForm(t, ops);
    assert Period(t) == t.interval && FirstFire(t) == if t.value < 1 then 1 else t.value;
  }

  /** Once a timer without a positive interval has fired, Start and one tick make it fire again,
      and it stops again. */
  lemma RestartFires(t: Timer, ops: seq<Op>)
    requires t.interval <= 0 && Fired(t, ops) >= 1
    ensures Fired(t, ops + [Start, Tick]) == Fired(t, ops) + 1
    ensures !Run(t, ops + [Start, Tick]).running
  {
    ClosedForm(t, ops);
    FiresAtFirst(t, ops);
    var all := ops + [Start, Tick];
    assert all[..|all| - 1] == ops + [Start] && (ops + [Start])[..|ops|] == ops;
    assert Fired(t, ops + [Start]) == Fired(t, ops);
    assert Run(t, ops + [Start]) == Run(t, ops).(running := true);
  }
}
