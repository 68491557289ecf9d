/** The queue of one event client: what EventPush and EventPop do to it, and what holds of
    it after every sequence of pushes, pops and enable calls. */
module ClientQueue {
  import opened Events

  datatype Client = Client(enabled: bool, queue: seq<Event>, accepted: nat)

  const NEW_CLIENT := Client(true, [], 0)

  /** The position of the first event with the given id, or the length if there is none. */
  function FirstWithId(q: seq<Event>, id: nat): (i: nat)
    ensures i <= |q|
    ensures i < |q| ==> q[i].id == id
    ensures forall j :: 0 <= j < i ==> q[j].id != id
  {
    if q == [] || q[0].id == id then 0 else 1 + FirstWithId(q[1..], id)
  }

  function DropAt(q: seq<Event>, i: nat): seq<Event> {
    if i < |q| then q[..i] + q[i + 1..] else q
  }

  function Insert(q: seq<Event>, e: Event): seq<Event> {
    if e.flags.highPriority then [e] + q else q + [e]
  }

  /** The queue after an enabled client accepted `e`. */
  function Accept(q: seq<Event>, e: Event): seq<Event> {
    Insert(if e.flags.exclusive then DropAt(q, FirstWithId(q, e.id)) else q, e)
  }

  /** The event an accepted push of `e` replaces, if any. */
  function Replaced(q: seq<Event>, e: Event): Option<Event> {
    var i := FirstWithId(q, e.id);
    if e.flags.exclusive && i < |q| then Some(q[i]) else None
  }

  function Stamp(e: Event, source: Option<ClientId>, arrival: nat): Event {
    e.(source := source, arrival := arrival)
  }

  function PushTo(c: Client, e: Event, source: Option<ClientId>): Client {
    if c.enabled
    then c.(queue := Accept(c.queue, Stamp(e, source, c.accepted)), accepted := c.accepted + 1)
    else c
  }

  /** EventPop leaves a sticky event where it is. */
  function PopFrom(c: Client): Client {
    if c.queue != [] && !c.queue[0].flags.sticky then c.(queue := c.queue[1..]) else c
  }

  function Front(c: Client): Option<Event> {
    if c.queue != [] then Some(c.queue[0]) else None
  }

  datatype Op = Push(event: Event, source: Option<ClientId>) | Pop | Enable(on: bool)

  function Apply(c: Client, op: Op): Client {
    match op
    case Push(e, source) => PushTo(c, e, source)
    case Pop => PopFrom(c)
    case Enable(on) => c.(enabled := on)
  }

  function Run(c: Client, ops: seq<Op>): Client {
    if ops == [] then c else Apply(Run(c, ops[..|ops| - 1]), ops[|ops| - 1])
  }

  lemma RunOne(c: Client, op: Op)
    ensures Run(c, [op]) == Apply(c, op)
  {
  }

  lemma {:induction false} RunAppend(c: Client, a: seq<Op>, b: seq<Op>)
    ensures Run(c, a + b) == Run(Run(c, a), b)
    decreases |b|
  {
    if b == [] {
      assert a + b == a;
    } else {
      assert (a + b)[..|a + b| - 1] == a + b[..|b| - 1];
      RunAppend(c, a, b[..|b| - 1]);
    }
  }

  // ----- the shape of every reachable queue -----

  /** High-priority events come first, newest first; normal ones follow, oldest first. */
  predicate Before(a: Event, b: Event) {
    if a.flags.highPriority
    then b.flags.highPriority ==> b.arrival < a.arrival
    else !b.flags.highPriority && a.arrival < b.arrival
  }

  ghost predicate Ordered(q: seq<Event>) {
    forall i, j :: 0 <= i < j < |q| ==> Before(q[i], q[j])
  }

  ghost predicate ArrivedBefore(q: seq<Event>, n: nat) {
    forall i :: 0 <= i < |q| ==> q[i].arrival < n
  }

  ghost predicate WellShaped(c: Client) {
    Ordered(c.queue) && ArrivedBefore(c.queue, c.accepted)
  }

  lemma DropKeepsShape(q: seq<Event>, i: nat, n: nat)
    requires Ordered(q) && ArrivedBefore(q, n)
    ensures Ordered(DropAt(q, i)) && ArrivedBefore(DropAt(q, i), n)
  {
  }

  lemma InsertKeepsShape(q: seq<Event>, e: Event)
    requires Ordered(q) && ArrivedBefore(q, e.arrival)
    ensures Ordered(Insert(q, e)) && ArrivedBefore(Insert(q, e), e.arrival + 1)
  {
  }

  lemma AcceptKeepsShape(q: seq<Event>, e: Event)
    requires Ordered(q) && ArrivedBefore(q, e.arrival)
    ensures Ordered(Accept(q, e)) && ArrivedBefore(Accept(q, e), e.arrival + 1)
  {
    DropKeepsShape(q, FirstWithId(q, e.id), e.arrival);
    InsertKeepsShape(if e.flags.exclusive then DropAt(q, FirstWithId(q, e.id)) else q, e);
  }

  lemma ApplyKeepsShape(c: Client, op: Op)
    requires WellShaped(c)
    ensures WellShaped(Apply(c, op))
  {
    if op.Push? {
      AcceptKeepsShape(c.queue, Stamp(op.event, op.source, c.accepted));
    }
  }

  /** Every queue reached from a well-shaped client is high-priority events in reverse
      arrival order, then normal events in arrival order. */
  lemma {:induction false} RunKeepsShape(c: Client, ops: seq<Op>)
    requires WellShaped(c)
    ensures WellShaped(Run(c, ops))
    decreases |ops|
  {
    if ops != [] {
      RunKeepsShape(c, ops[..|ops| - 1]);
      ApplyKeepsShape(Run(c, ops[..|ops| - 1]), ops[|ops| - 1]);
    }
  }

  /** The order leaves no freedom: two well-ordered queues with the same events are equal. */
  lemma {:induction false} OrderIsUnique(q: seq<Event>, r: seq<Event>)
    requires Ordered(q) && Ordered(r) && multiset(q) == multiset(r)
    ensures q == r
    decreases |q|
  {
    assert |q| == |multiset(q)| == |multiset(r)| == |r|;
    if q != [] {
      SameFront(q, r);
      assert q == [q[0]] + q[1..] && r == [r[0]] + r[1..];
      assert multiset(q[1..]) == multiset(q) - multiset{q[0]} == multiset(r[1..]);
      OrderIsUnique(q[1..], r[1..]);
    }
  }

  lemma SameFront(q: seq<Event>, r: seq<Event>)
    requires Ordered(q) && Ordered(r) && multiset(q) == multiset(r) && q != [] && r != []
    ensures q[0] == r[0]
  {
    assert q[0] in multiset(r) && r[0] in multiset(q);
    var i :| 0 <= i < |r| && r[i] == q[0];
    var j :| 0 <= j < |q| && q[j] == r[0];
    assert j > 0 ==> Before(q[0], q[j]);
    assert i > 0 ==> Before(r[0], r[i]);
  }

  // ----- normal events leave in the order they came -----

  /** The events a run of operations pops, oldest pop first. */
  function Pops(c: Client, ops: seq<Op>): seq<Event> {
    if ops == [] then [] else
    var before := ops[..|ops| - 1];
    var front := Front(Run(c, before));
    Pops(c, before) + if ops[|ops| - 1].Pop? && front.Some? then [front.value] else []
  }

  /** `a` left no later than `b`; only a sticky event leaves more than once. */
  predicate NoLater(a: Event, b: Event) {
    !a.flags.highPriority && !b.flags.highPriority ==>
      a.arrival < b.arrival || (a == b && a.flags.sticky)
  }

  ghost predicate AllNoLater(xs: seq<Event>, ys: seq<Event>) {
    forall i, j :: 0 <= i < |xs| && 0 <= j < |ys| ==> NoLater(xs[i], ys[j])
  }

  ghost predicate InPushOrder(xs: seq<Event>) {
    forall i, j :: 0 <= i < j < |xs| ==> NoLater(xs[i], xs[j])
  }

  lemma AcceptKeepsLater(xs: seq<Event>, q: seq<Event>, e: Event)
    requires AllNoLater(xs, q) && ArrivedBefore(xs, e.arrival)
    ensures AllNoLater(xs, Accept(q, e))
  {
  }

  /** Whatever exclusive replacements and sticky pops happen in between, the normal events
      a client pops come out in the order in which they were pushed. */
  lemma {:induction false} NormalPopsInPushOrder(c: Client, ops: seq<Op>)
    requires WellShaped(c)
    ensures InPushOrder(Pops(c, ops))
    ensures AllNoLater(Pops(c, ops), Run(c, ops).queue)
    ensures ArrivedBefore(Pops(c, ops), Run(c, ops).accepted)
    decreases |ops|
  {
    if ops != [] {
      var before, op := ops[..|ops| - 1], ops[|ops| - 1];
      NormalPopsInPushOrder(c, before);
      RunKeepsShape(c, before);
      var d, xs := Run(c, before), Pops(c, before);
      match op {
        case Push(e, source) =>
          AcceptKeepsLater(xs, d.queue, Stamp(e, source, d.accepted));
        case Pop =>
          if d.queue != [] { PopKeepsPushOrder(xs, d); }
        case Enable(_) =>
      }
    }
  }

  lemma PopKeepsPushOrder(xs: seq<Event>, d: Client)
    requires WellShaped(d) && d.queue != []
    requires InPushOrder(xs) && AllNoLater(xs, d.queue)
    ensures InPushOrder(xs + [d.queue[0]])
    ensures AllNoLater(xs + [d.queue[0]], PopFrom(d).queue)
  {
  }

  // ----- exclusive events -----

  function CountId(q: seq<Event>, id: nat): nat {
    if q == [] then 0 else (if q[0].id == id then 1 else 0) + CountId(q[1..], id)
  }

  /** The queue without the events of one id. */
  function Others(q: seq<Event>, id: nat): seq<Event> {
    if q == [] then [] else (if q[0].id == id then [] else [q[0]]) + Others(q[1..], id)
  }

  lemma {:induction false} SplitConcat(q: seq<Event>, r: seq<Event>, id: nat)
    ensures CountId(q + r, id) == CountId(q, id) + CountId(r, id)
    ensures Others(q + r, id) == Others(q, id) + Others(r, id)
  {
    if q == [] {
      assert q + r == r;
    } else {
      assert (q + r)[1..] == q[1..] + r;
      SplitConcat(q[1..], r, id);
    }
  }

  lemma {:induction false} CountZero(q: seq<Event>, id: nat)
    ensures CountId(q, id) == 0 <==> FirstWithId(q, id) == |q|
  {
    if q != [] && q[0].id != id { CountZero(q[1..], id); }
  }

  lemma DropFirstSplit(q: seq<Event>, id: nat)
    ensures var d := DropAt(q, FirstWithId(q, id));
            && Others(d, id) == Others(q, id)
            && CountId(d, id) == if CountId(q, id) == 0 then 0 else CountId(q, id) - 1
  {
    CountZero(q, id);
    var i := FirstWithId(q, id);
    if i < |q| {
      assert q == q[..i] + ([q[i]] + q[i + 1..]);
      SplitConcat(q[..i], [q[i]] + q[i + 1..], id);
      SplitConcat([q[i]], q[i + 1..], id);
      SplitConcat(q[..i], q[i + 1..], id);
    }
  }

  /** An exclusive push replaces an event of its id rather than adding one, and neither it
      nor a plain push moves any event of another id. */
  lemma PushKeepsOthers(q: seq<Event>, e: Event)
    ensures Others(Accept(q, e), e.id) == Others(q, e.id)
    ensures CountId(Accept(q, e), e.id) ==
            if e.flags.exclusive && CountId(q, e.id) > 0 then CountId(q, e.id) else CountId(q, e.id) + 1
  {
    if e.flags.exclusive {
      DropFirstSplit(q, e.id);
      InsertSplit(DropAt(q, FirstWithId(q, e.id)), e, e.id);
    } else {
      InsertSplit(q, e, e.id);
    }
  }

  lemma InsertSplit(q: seq<Event>, e: Event, id: nat)
    ensures CountId(Insert(q, e), id) == CountId(q, id) + if e.id == id then 1 else 0
    ensures e.id == id ==> Others(Insert(q, e), id) == Others(q, id)
  {
    SplitConcat([e], q, id);
    SplitConcat(q, [e], id);
  }

  ghost predicate AlwaysExclusive(ops: seq<Op>, id: nat) {
    forall i :: 0 <= i < |ops| && ops[i].Push? && ops[i].event.id == id ==> ops[i].event.flags.exclusive
  }

  /** The last event of an id that the client accepted during a run, as queued. */
  function LastAccepted(c: Client, ops: seq<Op>, id: nat): Option<Event> {
    if ops == [] then None else
    var before, op := ops[..|ops| - 1], ops[|ops| - 1];
    var d := Run(c, before);
    if op.Push? && op.event.id == id && d.enabled
    then Some(Stamp(op.event, op.source, d.accepted))
    else LastAccepted(c, before, id)
  }

  /** The events of an id that is only ever pushed exclusively: at most one is queued, and
      it is the one accepted last. */
  lemma {:induction false} ExclusiveIsLatest(c: Client, ops: seq<Op>, id: nat)
    requires c.queue == [] && AlwaysExclusive(ops, id)
    ensures CountId(Run(c, ops).queue, id) <= 1
    ensures forall i :: 0 <= i < |Run(c, ops).queue| && Run(c, ops).queue[i].id == id ==>
              LastAccepted(c, ops, id) == Some(Run(c, ops).queue[i])
    decreases |ops|
  {
    if ops != [] {
      var before, op := ops[..|ops| - 1], ops[|ops| - 1];
      var d := Run(c, before);
      ExclusiveIsLatest(c, before, id);
      match op {
        case Push(e, source) =>
          if d.enabled { AcceptExclusive(d.queue, Stamp(e, source, d.accepted), id); }
        case Pop =>
          if d.queue != [] { assert d.queue == [d.queue[0]] + d.queue[1..]; }
        case Enable(_) =>
      }
    }
  }

  lemma AcceptExclusive(q: seq<Event>, e: Event, id: nat)
    requires CountId(q, id) <= 1
    requires e.id == id ==> e.flags.exclusive
    ensures CountId(Accept(q, e), id) <= 1
    ensures forall i :: 0 <= i < |Accept(q, e)| && Accept(q, e)[i].id == id ==>
              if e.id == id then Accept(q, e)[i] == e else Accept(q, e)[i] in q
  {
    var r := Accept(q, e);
    var k := FirstWithId(q, e.id);
    var d := if e.flags.exclusive then DropAt(q, k) else q;
    if e.id == id {
      PushKeepsOthers(q, e);
      DropFirstSplit(q, id);
      CountZero(d, id);
    } else {
      OtherIdCount(q, e, id);
      assert forall x :: x in d ==> x in q;
    }
  }

  lemma DropOther(q: seq<Event>, k: nat, id: nat)
    requires k < |q| && q[k].id != id
    ensures CountId(DropAt(q, k), id) == CountId(q, id)
  {
    assert q == q[..k] + ([q[k]] + q[k + 1..]);
    SplitConcat(q[..k], [q[k]] + q[k + 1..], id);
    SplitConcat([q[k]], q[k + 1..], id);
    SplitConcat(q[..k], q[k + 1..], id);
  }

  lemma OtherIdCount(q: seq<Event>, e: Event, id: nat)
    requires e.id != id
    ensures CountId(Accept(q, e), id) == CountId(q, id)
  {
    var k := FirstWithId(q, e.id);
    if e.flags.exclusive && k < |q| {
      DropOther(q, k, id);
      InsertSplit(DropAt(q, k), e, id);
    } else {
      InsertSplit(q, e, id);
    }
  }

  // ----- a queued QUIT stays, and hides every normal event -----

  predicate ProperQuit(e: Event) {
    e.id == QUIT ==> e.flags.sticky && e.flags.highPriority
  }

  ghost predicate ProperQuits(q: seq<Event>) {
    forall i :: 0 <= i < |q| ==> ProperQuit(q[i])
  }

  ghost predicate OpsProper(ops: seq<Op>) {
    forall i :: 0 <= i < |ops| && ops[i].Push? ==> ProperQuit(ops[i].event)
  }

  ghost predicate HoldsQuit(c: Client) {
    HasQuit(c.queue)
  }

  /** What a pop returns now is not a normal event. */
  predicate FrontIsHigh(c: Client) {
    Front(c).Some? && Front(c).value.flags.highPriority
  }

  ghost predicate HasQuit(q: seq<Event>) {
    exists i :: 0 <= i < |q| && q[i].id == QUIT
  }

  lemma DropKeepsQuits(q: seq<Event>, k: nat)
    requires ProperQuits(q)
    ensures ProperQuits(DropAt(q, k))
    ensures HasQuit(q) && k < |q| && q[k].id != QUIT ==> HasQuit(DropAt(q, k))
  {
    if i :| 0 <= i < |q| && q[i].id == QUIT && k < |q| && q[k].id != QUIT {
      assert DropAt(q, k)[if k < i then i - 1 else i] == q[i];
    }
  }

  lemma InsertKeepsQuits(q: seq<Event>, e: Event)
    requires ProperQuits(q) && ProperQuit(e)
    ensures ProperQuits(Insert(q, e))
    ensures HasQuit(q) || e.id == QUIT ==> HasQuit(Insert(q, e))
  {
    var r := Insert(q, e);
    if e.id == QUIT {
      assert r[if e.flags.highPriority then 0 else |q|] == e;
    } else if i :| 0 <= i < |q| && q[i].id == QUIT {
      assert r[if e.flags.highPriority then i + 1 else i] == q[i];
    }
  }

  lemma AcceptKeepsQuits(q: seq<Event>, e: Event)
    requires ProperQuits(q) && ProperQuit(e)
    ensures ProperQuits(Accept(q, e))
    ensures HasQuit(q) || e.id == QUIT ==> HasQuit(Accept(q, e))
  {
    var k := FirstWithId(q, e.id);
    DropKeepsQuits(q, k);
    InsertKeepsQuits(if e.flags.exclusive then DropAt(q, k) else q, e);
  }

  lemma ApplyKeepsQuits(c: Client, op: Op)
    requires ProperQuits(c.queue) && OpsProper([op])
    ensures ProperQuits(Apply(c, op).queue)
    ensures HoldsQuit(c) ==> HoldsQuit(Apply(c, op))
  {
    assert [op][0] == op;
    match op {
      case Push(e, source) =>
        AcceptKeepsQuits(c.queue, Stamp(e, source, c.accepted));
      case Pop =>
        if i :| 0 <= i < |c.queue| && c.queue[i].id == QUIT && !c.queue[0].flags.sticky {
          assert c.queue[1..][i - 1] == c.queue[i];
        }
      case Enable(_) =>
    }
  }

  /** A client that holds a QUIT holds one for ever, and its front is never a normal event. */
  lemma {:induction false} QuitStays(c: Client, ops: seq<Op>)
    requires WellShaped(c) && ProperQuits(c.queue) && OpsProper(ops)
    ensures ProperQuits(Run(c, ops).queue)
    ensures HoldsQuit(c) ==> HoldsQuit(Run(c, ops))
    ensures HoldsQuit(c) ==> FrontIsHigh(Run(c, ops))
    decreases |ops|
  {
    if ops != [] {
      QuitStays(c, ops[..|ops| - 1]);
      ApplyKeepsQuits(Run(c, ops[..|ops| - 1]), ops[|ops| - 1]);
    }
    RunKeepsShape(c, ops);
    var q := Run(c, ops).queue;
    if HoldsQuit(c) {
      var i :| 0 <= i < |q| && q[i].id == QUIT;
      assert i > 0 ==> Before(q[0], q[i]);
    }
  }

  // ----- how the consumer gets to the QUIT -----

  function FirstSticky(q: seq<Event>): (i: nat)
    ensures i <= |q|
    ensures i < |q| ==> q[i].flags.sticky
    ensures forall j :: 0 <= j < i ==> !q[j].flags.sticky
  {
    if q == [] || q[0].flags.sticky then 0 else 1 + FirstSticky(q[1..])
  }

  function Drain(n: nat): (ops: seq<Op>)
    ensures |ops| == n && forall i :: 0 <= i < n ==> ops[i] == Pop
  {
    seq(n, _ => Pop)
  }

  /** Popping without pushes takes the events one by one up to the first sticky one, and
      stays there. */
  lemma {:induction false} DrainStopsAtSticky(c: Client, n: nat)
    ensures var k := FirstSticky(c.queue);
            Run(c, Drain(n)) == c.(queue := c.queue[if n < k then n else k..])
  {
    hide PopFrom, FirstSticky;
    if n > 0 {
      DrainStopsAtSticky(c, n - 1);
      assert Drain(n)[..n - 1] == Drain(n - 1);
      var k := FirstSticky(c.queue);
      PopBeforeSticky(c, if n - 1 < k then n - 1 else k);
    }
  }

  lemma PopBeforeSticky(c: Client, j: nat)
    requires j <= FirstSticky(c.queue)
    ensures var k := FirstSticky(c.queue);
            PopFrom(c.(queue := c.queue[j..])) == c.(queue := c.queue[if j < k then j + 1 else j..])
  {
    if j < |c.queue| { assert c.queue[j..][1..] == c.queue[j + 1..]; }
  }

  /** The main loop, which pops until it sees a QUIT, ends if and only if the first sticky
      event of its queue is one. */
  lemma LoopEndsExactlyIf(c: Client)
    requires ProperQuits(c.queue)
    ensures (exists n: nat :: Front(Run(c, Drain(n))).Some? && Front(Run(c, Drain(n))).value.id == QUIT)
            <==> FirstSticky(c.queue) < |c.queue| && c.queue[FirstSticky(c.queue)].id == QUIT
  {
    var k := FirstSticky(c.queue);
    DrainStopsAtSticky(c, k);
    if n: nat :| Front(Run(c, Drain(n))).Some? && Front(Run(c, Drain(n))).value.id == QUIT {
      DrainStopsAtSticky(c, n);
    }
  }

  // ----- the consumer gets to the QUIT while others push -----

  function PopCount(ops: seq<Op>): nat {
    if ops == [] then 0 else PopCount(ops[..|ops| - 1]) + if ops[|ops| - 1].Pop? then 1 else 0
  }

  function PushCount(ops: seq<Op>): nat {
    if ops == [] then 0 else PushCount(ops[..|ops| - 1]) + if ops[|ops| - 1].Push? then 1 else 0
  }

  /** A high-priority event that a pop leaves in the queue is a QUIT. */
  predicate StaysOnlyIfQuit(e: Event) {
    e.flags.sticky && e.flags.highPriority ==> e.id == QUIT
  }

  ghost predicate OnlyQuitStays(q: seq<Event>) {
    forall i :: 0 <= i < |q| ==> StaysOnlyIfQuit(q[i])
  }

  ghost predicate OpsOnlyQuitStays(ops: seq<Op>) {
    forall i :: 0 <= i < |ops| && ops[i].Push? ==> StaysOnlyIfQuit(ops[i].event)
  }

  lemma AcceptKeepsOnlyQuit(q: seq<Event>, e: Event)
    requires OnlyQuitStays(q) && StaysOnlyIfQuit(e)
    ensures OnlyQuitStays(Accept(q, e)) && |Accept(q, e)| <= |q| + 1
  {
  }

  lemma {:induction false} RunKeepsOnlyQuit(c: Client, ops: seq<Op>)
    requires OnlyQuitStays(c.queue) && OpsOnlyQuitStays(ops)
    ensures OnlyQuitStays(Run(c, ops).queue)
    decreases |ops|
  {
    if ops != [] {
      var before, op := ops[..|ops| - 1], ops[|ops| - 1];
      RunKeepsOnlyQuit(c, before);
      var d := Run(c, before);
      if op.Push? { AcceptKeepsOnlyQuit(d.queue, Stamp(op.event, op.source, d.accepted)); }
    }
  }

  /** As long as a client that holds a QUIT has not popped one, every pop makes its queue
      shorter. */
  lemma {:induction false} PopsShorten(c: Client, ops: seq<Op>)
    requires WellShaped(c) && ProperQuits(c.queue) && OpsProper(ops) && HoldsQuit(c)
    requires OnlyQuitStays(c.queue) && OpsOnlyQuitStays(ops)
    ensures HasQuit(Pops(c, ops)) || |Run(c, ops).queue| + PopCount(ops) <= |c.queue| + PushCount(ops)
    decreases |ops|
  {
    if ops != [] {
      var before, op := ops[..|ops| - 1], ops[|ops| - 1];
      PopsShorten(c, before);
      QuitStays(c, before);
      RunKeepsOnlyQuit(c, before);
      var d := Run(c, before);
      if op.Push? { AcceptKeepsOnlyQuit(d.queue, Stamp(op.event, op.source, d.accepted)); }
      var xs, ys := Pops(c, before), Pops(c, ops);
      if i :| 0 <= i < |xs| && xs[i].id == QUIT { assert ys[i] == xs[i]; }
      if op.Pop? && d.queue[0].flags.sticky { assert ys[|xs|] == d.queue[0]; }
    }
  }

  /** A consumer that pops often enough meets the QUIT, whatever is pushed meanwhile: among as
      many pops as there are events queued at the start and pushed since, one returns a QUIT,
      provided no other high-priority event is sticky. */
  lemma QuitIsPopped(c: Client, ops: seq<Op>)
    requires WellShaped(c) && ProperQuits(c.queue) && OpsProper(ops) && HoldsQuit(c)
    requires OnlyQuitStays(c.queue) && OpsOnlyQuitStays(ops)
    requires PopCount(ops) >= |c.queue| + PushCount(ops)
    ensures HasQuit(Pops(c, ops))
  {
    PopsShorten(c, ops);
    QuitStays(c, ops);
  }
}
