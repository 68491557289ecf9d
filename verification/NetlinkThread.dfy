/** The netlink thread as an object: it walks received buffers, routes each message and
    dispatches the events that got a reply over the registry of event clients. */
module NetlinkThread {
  import opened Events
  import opened Bytes
  import EventBus
  import opened EventClients
  import opened NetlinkRouter
  import opened NetlinkBus
  import F = NetlinkFrames

  /** The fields of a message header. */
  function Parse(m: seq<byte>): Msg
    requires |m| >= F.HEADER
  {
    Msg(Number(m[4..6]), Number(m[6..8]) / 2 % 2 == 1, Number(m[8..12]), m)
  }

  lemma {:induction false} VisitedHaveHeaders(bs: seq<byte>)
    requires F.Receivable(bs)
    ensures forall i :: 0 <= i < |F.Visit(bs)| ==> |F.Visit(bs)[i]| >= F.HEADER
    decreases |bs|
  {
    if F.Ok(bs) { VisitedHaveHeaders(F.Rest(bs)); }
  }

  /** The router steps that a buffer stands for. */
  function KernelOps(ms: seq<seq<byte>>): (ops: seq<Op>)
    requires forall i :: 0 <= i < |ms| ==> |ms[i]| >= F.HEADER
    ensures |ops| == |ms|
  {
    if ms == [] then [] else [Kernel(Parse(ms[0]))] + KernelOps(ms[1..])
  }

  ghost function BufferOps(bs: seq<byte>): seq<Op>
    requires F.Receivable(bs)
  {
    VisitedHaveHeaders(bs);
    KernelOps(F.Visit(bs))
  }

  lemma {:induction false} RunFront(r: Router, op: Op, ops: seq<Op>)
    requires Valid(r)
    ensures Run(r, [op] + ops) == Run(Step(r, op), ops)
    decreases |ops|
  {
    hide Step, Valid;
    var all := [op] + ops;
    if ops == [] {
      assert all == [op] && all[..0] == [];
    } else {
      assert all[..|all| - 1] == [op] + ops[..|ops| - 1];
      RunFront(r, op, ops[..|ops| - 1]);
    }
  }

  /** The header test at position `at` is the one of the walk. */
  lemma HeaderAt(buffer: seq<byte>, left: seq<byte>, at: nat)
    requires F.Receivable(buffer) && F.LeftAt(buffer, left, at)
    ensures F.Receivable(left)
    ensures |left| == if at <= |buffer| then |buffer| - at else 0
    ensures at + F.HEADER <= |buffer| ==> F.Announced(left) == Number(buffer[at..at + 4])
    ensures F.Ok(left) ==> left[..F.Announced(left)] == buffer[at..at + F.Announced(left)]
  {
    hide Number;
    if at + F.HEADER <= |buffer| { assert left[..4] == buffer[at..at + 4]; }
  }

  /** Routing the first message of what is left, and then the rest, routes all of it. */
  lemma RouteFirst(r: Router, left: seq<byte>)
    requires Valid(r) && F.Receivable(left) && F.Ok(left)
    ensures Run(r, BufferOps(left)) == Run(Reply(r, Parse(left[..F.Announced(left)])), BufferOps(F.Rest(left)))
  {
    hide Valid, Reply, F.Announced, Parse;
    VisitedHaveHeaders(F.Rest(left));
    var m := left[..F.Announced(left)];
    RunFront(r, Kernel(Parse(m)), KernelOps(F.Visit(F.Rest(left))));
    assert F.Visit(left)[1..] == F.Visit(F.Rest(left));
  }

  lemma RouteNothing(r: Router, left: seq<byte>)
    requires Valid(r) && F.Receivable(left) && !F.Ok(left)
    ensures Run(r, BufferOps(left)) == r
  {
  }

  lemma LeftAtStart(buffer: seq<byte>)
    ensures F.LeftAt(buffer, buffer, 0)
  {
  }

  // ----- the header fields -----

  /** A message with its header fields; the length in the header is that of the whole. */
  datatype Frame = Frame(typ: nat, flags: nat, seqno: nat, pid: nat, payload: seq<byte>)

  ghost predicate InRange(f: Frame) {
    && f.typ < 0x1_0000 && f.flags < 0x1_0000 && f.seqno < TWO_32 && f.pid < TWO_32
    && 16 + |f.payload| < TWO_32 - 3
  }

  /** `m` is the frame on the wire: length, type, flags, sequence number and sender, in 4, 2, 2,
      4 and 4 bytes with the least significant first, then the payload. */
  ghost predicate OnTheWire(m: seq<byte>, f: Frame) {
    && |m| == 16 + |f.payload| && m[16..] == f.payload
    && Four(m, 0) == |m| && Two(m, 4) == f.typ && Two(m, 6) == f.flags
    && Four(m, 8) == f.seqno && Four(m, 12) == f.pid
  }

  /** What the router is to see of a frame: the flag with value 2 marks a part of many. */
  function Seen(f: Frame, m: seq<byte>): Msg {
    Msg(f.typ, f.flags % 4 >= 2, f.seqno, m)
  }

  lemma FieldIs(m: seq<byte>, at: nat)
    ensures at + 2 <= |m| ==> Number(m[at..at + 2]) == Two(m, at)
    ensures at + 4 <= |m| ==> Number(m[at..at + 4]) == Four(m, at)
  {
    hide Number;
    if at + 2 <= |m| { NumberIs(m[at..at + 2]); }
    if at + 4 <= |m| { NumberIs(m[at..at + 4]); }
  }

  /** Every frame is parsed to its own type, number and multipart flag, and its announced length
      is that of the whole message. */
  lemma ParsesTheFields(m: seq<byte>, f: Frame)
    requires OnTheWire(m, f)
    ensures Parse(m) == Seen(f, m) && F.IsFrame(m)
  {
    hide Number, Two, Four;
    FieldIs(m, 0);
    assert m[..4] == m[0..4];
    FieldIs(m, 4);
    FieldIs(m, 6);
    FieldIs(m, 8);
    SecondBit(f.flags);
  }

  lemma SecondBit(n: nat)
    ensures n / 2 % 2 == 1 <==> n % 4 >= 2
  {
  }

  /** There is a message for every frame whose fields are in range. */
  lemma EveryFrameHasBytes(f: Frame)
    requires InRange(f)
    ensures exists m :: OnTheWire(m, f)
  {
    hide Four, Two;
    var n := 16 + |f.payload|;
    var a, b, c, d, e := Bytes4(n), Bytes2(f.typ), Bytes2(f.flags), Bytes4(f.seqno), Bytes4(f.pid);
    Bytes4Are(n);
    Bytes2Are(f.typ);
    Bytes2Are(f.flags);
    Bytes4Are(f.seqno);
    Bytes4Are(f.pid);
    var m := a + b + c + d + e + f.payload;
    assert m[0..4] == a && m[4..6] == b && m[6..8] == c && m[8..12] == d && m[12..16] == e && m[16..] == f.payload;
    SameField(m, 0);
    SameField(m, 4);
    SameField(m, 6);
    SameField(m, 8);
    SameField(m, 12);
    assert OnTheWire(m, f);
  }

  lemma SameField(m: seq<byte>, at: nat)
    ensures at + 2 <= |m| ==> Two(m, at) == Two(m[at..at + 2], 0)
    ensures at + 4 <= |m| ==> Four(m, at) == Four(m[at..at + 4], 0)
  {
  }

  function Bytes2(n: nat): (bs: seq<byte>)
    requires n < 0x1_0000
    ensures |bs| == 2
  {
    [n % 256, n / 256]
  }

  function Bytes4(n: nat): (bs: seq<byte>)
    requires n < TWO_32
    ensures |bs| == 4
  {
    Bytes2(n % 0x1_0000) + Bytes2(n / 0x1_0000)
  }

  lemma Bytes2Are(n: nat)
    requires n < 0x1_0000
    ensures Two(Bytes2(n), 0) == n
  {
  }

  lemma Bytes4Are(n: nat)
    requires n < TWO_32
    ensures Four(Bytes4(n), 0) == n
  {
    Bytes2Are(n % 0x1_0000);
    Bytes2Are(n / 0x1_0000);
  }

  ghost predicate Carries(ps: seq<F.Padded>, fs: seq<Frame>) {
    |ps| == |fs| && forall i :: 0 <= i < |ps| ==> F.WellPadded(ps[i]) && OnTheWire(ps[i].frame, fs[i])
  }

  lemma {:induction false} OpsOfFrames(ps: seq<F.Padded>, fs: seq<Frame>)
    requires Carries(ps, fs)
    ensures forall i :: 0 <= i < |ps| ==> |F.FramesOf(ps)[i]| >= F.HEADER
    ensures forall i :: 0 <= i < |ps| ==> KernelOps(F.FramesOf(ps))[i] == Kernel(Seen(fs[i], ps[i].frame))
  {
    hide OnTheWire, F.WellPadded, Parse;
    if ps != [] {
      OpsOfFrames(ps[1..], fs[1..]);
      ParsesTheFields(ps[0].frame, fs[0]);
      assert F.FramesOf(ps)[1..] == F.FramesOf(ps[1..]);
    }
  }

  /** From bytes to routing: a buffer of padded frames is routed as exactly the messages with
      the type, number and multipart flag of each frame, in order, also when some or all of the
      last padding is missing. */
  lemma BufferIsItsFrames(ps: seq<F.Padded>, fs: seq<Frame>, cut: nat)
    requires Carries(ps, fs) && F.Receivable(F.Concat(ps)) && cut <= |F.Concat(ps)|
    requires cut <= if ps == [] then 0 else |ps[|ps| - 1].padding|
    ensures var buffer := F.Concat(ps)[..|F.Concat(ps)| - cut];
            && |BufferOps(buffer)| == |fs|
            && forall i :: 0 <= i < |fs| ==> BufferOps(buffer)[i] == Kernel(Seen(fs[i], ps[i].frame))
  {
    hide F.Visit, F.WellPadded, OnTheWire, KernelOps;
    F.VisitsEveryFrame(ps, cut);
    OpsOfFrames(ps, fs);
  }

  /** The walk goes on exactly as long as a whole header is left that announces at least a header
      and no more than is left. */
  lemma GoesOnExactlyIf(bs: seq<byte>)
    requires F.Receivable(bs)
    ensures F.Visit(bs) != [] <==> |bs| >= 16 && 16 <= Four(bs, 0) <= |bs|
    ensures F.Visit(bs) != [] ==> F.Visit(bs)[0] == bs[..Four(bs, 0)]
  {
    hide Number, F.Rest;
    FieldIs(bs, 0);
    if |bs| >= 4 { assert bs[..4] == bs[0..4]; }
  }

  class Thread {
    const self: ClientId
    const registry: Registry
    var nlSeq: nat
    var epoch: nat
    var table: seq<nat>
    var events: seq<NlEvent>
    var posted: seq<Event>

    constructor (self: ClientId, registry: Registry)
      ensures View() == EMPTY_ROUTER && Valid(View())
      ensures this.self == self && this.registry == registry
    {
      this.self, this.registry := self, registry;
      nlSeq, epoch, table, events, posted := 0, 0, [], [], [];
    }

    function View(): Router
      reads this
    {
      Router(nlSeq, epoch, table, events, posted)
    }

    /** ProcessEvent and SendNetlinkQuery for a newly received event; `now` is the clock. */
    method ProcessEvent(req: Request, now: int)
      requires Valid(View())
      modifies this
      ensures Valid(View()) && View() == Issue(old(View()), req, now)
    {
      hide Valid;
      var seqno := 0;
      if req.kind == Query && req.query in QUERIES {
        nlSeq := (nlSeq + 1) % TWO_32;
        if nlSeq >= now - DAY {
          nlSeq := 1;
          epoch := epoch + 1;
        }
        seqno := nlSeq;
      }
      var e := req.event.(data := |events|);
      var source := match e.target case To(c) => Some(c) case _ => None;
      var target := match e.source case Some(c) => To(c) case None => Unset;
      e := e.(source := source, target := target);
      table := table + [|events|];
      events := events + [NlEvent(req.kind, req.query, e, seqno, epoch, [], [])];
      assert View() == Issue(old(View()), req, now);
    }

    /** Append a reply to an event and dispatch the event to its client. */
    method AddReplyAndPost(h: nat, m: Msg)
      requires h < |events| && registry.Valid()
      modifies this`events, this`posted, registry`next, registry`destroyed, registry.clients
      ensures registry.Valid() && View() == Deliver(old(View()), h, m)
      ensures Announced(old(posted), old(registry.View()), posted, registry.View(), self)
    {
      hide EventBus.Dispatch, Announced;
      var e := events[h].event;
      AnnouncedOne(posted, registry.View(), e, self);
      events := events[h := events[h].(listed := events[h].listed + [m])];
      registry.EventDispatch(e, Some(self), e.target);
      posted := posted + [e];
    }

    method SendToWatches(m: Msg)
      requires Valid(View()) && registry.Valid()
      modifies this`events, this`posted, registry`next, registry`destroyed, registry.clients
      ensures registry.Valid() && View() == DeliverToWatches(old(View()), |old(table)|, m)
      ensures Announced(old(posted), old(registry.View()), posted, registry.View(), self)
    {
      hide Deliver, DeliverToWatches, Announced, Registry.View, Registry.Valid;
      ghost var start, posted0, bus0 := View(), posted, registry.View();
      WatchesNone(start, m);
      AnnouncedNothing(posted, bus0, self);
      var i := 0;
      while i < |table|
        invariant registry.Valid() && i <= |table| && View() == DeliverToWatches(start, i, m)
        invariant Announced(posted0, bus0, posted, registry.View(), self)
      {
        WatchesNext(start, i, m);
        if events[table[i]].kind == RouteWatch {
          ghost var p, b := posted, registry.View();
          AddReplyAndPost(table[i], m);
          AnnouncedTrans(posted0, bus0, p, b, posted, registry.View(), self);
        }
        i := i + 1;
      }
    }

    method FindAwaiting(seqno: nat) returns (i: nat)
      requires Valid(View())
      ensures i == FirstAwaiting(View(), 0, seqno)
    {
      i := 0;
      while i < |table| && !(events[table[i]].kind == Query && events[table[i]].seqno == seqno)
        invariant i <= |table| && FirstAwaiting(View(), 0, seqno) == FirstAwaiting(View(), i, seqno)
      {
        i := i + 1;
      }
    }

    method SendNetlinkReply(m: Msg)
      requires Valid(View()) && registry.Valid()
      modifies this`events, this`posted, this`table, registry`next, registry`destroyed, registry.clients
      ensures registry.Valid() && View() == Reply(old(View()), m)
      ensures Announced(old(posted), old(registry.View()), posted, registry.View(), self)
    {
      hide DeliverToWatches, FirstAwaiting, Deliver, Announced, Registry.View, Registry.Valid;
      AnnouncedNothing(posted, registry.View(), self);
      if m.typ == RTM_NEWROUTE || m.typ == RTM_DELROUTE {
        SendToWatches(m);
        return;
      }
      if m.typ == NLMSG_NOOP { return; }
      var i := FindAwaiting(m.seqno);
      if i < |table| {
        AddReplyAndPost(table[i], m);
        if IsLast(m) {
          table := table[..i] + table[i + 1..];
        }
      }
    }

    /** Walk the received buffer and route every message in it. */
    method ProcessNetlinkMessage(buffer: seq<byte>)
      requires Valid(View()) && F.Receivable(buffer) && registry.Valid()
      modifies this`events, this`posted, this`table, registry`next, registry`destroyed, registry.clients
      ensures registry.Valid() && Valid(View()) && View() == Run(old(View()), BufferOps(buffer))
      ensures Announced(old(posted), old(registry.View()), posted, registry.View(), self)
    {
      hide Number, Reply, Valid, Run, BufferOps, Parse, F.Align, F.LeftAt, F.Rest, F.Announced;
      hide Announced, Registry.View, Registry.Valid;
      var at, length: int := 0, |buffer|;
      ghost var left, posted0, bus0 := buffer, posted, registry.View();
      LeftAtStart(buffer);
      AnnouncedNothing(posted, bus0, self);
      while length >= F.HEADER && F.HEADER <= Number(buffer[at..at + 4]) <= length
        invariant Valid(View()) && registry.Valid() && 0 <= at && length == |buffer| - at
        invariant F.LeftAt(buffer, left, at) && F.Receivable(left)
        invariant Run(View(), BufferOps(left)) == Run(old(View()), BufferOps(buffer))
        invariant Announced(posted0, bus0, posted, registry.View(), self)
        decreases length
      {
        HeaderAt(buffer, left, at);
        var n := Number(buffer[at..at + 4]);
        F.RestLeft(buffer, left, at);
        RouteFirst(View(), left);
        ghost var p, b := posted, registry.View();
        SendNetlinkReply(Parse(buffer[at..at + n]));
        AnnouncedTrans(posted0, bus0, p, b, posted, registry.View(), self);
        left := F.Rest(left);
        F.AlignBounds(n);
        length := length - F.Align(n);
        at := at + F.Align(n);
      }
      HeaderAt(buffer, left, at);
      RouteNothing(View(), left);
    }

    method GetReply(h: nat) returns (found: bool, m: Msg)
      requires h < |events|
      modifies this`events
      ensures View() == Take(old(View()), h)
      ensures found <==> old(events[h].listed) != []
      ensures found ==> m == old(events[h].listed)[0] && events[h].listed == old(events[h].listed)[1..]
    {
      found, m := false, Msg(0, false, 0, []);
      var e := events[h];
      if |e.listed| > 0 {
        found, m := true, e.listed[0];
        events := events[h := e.(listed := e.listed[1..], taken := e.taken + [m])];
      }
    }
  }
}
