/** The netlink thread: queries and route watches registered by clients, sequence numbers,
    and the routing of kernel messages to them. */
module NetlinkRouter {
  import opened Events
  import opened Bytes
  import opened Counting

  const NLMSG_NOOP: nat := 1
  const NLMSG_ERROR: nat := 2
  const NLMSG_DONE: nat := 3
  const NLMSG_OVERRUN: nat := 4
  const RTM_NEWROUTE: nat := 24
  const RTM_DELROUTE: nat := 25

  /** RTM_GETLINK, GETADDR, GETROUTE, GETNEIGH, GETRULE, GETQDISC, GETTCLASS, GETTFILTER. */
  const QUERIES: set<nat> := {18, 22, 26, 30, 34, 38, 42, 46}

  const DAY: nat := 86400

  /** A kernel message: the header fields the router looks at, and the whole message. */
  datatype Msg = Msg(typ: nat, multi: bool, seqno: nat, bytes: seq<byte>)

  datatype Kind = Query | RouteWatch

  /** A netlink event as it reaches the thread: its kind, its query type and the event object,
      sent by the client that wants the replies. */
  datatype Request = Request(kind: Kind, query: nat, event: Event)

  /** A registered netlink event. `event` is the object that is dispatched back; `listed` is its
      reply list, `taken` what GetReply already returned; `epoch` counts the sequence resets
      before its number was allocated. */
  datatype NlEvent = NlEvent(kind: Kind, query: nat, event: Event, seqno: nat, epoch: nat,
                             listed: seq<Msg>, taken: seq<Msg>)

  /** `table` holds the pending events by index into `events`; `posted` are the events
      dispatched back to their clients, in order. */
  datatype Router = Router(nlSeq: nat, epoch: nat, table: seq<nat>, events: seq<NlEvent>, posted: seq<Event>)

  const EMPTY_ROUTER := Router(0, 0, [], [], [])

  ghost predicate Valid(r: Router) {
    && (forall i :: 0 <= i < |r.table| ==> r.table[i] < |r.events|)
    && (forall i, j :: 0 <= i < j < |r.table| ==> r.table[i] != r.table[j])
    && (forall i :: 0 <= i < |r.posted| ==>
          r.posted[i].data < |r.events| && r.posted[i].target != Broadcast)
    && (forall h :: 0 <= h < |r.events| ==>
          r.events[h].event.data == h && r.events[h].event.target != Broadcast)
  }

  predicate IsRoute(m: Msg) {
    m.typ == RTM_NEWROUTE || m.typ == RTM_DELROUTE
  }

  /** The message ends the reply to a query. */
  predicate IsLast(m: Msg) {
    m.typ == NLMSG_DONE || m.typ == NLMSG_ERROR || m.typ == NLMSG_OVERRUN || !m.multi
  }

  // ----- sequence numbers -----

  predicate Resets(nlSeq: nat, now: int) {
    (nlSeq + 1) % TWO_32 >= now - DAY
  }

  function NextSeq(nlSeq: nat, now: int): nat {
    if Resets(nlSeq, now) then 1 else (nlSeq + 1) % TWO_32
  }

  /** The event turned round: its sender becomes its target and its target its sender. */
  function Exchange(e: Event): (r: Event)
    ensures forall c: ClientId, d: ClientId ::
              e.source == Some(c) && e.target == To(d) ==> r.target == To(c) && r.source == Some(d)
    ensures r.target != Broadcast && r.uid == e.uid && r.id == e.id && r.flags == e.flags && r.data == e.data
  {
    e.(source := match e.target case To(c) => Some(c) case _ => None,
       target := match e.source case Some(c) => To(c) case None => Unset)
  }

  /** ProcessEvent for a new event: a query of a known type gets a sequence number, any other
      query keeps zero, and the event joins the table, turned round, in every case. Its handle,
      an index into `events`, is what the event object carries. */
  function Issue(r: Router, req: Request, now: int): (s: Router)
    ensures Valid(r) ==> Valid(s)
    ensures |s.events| == |r.events| + 1
  {
    var numbered := req.kind == Query && req.query in QUERIES;
    var seqno := if numbered then NextSeq(r.nlSeq, now) else r.nlSeq;
    var epoch := if numbered && Resets(r.nlSeq, now) then r.epoch + 1 else r.epoch;
    r.(nlSeq := seqno, epoch := epoch, table := r.table + [|r.events|],
       events := r.events + [NlEvent(req.kind, req.query, Exchange(req.event.(data := |r.events|)),
                                     if numbered then seqno else 0, epoch, [], [])])
  }

  // ----- routing -----

  function AddReply(events: seq<NlEvent>, h: nat, m: Msg): seq<NlEvent>
    requires h < |events|
  {
    events[h := events[h].(listed := events[h].listed + [m])]
  }

  predicate Watches(r: Router, h: nat) {
    h < |r.events| && r.events[h].kind == RouteWatch
  }

  predicate Awaits(r: Router, h: nat, seqno: nat) {
    h < |r.events| && r.events[h].kind == Query && r.events[h].seqno == seqno
  }

  function Deliver(r: Router, h: nat, m: Msg): Router
    requires h < |r.events|
  {
    r.(events := AddReply(r.events, h, m), posted := r.posted + [r.events[h].event])
  }

  /** Deliver to the first `n` table entries that are route watches, in table order. */
  function DeliverToWatches(r: Router, n: nat, m: Msg): (s: Router)
    requires n <= |r.table| && Valid(r)
    ensures s.table == r.table && |s.events| == |r.events| && Valid(s)
  {
    if n == 0 then r else
    var s := DeliverToWatches(r, n - 1, m);
    if Watches(s, r.table[n - 1]) then Deliver(s, r.table[n - 1], m) else s
  }

  lemma WatchesNone(r: Router, m: Msg)
    requires Valid(r)
    ensures DeliverToWatches(r, 0, m) == r
  {
  }

  lemma WatchesNext(r: Router, i: nat, m: Msg)
    requires Valid(r) && i < |r.table|
    ensures var d := DeliverToWatches(r, i, m);
            DeliverToWatches(r, i + 1, m) == if Watches(d, r.table[i]) then Deliver(d, r.table[i], m) else d
  {
  }

  /** The first pending query with the given number, or the length of the table. */
  function FirstAwaiting(r: Router, from: nat, seqno: nat): (i: nat)
    requires from <= |r.table|
    ensures from <= i <= |r.table|
    ensures i < |r.table| ==> Awaits(r, r.table[i], seqno)
    ensures forall j :: from <= j < i ==> !Awaits(r, r.table[j], seqno)
    decreases |r.table| - from
  {
    if from == |r.table| || Awaits(r, r.table[from], seqno) then from else FirstAwaiting(r, from + 1, seqno)
  }

  function Answer(r: Router, i: nat, m: Msg): (s: Router)
    requires i < |r.table| && Valid(r)
    ensures Valid(s) && |s.events| == |r.events|
  {
    var s := Deliver(r, r.table[i], m);
    if IsLast(m) then s.(table := r.table[..i] + r.table[i + 1..]) else s
  }

  /** SendNetlinkReply. */
  function Reply(r: Router, m: Msg): (s: Router)
    requires Valid(r)
    ensures Valid(s) && |s.events| == |r.events|
  {
    if IsRoute(m) then DeliverToWatches(r, |r.table|, m)
    else if m.typ == NLMSG_NOOP then r
    else
      var i := FirstAwaiting(r, 0, m.seqno);
      if i < |r.table| then Answer(r, i, m) else r
  }

  /** GetReply takes the oldest listed reply. */
  function Take(r: Router, h: nat): (s: Router)
    ensures Valid(r) ==> Valid(s)
    ensures |s.events| == |r.events|
  {
    if h < |r.events| && r.events[h].listed != []
    then r.(events := r.events[h := r.events[h].(listed := r.events[h].listed[1..],
                                                 taken := r.events[h].taken + [r.events[h].listed[0]])])
    else r
  }

  datatype Op = IssueOp(request: Request, now: int) | Kernel(msg: Msg) | GetReply(handle: nat)

  function Step(r: Router, op: Op): (s: Router)
    requires Valid(r)
    ensures Valid(s) && |s.events| >= |r.events|
  {
    match op
    case IssueOp(req, now) => Issue(r, req, now)
    case Kernel(m) => Reply(r, m)
    case GetReply(h) => Take(r, h)
  }

  function Run(r: Router, ops: seq<Op>): (s: Router)
    requires Valid(r)
    ensures Valid(s) && |s.events| >= |r.events|
  {
    if ops == [] then r else Step(Run(r, ops[..|ops| - 1]), ops[|ops| - 1])
  }

  function MessageOf(op: Op): seq<Msg> {
    if op.Kernel? then [op.msg] else []
  }

  /** The kernel messages of a run. */
  function Messages(ops: seq<Op>): seq<Msg> {
    if ops == [] then [] else Messages(ops[..|ops| - 1]) + MessageOf(ops[|ops| - 1])
  }

  // ----- the specification -----

  // The kernel's message types: 1 is a NOOP, 2 an error, 3 the end of a multipart reply, 4 an
  // overrun, 24 and 25 announce a new and a deleted route.

  /** The message answers a query with this sequence number. */
  predicate Matches(m: Msg, seqno: nat) {
    m.seqno == seqno && m.typ !in {1, 24, 25}
  }

  predicate Ends(m: Msg) {
    m.typ in {2, 3, 4} || !m.multi
  }

  ghost predicate Finished(ms: seq<Msg>, seqno: nat) {
    exists i :: 0 <= i < |ms| && Matches(ms[i], seqno) && Ends(ms[i])
  }

  /** The matching messages up to and including the first that ends the reply. */
  function Expected(ms: seq<Msg>, seqno: nat): seq<Msg> {
    if ms == [] then []
    else if !Matches(ms[0], seqno) then Expected(ms[1..], seqno)
    else [ms[0]] + if Ends(ms[0]) then [] else Expected(ms[1..], seqno)
  }

  function Routes(ms: seq<Msg>): seq<Msg> {
    if ms == [] then [] else Routes(ms[..|ms| - 1]) + if ms[|ms| - 1].typ in {24, 25} then [ms[|ms| - 1]] else []
  }

  /** All replies an event ever got. */
  function Handed(r: Router, h: nat): seq<Msg>
    requires h < |r.events|
  {
    r.events[h].taken + r.events[h].listed
  }

  lemma {:induction false} ExpectedSnoc(ms: seq<Msg>, m: Msg, seqno: nat)
    ensures Expected(ms + [m], seqno)
         == Expected(ms, seqno) + if Matches(m, seqno) && !Finished(ms, seqno) then [m] else []
  {
    if ms == [] {
      assert ms + [m] == [m] && [m][1..] == [];
    } else {
      assert (ms + [m])[1..] == ms[1..] + [m];
      ExpectedSnoc(ms[1..], m, seqno);
      FinishedTail(ms, seqno);
    }
  }

  lemma FinishedTail(ms: seq<Msg>, seqno: nat)
    requires ms != []
    ensures Finished(ms, seqno) <==> (Matches(ms[0], seqno) && Ends(ms[0])) || Finished(ms[1..], seqno)
  {
  }

  lemma FinishedSnoc(ms: seq<Msg>, m: Msg, seqno: nat)
    ensures Finished(ms + [m], seqno) <==> Finished(ms, seqno) || (Matches(m, seqno) && Ends(m))
  {
    var all := ms + [m];
    if i :| 0 <= i < |ms| && Matches(ms[i], seqno) && Ends(ms[i]) { assert all[i] == ms[i]; }
    assert all[|ms|] == m;
  }

  // ----- a query gets exactly the replies meant for it -----

  /** `h` is pending, and no query before it in the table awaits its number. */
  ghost predicate First(r: Router, h: nat, seqno: nat) {
    exists i :: 0 <= i < |r.table| && r.table[i] == h && NoneBefore(r, i, seqno)
  }

  ghost predicate NoneBefore(r: Router, i: nat, seqno: nat) {
    i <= |r.table| && forall j :: 0 <= j < i ==> !Awaits(r, r.table[j], seqno)
  }

  /** What holds of a query after the kernel messages `ms`. */
  ghost predicate Served(r: Router, h: nat, seqno: nat, ms: seq<Msg>) {
    && Awaits(r, h, seqno)
    && Handed(r, h) == Expected(ms, seqno)
    && CountOf(r.posted, r.events[h].event) == |Handed(r, h)|
    && (if Finished(ms, seqno) then h !in r.table else First(r, h, seqno))
  }

  lemma TakeKeeps(r: Router, g: nat, h: nat)
    requires Valid(r) && h < |r.events|
    ensures Handed(Take(r, g), h) == Handed(r, h)
    ensures forall k, q :: Awaits(Take(r, g), k, q) <==> Awaits(r, k, q)
    ensures forall k :: Watches(Take(r, g), k) <==> Watches(r, k)
  {
  }

  lemma ServedTake(r: Router, h: nat, seqno: nat, ms: seq<Msg>, g: nat)
    requires Valid(r) && Served(r, h, seqno, ms)
    ensures Served(Take(r, g), h, seqno, ms)
  {
  }

  lemma ServedIssue(r: Router, h: nat, seqno: nat, ms: seq<Msg>, req: Request, now: int)
    requires Valid(r) && Served(r, h, seqno, ms)
    ensures Served(Issue(r, req, now), h, seqno, ms)
  {
    hide Expected, CountOf, Finished, NextSeq, Resets;
    var s := Issue(r, req, now);
    assert s.events[h] == r.events[h];
    if !Finished(ms, seqno) {
      var i :| 0 <= i < |r.table| && r.table[i] == h && NoneBefore(r, i, seqno);
      assert s.table[i] == h && NoneBefore(s, i, seqno);
    }
  }

  /** Route messages touch route watches only. */
  lemma {:induction false} WatchesOnly(r: Router, n: nat, m: Msg, h: nat)
    requires Valid(r) && n <= |r.table| && h < |r.events| && r.events[h].kind == Query
    ensures var s := DeliverToWatches(r, n, m);
            s.events[h] == r.events[h] && CountOf(s.posted, s.events[h].event) == CountOf(r.posted, r.events[h].event)
    decreases n
  {
    hide Deliver;
    if n > 0 {
      WatchesOnly(r, n - 1, m, h);
      var d := DeliverToWatches(r, n - 1, m);
      if Watches(d, r.table[n - 1]) { DeliverOther(d, r.table[n - 1], m, h); }
    }
  }

  lemma DeliverOther(r: Router, g: nat, m: Msg, h: nat)
    requires Valid(r) && g < |r.events| && h < |r.events| && g != h
    ensures var s := Deliver(r, g, m);
            s.events[h] == r.events[h]
            && CountOf(s.posted, s.events[h].event) == CountOf(r.posted, r.events[h].event)
  {
    CountSnoc(r.posted, r.events[g].event, r.events[h].event);
  }

  lemma ServedRoute(r: Router, h: nat, seqno: nat, ms: seq<Msg>, m: Msg)
    requires Valid(r) && Served(r, h, seqno, ms) && IsRoute(m)
    ensures Served(Reply(r, m), h, seqno, ms)
  {
    hide Expected, CountOf, Finished, DeliverToWatches;
    WatchesOnly(r, |r.table|, m, h);
    WatchesKeepNumbers(r, |r.table|, m);
    var s := Reply(r, m);
    if !Finished(ms, seqno) {
      var i :| 0 <= i < |r.table| && r.table[i] == h && NoneBefore(r, i, seqno);
      assert s.table[i] == h && NoneBefore(s, i, seqno);
    }
  }

  lemma FirstIsFound(r: Router, h: nat, seqno: nat)
    requires Valid(r) && Awaits(r, h, seqno) && First(r, h, seqno)
    ensures var i := FirstAwaiting(r, 0, seqno); i < |r.table| && r.table[i] == h
  {
  }

  /** Erasing another entry keeps `h` first. */
  lemma EraseKeepsFirst(r: Router, s: Router, k: nat, h: nat, seqno: nat)
    requires Valid(r) && k < |r.table| && r.table[k] != h && First(r, h, seqno)
    requires s.table == r.table[..k] + r.table[k + 1..]
    requires forall g :: Awaits(s, g, seqno) <==> Awaits(r, g, seqno)
    ensures First(s, h, seqno)
  {
    var i :| 0 <= i < |r.table| && r.table[i] == h && NoneBefore(r, i, seqno);
    var i' := if k < i then i - 1 else i;
    forall j | 0 <= j < i' ensures !Awaits(s, s.table[j], seqno) {
      assert s.table[j] == r.table[if j < k then j else j + 1];
    }
    assert s.table[i'] == h && NoneBefore(s, i', seqno);
  }

  /** An answer to somebody else leaves the query as it is. */
  lemma ServedOther(r: Router, h: nat, seqno: nat, ms: seq<Msg>, k: nat, m: Msg)
    requires Valid(r) && Served(r, h, seqno, ms) && k < |r.table| && r.table[k] != h
    ensures Served(Answer(r, k, m), h, seqno, ms)
  {
    hide Expected, Finished, CountOf;
    var s := Answer(r, k, m);
    assert s.events[h] == r.events[h];
    assert forall g, q :: Awaits(s, g, q) <==> Awaits(r, g, q);
    CountSnoc(r.posted, r.events[r.table[k]].event, r.events[h].event);
    if !Finished(ms, seqno) {
      if IsLast(m) {
        EraseKeepsFirst(r, s, k, h, seqno);
      } else {
        var i :| 0 <= i < |r.table| && r.table[i] == h && NoneBefore(r, i, seqno);
        assert s.table[i] == h && NoneBefore(s, i, seqno);
      }
    }
  }

  /** The answer to the query itself. */
  lemma ServedSelf(r: Router, h: nat, seqno: nat, ms: seq<Msg>, k: nat, m: Msg)
    requires Valid(r) && Served(r, h, seqno, ms) && !Finished(ms, seqno)
    requires k < |r.table| && r.table[k] == h && NoneBefore(r, k, seqno) && Matches(m, seqno)
    ensures Served(Answer(r, k, m), h, seqno, ms + [m])
  {
    hide Expected, Finished, CountOf;
    var s := Answer(r, k, m);
    ExpectedSnoc(ms, m, seqno);
    FinishedSnoc(ms, m, seqno);
    CountSnoc(r.posted, r.events[h].event, r.events[h].event);
    var e := r.events[h];
    assert e.taken + (e.listed + [m]) == e.taken + e.listed + [m];
    assert forall g, q :: Awaits(s, g, q) <==> Awaits(r, g, q);
    if !IsLast(m) {
      assert s.table[k] == h && NoneBefore(s, k, seqno);
    }
  }

  lemma ServedKernel(r: Router, h: nat, seqno: nat, ms: seq<Msg>, m: Msg)
    requires Valid(r) && Served(r, h, seqno, ms)
    ensures Served(Reply(r, m), h, seqno, ms + [m])
  {
    ExpectedSnoc(ms, m, seqno);
    FinishedSnoc(ms, m, seqno);
    if Matches(m, seqno) && !Finished(ms, seqno) {
      FirstIsFound(r, h, seqno);
      ServedSelf(r, h, seqno, ms, FirstAwaiting(r, 0, seqno), m);
    } else {
      ServedIgnored(r, h, seqno, ms, m);
      SameSpec(Reply(r, m), h, seqno, ms, m);
    }
  }

  lemma SameSpec(s: Router, h: nat, seqno: nat, ms: seq<Msg>, m: Msg)
    requires Served(s, h, seqno, ms) && (!Matches(m, seqno) || Finished(ms, seqno))
    ensures Served(s, h, seqno, ms + [m])
  {
    hide Expected, Finished, CountOf, First;
    ExpectedSnoc(ms, m, seqno);
    FinishedSnoc(ms, m, seqno);
  }

  lemma ServedIgnored(r: Router, h: nat, seqno: nat, ms: seq<Msg>, m: Msg)
    requires Valid(r) && Served(r, h, seqno, ms) && (!Matches(m, seqno) || Finished(ms, seqno))
    ensures Served(Reply(r, m), h, seqno, ms)
  {
    hide Expected, Finished, CountOf, First, Answer, DeliverToWatches;
    if IsRoute(m) {
      ServedRoute(r, h, seqno, ms, m);
    } else if m.typ != NLMSG_NOOP {
      var k := FirstAwaiting(r, 0, m.seqno);
      if k < |r.table| {
        assert r.table[k] != h;
        ServedOther(r, h, seqno, ms, k, m);
      }
    }
  }

  lemma {:induction false} ServedRun(r: Router, h: nat, seqno: nat, ms: seq<Msg>, ops: seq<Op>)
    requires Valid(r) && Served(r, h, seqno, ms)
    ensures Served(Run(r, ops), h, seqno, ms + Messages(ops))
    decreases |ops|
  {
    if ops == [] {
      assert ms + [] == ms;
    } else {
      ServedRun(r, h, seqno, ms, ops[..|ops| - 1]);
      ServedStep(r, h, seqno, ms, ops);
    }
  }

  lemma ServedOp(r: Router, h: nat, seqno: nat, ms: seq<Msg>, op: Op)
    requires Valid(r) && Served(r, h, seqno, ms)
    ensures Served(Step(r, op), h, seqno, ms + MessageOf(op))
  {
    hide Served, Issue, Reply, Take, Valid;
    assert ms + [] == ms;
    match op {
      case IssueOp(req, now) => ServedIssue(r, h, seqno, ms, req, now);
      case Kernel(m) => ServedKernel(r, h, seqno, ms, m);
      case GetReply(g) => ServedTake(r, h, seqno, ms, g);
    }
  }

  lemma MessagesSnoc(ms: seq<Msg>, ops: seq<Op>)
    requires ops != []
    ensures ms + Messages(ops) == ms + Messages(ops[..|ops| - 1]) + MessageOf(ops[|ops| - 1])
  {
    hide MessageOf;
    ConcatAssoc(ms, Messages(ops[..|ops| - 1]), MessageOf(ops[|ops| - 1]));
  }

  lemma ConcatAssoc(a: seq<Msg>, b: seq<Msg>, c: seq<Msg>)
    ensures a + (b + c) == a + b + c
  {
  }

  lemma ServedStep(r: Router, h: nat, seqno: nat, ms: seq<Msg>, ops: seq<Op>)
    requires Valid(r) && ops != []
    requires Served(Run(r, ops[..|ops| - 1]), h, seqno, ms + Messages(ops[..|ops| - 1]))
    ensures Served(Run(r, ops), h, seqno, ms + Messages(ops))
  {
    hide Served, Step, MessageOf, Messages, Valid;
    var before, op := ops[..|ops| - 1], ops[|ops| - 1];
    ServedOp(Run(r, before), h, seqno, ms + Messages(before), op);
    MessagesSnoc(ms, ops);
  }

  /** No pending query awaits this number. */
  ghost predicate NoTwin(r: Router, seqno: nat) {
    forall i :: 0 <= i < |r.table| ==> !Awaits(r, r.table[i], seqno)
  }

  lemma {:induction false} NotPosted(xs: seq<Event>, e: Event)
    requires forall i :: 0 <= i < |xs| ==> xs[i].data < e.data
    ensures CountOf(xs, e) == 0
    decreases |xs|
  {
    if xs != [] { NotPosted(xs[..|xs| - 1], e); }
  }

  lemma IssuedIsServed(r: Router, req: Request, now: int)
    requires Valid(r) && req.kind == Query
    requires NoTwin(r, Issue(r, req, now).events[|r.events|].seqno)
    ensures var s := Issue(r, req, now);
            Served(s, |r.events|, s.events[|r.events|].seqno, [])
  {
    hide NextSeq, Resets;
    var s := Issue(r, req, now);
    var h, q := |r.events|, s.events[|r.events|].seqno;
    NotPosted(r.posted, s.events[h].event);
    assert s.table[|r.table|] == h && NoneBefore(s, |r.table|, q);
  }

  /** Issue a query, let any issues, kernel messages and GetReply calls follow: if no pending
      query has its sequence number when it is issued, then all it is ever handed is, in order,
      the messages that carry its number and are neither route nor NOOP messages, up to and
      including the first that ends the reply; each is announced to the client once. */
  lemma QueryGetsItsReplies(r: Router, req: Request, now: int, ops: seq<Op>)
    requires Valid(r) && req.kind == Query && NoTwin(r, Issue(r, req, now).events[|r.events|].seqno)
    ensures var s, h := Issue(r, req, now), |r.events|;
            Served(Run(Step(r, IssueOp(req, now)), ops), h, s.events[h].seqno, Messages(ops))
  {
    hide Served, Issue;
    IssuedIsServed(r, req, now);
    var s, h := Step(r, IssueOp(req, now)), |r.events|;
    assert [] + Messages(ops) == Messages(ops);
    ServedRun(s, h, Issue(r, req, now).events[h].seqno, [], ops);
  }

  /** A pending query with the same number takes the reply of the new one. */
  lemma TwinSteals(r: Router, req: Request, now: int)
    requires Valid(r) && req.kind == Query && !NoTwin(r, Issue(r, req, now).events[|r.events|].seqno)
    ensures var s, h := Issue(r, req, now), |r.events|;
            var done := Msg(NLMSG_DONE, false, s.events[h].seqno, []);
            Handed(Run(Step(r, IssueOp(req, now)), [Kernel(done)]), h) == []
            && Expected(Messages([Kernel(done)]), s.events[h].seqno) == [done]
  {
    hide NextSeq, Resets;
    var s, h := Issue(r, req, now), |r.events|;
    var q := s.events[h].seqno;
    var done := Msg(NLMSG_DONE, false, q, []);
    assert [Kernel(done)][..0] == [] && [done][1..] == [];
    var i :| 0 <= i < |r.table| && Awaits(r, r.table[i], q);
    assert s.table[i] == r.table[i] && Awaits(s, s.table[i], q);
    var k := FirstAwaiting(s, 0, q);
    assert k <= i;
    assert Reply(s, done).events[h] == s.events[h];
    assert Messages([Kernel(done)]) == [done];
  }

  /** A new query is served correctly in every continuation if and only if no pending query
      has its number at the moment it is issued. */
  lemma ServedIfAndOnlyIfUnique(r: Router, req: Request, now: int)
    requires Valid(r) && req.kind == Query
    ensures var s, h := Step(r, IssueOp(req, now)), |r.events|;
            var q := s.events[h].seqno;
            NoTwin(r, q) <==> forall ops: seq<Op> :: Served(Run(s, ops), h, q, Messages(ops))
  {
    var s, h := Step(r, IssueOp(req, now)), |r.events|;
    var q := s.events[h].seqno;
    if NoTwin(r, q) {
      forall ops: seq<Op> ensures Served(Run(s, ops), h, q, Messages(ops)) {
        QueryGetsItsReplies(r, req, now, ops);
      }
    } else {
      TwinSteals(r, req, now);
      var ops := [Kernel(Msg(NLMSG_DONE, false, q, []))];
      assert !Served(Run(s, ops), h, q, Messages(ops));
    }
  }

  // ----- a route watch gets every route message -----

  ghost predicate Watching(r: Router, h: nat, ms: seq<Msg>) {
    && Watches(r, h) && h in r.table
    && Handed(r, h) == Routes(ms) && CountOf(r.posted, r.events[h].event) == |Handed(r, h)|
  }

  /** On the way from `r` to `s` the watch `h` got the messages `ms`, one announcement each. */
  ghost predicate Got(r: Router, s: Router, h: nat, ms: seq<Msg>) {
    && Watches(r, h) && Watches(s, h)
    && Handed(s, h) == Handed(r, h) + ms
    && CountOf(s.posted, s.events[h].event) == CountOf(r.posted, r.events[h].event) + |ms|
  }

  lemma GotTrans(r: Router, d: Router, s: Router, h: nat, a: seq<Msg>, b: seq<Msg>)
    requires Got(r, d, h, a) && Got(d, s, h, b)
    ensures Got(r, s, h, a + b)
  {
  }

  lemma DeliverOne(r: Router, g: nat, m: Msg, h: nat)
    requires Valid(r) && g < |r.events| && Watches(r, h)
    ensures Got(r, Deliver(r, g, m), h, if g == h then [m] else [])
  {
    CountSnoc(r.posted, r.events[g].event, r.events[h].event);
    assert r.events[h].taken + (r.events[h].listed + [m]) == Handed(r, h) + [m];
  }

  function Share(table: seq<nat>, h: nat, m: Msg): seq<Msg> {
    if h in table then [m] else []
  }

  lemma ShareSnoc(table: seq<nat>, g: nat, h: nat, m: Msg)
    requires g !in table
    ensures Share(table + [g], h, m) == Share(table, h, m) + if g == h then [m] else []
  {
  }

  lemma {:induction false} WatchDelivery(r: Router, n: nat, m: Msg, h: nat)
    requires Valid(r) && n <= |r.table| && Watches(r, h)
    ensures Got(r, DeliverToWatches(r, n, m), h, Share(r.table[..n], h, m))
    decreases n
  {
    if n > 0 {
      WatchDelivery(r, n - 1, m, h);
      WatchDeliveryStep(r, n, m, h);
    }
  }

  lemma GotWatches(r: Router, s: Router, h: nat, ms: seq<Msg>)
    requires Got(r, s, h, ms)
    ensures Watches(s, h)
  {
  }

  lemma WatchDeliveryStep(r: Router, n: nat, m: Msg, h: nat)
    requires Valid(r) && 0 < n <= |r.table|
    requires Got(r, DeliverToWatches(r, n - 1, m), h, Share(r.table[..n - 1], h, m))
    ensures Got(r, DeliverToWatches(r, n, m), h, Share(r.table[..n], h, m))
  {
    hide Deliver, Got, Share, DeliverToWatches;
    WatchesNext(r, n - 1, m);
    var d, g, share := DeliverToWatches(r, n - 1, m), r.table[n - 1], Share(r.table[..n - 1], h, m);
    assert r.table[..n] == r.table[..n - 1] + [g];
    var more := if g == h then [m] else [];
    ShareSnoc(r.table[..n - 1], g, h, m);
    GotWatches(r, d, h, share);
    if Watches(d, g) {
      DeliverOne(d, g, m, h);
      GotTrans(r, d, DeliverToWatches(r, n, m), h, share, more);
    } else {
      assert share + more == share;
    }
  }

  lemma WatchKernel(r: Router, h: nat, ms: seq<Msg>, m: Msg)
    requires Valid(r) && Watching(r, h, ms)
    ensures Watching(Reply(r, m), h, ms + [m])
  {
    hide CountOf, Routes;
    RoutesSnoc(ms, m);
    if IsRoute(m) {
      WatchDelivery(r, |r.table|, m, h);
      assert r.table[..|r.table|] == r.table && Share(r.table, h, m) == [m];
    } else if m.typ != NLMSG_NOOP {
      var k := FirstAwaiting(r, 0, m.seqno);
      if k < |r.table| {
        CountSnoc(r.posted, r.events[r.table[k]].event, r.events[h].event);
        var i :| 0 <= i < |r.table| && r.table[i] == h;
        assert i != k;
        if IsLast(m) { assert Reply(r, m).table[if i < k then i else i - 1] == h; }
      }
    }
  }

  lemma RoutesSnoc(ms: seq<Msg>, m: Msg)
    ensures Routes(ms + [m]) == Routes(ms) + if m.typ in {24, 25} then [m] else []
  {
  }

  lemma {:induction false} WatchRun(r: Router, h: nat, ms: seq<Msg>, ops: seq<Op>)
    requires Valid(r) && Watching(r, h, ms)
    ensures Watching(Run(r, ops), h, ms + Messages(ops))
    decreases |ops|
  {
    if ops == [] {
      assert ms + [] == ms;
    } else {
      WatchRun(r, h, ms, ops[..|ops| - 1]);
      WatchStep(r, h, ms, ops);
    }
  }

  lemma WatchOp(r: Router, h: nat, ms: seq<Msg>, op: Op)
    requires Valid(r) && Watching(r, h, ms)
    ensures Watching(Step(r, op), h, ms + MessageOf(op))
  {
    hide CountOf, Routes, Reply, NextSeq, Resets;
    assert ms + [] == ms;
    match op {
      case IssueOp(req, now) => assert Issue(r, req, now).events[h] == r.events[h];
      case Kernel(m) => WatchKernel(r, h, ms, m);
      case GetReply(g) => TakeKeeps(r, g, h);
    }
  }

  lemma WatchStep(r: Router, h: nat, ms: seq<Msg>, ops: seq<Op>)
    requires Valid(r) && ops != []
    requires Watching(Run(r, ops[..|ops| - 1]), h, ms + Messages(ops[..|ops| - 1]))
    ensures Watching(Run(r, ops), h, ms + Messages(ops))
  {
    hide Watching, Step, MessageOf, Messages, Valid;
    var before, op := ops[..|ops| - 1], ops[|ops| - 1];
    WatchOp(Run(r, before), h, ms + Messages(before), op);
    MessagesSnoc(ms, ops);
  }

  /** A route watch is handed every route message since it registered, exactly once and in
      order, and is announced to its client once for each. */
  lemma WatchGetsEveryRoute(r: Router, req: Request, now: int, ops: seq<Op>)
    requires Valid(r) && req.kind == RouteWatch
    ensures Watching(Run(Step(r, IssueOp(req, now)), ops), |r.events|, Messages(ops))
  {
    var s, h := Step(r, IssueOp(req, now)), |r.events|;
    NotPosted(r.posted, s.events[h].event);
    assert s.table[|r.table|] == h;
    assert [] + Messages(ops) == Messages(ops);
    WatchRun(s, h, [], ops);
  }

  // ----- sequence numbers -----

  /** The queries SendNetlinkQuery accepts. */
  predicate Numbered(e: NlEvent) {
    e.kind == Query && e.query in QUERIES
  }

  /** An earlier epoch, or a smaller number in the same one. */
  predicate Earlier(a: NlEvent, b: NlEvent) {
    a.epoch < b.epoch || (a.epoch == b.epoch && a.seqno < b.seqno)
  }

  predicate NumberOk(r: Router, e: NlEvent) {
    if Numbered(e)
    then 1 <= e.seqno < TWO_32 && e.epoch <= r.epoch && (e.epoch == r.epoch ==> e.seqno <= r.nlSeq)
    else e.seqno == 0
  }

  ghost predicate Increasing(r: Router)
    requires Valid(r)
  {
    forall i, j :: 0 <= i < j < |r.table| ==>
      var a, b := r.events[r.table[i]], r.events[r.table[j]];
      Numbered(a) && Numbered(b) ==> Earlier(a, b)
  }

  /** Accepted queries have a positive number, rejected ones zero, and within the table the
      numbers of one epoch strictly increase. */
  ghost predicate WellNumbered(r: Router) {
    && Valid(r) && r.nlSeq < TWO_32 - DAY && Increasing(r)
    && forall h :: 0 <= h < |r.events| ==> NumberOk(r, r.events[h])
  }

  predicate SameNumber(a: NlEvent, b: NlEvent) {
    a.event == b.event && a.kind == b.kind && a.query == b.query && a.seqno == b.seqno && a.epoch == b.epoch
  }

  /** `s` differs from `r` in reply lists only, and may lack one entry of the table. */
  ghost predicate KeepsNumbers(r: Router, s: Router) {
    && s.nlSeq == r.nlSeq && s.epoch == r.epoch && |s.events| == |r.events|
    && (forall h :: 0 <= h < |r.events| ==> SameNumber(s.events[h], r.events[h]))
    && (s.table == r.table || exists k :: 0 <= k < |r.table| && s.table == r.table[..k] + r.table[k + 1..])
  }

  /** The place in the old table of an entry of the new one. */
  lemma OldPlaces(r: Router, s: Router, i: nat, j: nat) returns (i': nat, j': nat)
    requires KeepsNumbers(r, s) && i < j < |s.table|
    ensures i' < j' < |r.table| && s.table[i] == r.table[i'] && s.table[j] == r.table[j']
  {
    hide SameNumber;
    i', j' := i, j;
    if s.table != r.table {
      var k :| 0 <= k < |r.table| && s.table == r.table[..k] + r.table[k + 1..];
      i', j' := if i < k then i else i + 1, if j < k then j else j + 1;
    }
  }

  lemma KeepNumbered(r: Router, s: Router)
    requires WellNumbered(r) && Valid(s) && KeepsNumbers(r, s)
    ensures WellNumbered(s)
  {
    forall i, j | 0 <= i < j < |s.table|
      ensures var a, b := s.events[s.table[i]], s.events[s.table[j]]; Numbered(a) && Numbered(b) ==> Earlier(a, b)
    {
      var i', j' := OldPlaces(r, s, i, j);
      assert SameNumber(s.events[s.table[i]], r.events[r.table[i']]);
      assert SameNumber(s.events[s.table[j]], r.events[r.table[j']]);
    }
    forall h | 0 <= h < |s.events| ensures NumberOk(s, s.events[h]) {
      assert SameNumber(s.events[h], r.events[h]);
      assert NumberOk(r, r.events[h]);
    }
  }

  lemma {:induction false} WatchesKeepNumbers(r: Router, n: nat, m: Msg)
    requires Valid(r) && n <= |r.table|
    ensures KeepsNumbers(r, DeliverToWatches(r, n, m)) && DeliverToWatches(r, n, m).table == r.table
    decreases n
  {
    hide KeepsNumbers, Deliver;
    if n == 0 {
      NumbersUnchanged(r);
    } else {
      WatchesKeepNumbers(r, n - 1, m);
      if Watches(DeliverToWatches(r, n - 1, m), r.table[n - 1]) {
        DeliverKeepsNumbers(r, DeliverToWatches(r, n - 1, m), r.table[n - 1], m);
      }
    }
  }

  lemma NumbersUnchanged(r: Router)
    ensures KeepsNumbers(r, r)
  {
  }

  lemma DeliverKeepsNumbers(r: Router, d: Router, g: nat, m: Msg)
    requires KeepsNumbers(r, d) && g < |d.events|
    ensures KeepsNumbers(r, Deliver(d, g, m))
  {
  }

  lemma ReplyKeepsNumbers(r: Router, m: Msg)
    requires Valid(r)
    ensures KeepsNumbers(r, Reply(r, m))
  {
    hide DeliverToWatches;
    if IsRoute(m) {
      WatchesKeepNumbers(r, |r.table|, m);
    } else {
      var k := FirstAwaiting(r, 0, m.seqno);
      if k < |r.table| {
        assert Answer(r, k, m).table == r.table || Answer(r, k, m).table == r.table[..k] + r.table[k + 1..];
      }
    }
  }

  predicate ClockInRange(op: Op) {
    op.IssueOp? ==> 0 <= op.now < TWO_32
  }

  lemma IssueNumbers(r: Router, req: Request, now: int)
    requires WellNumbered(r) && 0 <= now < TWO_32
    ensures WellNumbered(Issue(r, req, now))
  {
    var s, n := Issue(r, req, now), |r.table|;
    assert (r.nlSeq + 1) % TWO_32 == r.nlSeq + 1;
    forall i, j | 0 <= i < j < |s.table|
      ensures var a, b := s.events[s.table[i]], s.events[s.table[j]]; Numbered(a) && Numbered(b) ==> Earlier(a, b)
    {
      assert s.events[s.table[i]] == r.events[r.table[i]];
      if j < n {
        assert s.events[s.table[j]] == r.events[r.table[j]];
      } else {
        assert NumberOk(r, r.events[r.table[i]]);
      }
    }
    forall h | 0 <= h < |r.events| ensures NumberOk(s, s.events[h]) {
      assert NumberOk(r, r.events[h]);
    }
  }

  /** With clock values that fit 32 bits, after any interleaving: accepted queries never have
      number 0, rejected ones always do, and pending accepted queries stand in the table in
      the order of epoch and number. */
  lemma {:induction false} NumbersIncrease(ops: seq<Op>)
    requires forall i :: 0 <= i < |ops| ==> ClockInRange(ops[i])
    ensures WellNumbered(Run(EMPTY_ROUTER, ops))
    decreases |ops|
  {
    hide Issue, Reply, KeepsNumbers;
    if ops != [] {
      var op := ops[|ops| - 1];
      NumbersIncrease(ops[..|ops| - 1]);
      var r := Run(EMPTY_ROUTER, ops[..|ops| - 1]);
      match op {
        case IssueOp(req, now) => IssueNumbers(r, req, now);
        case Kernel(m) =>
          ReplyKeepsNumbers(r, m);
          KeepNumbered(r, Reply(r, m));
        case GetReply(h) =>
          TakeKeepsNumbers(r, h);
          KeepNumbered(r, Take(r, h));
      }
    }
  }

  lemma TakeKeepsNumbers(r: Router, h: nat)
    ensures KeepsNumbers(r, Take(r, h))
  {
  }

  /** A message matches at most one pending accepted query of an epoch, and never both an
      accepted and a rejected one. */
  lemma OneMatch(r: Router, i: nat, j: nat, seqno: nat)
    requires WellNumbered(r) && i < j < |r.table|
    requires Awaits(r, r.table[i], seqno) && Awaits(r, r.table[j], seqno)
    requires Numbered(r.events[r.table[i]]) || Numbered(r.events[r.table[j]])
    ensures r.events[r.table[i]].epoch < r.events[r.table[j]].epoch
  {
  }

  /** As long as the numbers were never reset, every accepted query gets exactly its replies,
      whatever was issued before and whatever follows. */
  lemma QueriesServedBeforeReset(before: seq<Op>, req: Request, now: int, later: seq<Op>)
    requires forall i :: 0 <= i < |before| ==> ClockInRange(before[i])
    requires req.kind == Query && req.query in QUERIES && 0 <= now < TWO_32
    requires Step(Run(EMPTY_ROUTER, before), IssueOp(req, now)).epoch == 0
    ensures var r := Run(EMPTY_ROUTER, before);
            var s := Step(r, IssueOp(req, now));
            Served(Run(s, later), |r.events|, s.events[|r.events|].seqno, Messages(later))
  {
    hide Served;
    NumbersIncrease(before);
    var r := Run(EMPTY_ROUTER, before);
    FreshNumber(r, req, now);
    QueryGetsItsReplies(r, req, now, later);
  }

  lemma FreshNumber(r: Router, req: Request, now: int)
    requires WellNumbered(r) && req.kind == Query && req.query in QUERIES && 0 <= now < TWO_32
    requires Issue(r, req, now).epoch == 0
    ensures NoTwin(r, Issue(r, req, now).events[|r.events|].seqno)
  {
  }

  /** A pending accepted query from before the last reset has this number. */
  ghost predicate OldTwin(r: Router, seqno: nat, epoch: nat) {
    exists i :: 0 <= i < |r.table| && r.table[i] < |r.events| && Numbered(r.events[r.table[i]])
                && r.events[r.table[i]].seqno == seqno && r.events[r.table[i]].epoch < epoch
  }

  /** Only a query from before the last reset can have the number of a new one. */
  lemma TwinsAreOld(r: Router, req: Request, now: int)
    requires WellNumbered(r) && req.kind == Query && req.query in QUERIES && 0 <= now < TWO_32
    ensures var s := Issue(r, req, now);
            NoTwin(r, s.events[|r.events|].seqno) <==> !OldTwin(r, s.events[|r.events|].seqno, s.epoch)
  {
    var s := Issue(r, req, now);
    forall i | 0 <= i < |r.table| ensures NumberOk(r, r.events[r.table[i]]) {
    }
  }

  /** Over the whole life of the thread: an accepted query gets exactly its replies in every
      continuation if and only if no query that is still pending from before the last reset of
      the numbers has its number. */
  lemma ServedInEveryEpoch(before: seq<Op>, req: Request, now: int)
    requires forall i :: 0 <= i < |before| ==> ClockInRange(before[i])
    requires req.kind == Query && req.query in QUERIES && 0 <= now < TWO_32
    ensures var r := Run(EMPTY_ROUTER, before);
            var s, h := Step(r, IssueOp(req, now)), |r.events|;
            var q := s.events[h].seqno;
            !OldTwin(r, q, s.epoch) <==> forall later: seq<Op> :: Served(Run(s, later), h, q, Messages(later))
  {
    hide Served, OldTwin, NoTwin, Issue, WellNumbered, Run, Messages;
    NumbersIncrease(before);
    WellNumberedIsValid(Run(EMPTY_ROUTER, before));
    TwinsAreOld(Run(EMPTY_ROUTER, before), req, now);
    ServedIfAndOnlyIfUnique(Run(EMPTY_ROUTER, before), req, now);
  }

  lemma WellNumberedIsValid(r: Router)
    requires WellNumbered(r)
    ensures Valid(r)
  {
  }

  // ----- reading replies -----

  function Reads(h: nat, k: nat): seq<Op> {
    if k == 0 then [] else Reads(h, k - 1) + [GetReply(h)]
  }

  /** On the way from `r` to `s` the `k` oldest listed replies of event `h` were taken, in order,
      and nothing else changed. */
  ghost predicate Drained(r: Router, s: Router, h: nat, k: nat) {
    && h < |r.events| && k <= |r.events[h].listed|
    && var e := r.events[h];
       s == r.(events := r.events[h := e.(taken := e.taken + e.listed[..k], listed := e.listed[k..])])
  }

  lemma DrainedOne(r: Router, s: Router, h: nat, k: nat)
    requires Drained(r, s, h, k) && k < |r.events[h].listed|
    ensures Drained(r, Take(s, h), h, k + 1)
  {
    var e := r.events[h];
    assert e.taken + e.listed[..k + 1] == e.taken + e.listed[..k] + [e.listed[k]];
    assert e.listed[k..][1..] == e.listed[k + 1..] && e.listed[k..][0] == e.listed[k];
  }

  lemma DrainedNone(r: Router, h: nat)
    requires h < |r.events|
    ensures Drained(r, r, h, 0)
  {
    var e := r.events[h];
    assert e.taken + e.listed[..0] == e.taken && e.listed[0..] == e.listed;
  }

  /** Successive reads return the listed replies of an event one by one, oldest first, and touch
      nothing else. */
  lemma {:induction false} ReadsDrain(r: Router, h: nat, k: nat)
    requires Valid(r) && h < |r.events| && k <= |r.events[h].listed|
    ensures Drained(r, Run(r, Reads(h, k)), h, k)
  {
    hide Valid, Take, Drained, Issue, Reply;
    if k == 0 {
      DrainedNone(r, h);
    } else {
      ReadsDrain(r, h, k - 1);
      var before := Reads(h, k - 1);
      assert Reads(h, k)[..|before|] == before;
      DrainedOne(r, Run(r, before), h, k - 1);
    }
  }

  // ----- the order in which watches are served -----

  /** The events of the route watches among the first `n` entries of the table. */
  function WatchEvents(r: Router, n: nat): seq<Event>
    requires Valid(r) && n <= |r.table|
  {
    if n == 0 then [] else
    var e := r.events[r.table[n - 1]];
    WatchEvents(r, n - 1) + if e.kind == RouteWatch then [e.event] else []
  }

  lemma {:induction false} WatchesPost(r: Router, n: nat, m: Msg)
    requires Valid(r) && n <= |r.table|
    ensures DeliverToWatches(r, n, m).posted == r.posted + WatchEvents(r, n)
    decreases n
  {
    hide DeliverToWatches, Deliver, Valid;
    if n == 0 {
      WatchesNone(r, m);
    } else {
      WatchesPost(r, n - 1, m);
      WatchesNext(r, n - 1, m);
      WatchPosts(r, n - 1, m);
      var e := r.events[r.table[n - 1]];
      var more := if e.kind == RouteWatch then [e.event] else [];
      assert r.posted + (WatchEvents(r, n - 1) + more) == r.posted + WatchEvents(r, n - 1) + more;
    }
  }

  lemma WatchPosts(r: Router, n: nat, m: Msg)
    requires Valid(r) && n < |r.table|
    ensures var d, g := DeliverToWatches(r, n, m), r.table[n];
            && g < |r.events| && (Watches(d, g) <==> r.events[g].kind == RouteWatch)
            && Deliver(d, g, m).posted == d.posted + [r.events[g].event]
  {
    hide DeliverToWatches;
    WatchesKeepNumbers(r, n, m);
    assert SameNumber(DeliverToWatches(r, n, m).events[r.table[n]], r.events[r.table[n]]);
  }

  /** `x` stands before `y` in the sequence. */
  ghost predicate Precedes(es: seq<Event>, x: Event, y: Event) {
    exists p, q :: 0 <= p < q < |es| && es[p] == x && es[q] == y
  }

  lemma {:induction false} WatchIsListed(r: Router, n: nat, i: nat)
    requires Valid(r) && i < n <= |r.table| && r.events[r.table[i]].kind == RouteWatch
    ensures r.events[r.table[i]].event in WatchEvents(r, n)
    decreases n
  {
    hide Valid;
    if i < n - 1 { WatchIsListed(r, n - 1, i); }
  }

  lemma {:induction false} WatchesListedInOrder(r: Router, n: nat, i: nat, j: nat)
    requires Valid(r) && i < j < n <= |r.table|
    requires r.events[r.table[i]].kind == RouteWatch && r.events[r.table[j]].kind == RouteWatch
    ensures Precedes(WatchEvents(r, n), r.events[r.table[i]].event, r.events[r.table[j]].event)
    decreases n
  {
    var before, all := WatchEvents(r, n - 1), WatchEvents(r, n);
    var x, y := r.events[r.table[i]].event, r.events[r.table[j]].event;
    if j < n - 1 {
      WatchesListedInOrder(r, n - 1, i, j);
      var p, q :| 0 <= p < q < |before| && before[p] == x && before[q] == y;
      assert all[p] == x && all[q] == y;
    } else {
      WatchIsListed(r, n - 1, i);
      var p :| 0 <= p < |before| && before[p] == x;
      assert all[p] == x && all[|before|] == y;
    }
  }

  /** A route message is announced to the route watches in table order. */
  lemma WatchesInTableOrder(r: Router, m: Msg, i: nat, j: nat)
    requires Valid(r) && m.typ in {24, 25} && i < j < |r.table|
    requires r.events[r.table[i]].kind == RouteWatch && r.events[r.table[j]].kind == RouteWatch
    ensures var k, posted := |r.posted|, Reply(r, m).posted;
            && |posted| >= k && posted[..k] == r.posted
            && Precedes(posted[k..], r.events[r.table[i]].event, r.events[r.table[j]].event)
  {
    hide DeliverToWatches, WatchEvents, Precedes;
    WatchesPost(r, |r.table|, m);
    WatchesListedInOrder(r, |r.table|, i, j);
    var posts := WatchEvents(r, |r.table|);
    assert (r.posted + posts)[|r.posted|..] == posts && (r.posted + posts)[..|r.posted|] == r.posted;
  }

  // ----- when the numbers start again -----

  /** The request is a query of one of the eight types the thread accepts: RTM_GETLINK is 18, and
      the others follow in steps of four up to RTM_GETTFILTER, 46. */
  predicate Accepts(kind: Kind, query: nat) {
    kind == Query && 18 <= query <= 46 && query % 4 == 2
  }

  lemma AcceptsTheTypes(kind: Kind, query: nat)
    ensures Accepts(kind, query) <==> kind == Query && query in QUERIES
  {
    assert query % 4 == 2 && 18 <= query <= 46 ==> query in QUERIES;
  }

  /** An accepted query gets the number after the last one if that is at least a day of seconds
      behind the clock, and the number 1 if not. */
  lemma NumberAgainstClock(r: Router, req: Request, now: int)
    requires Accepts(req.kind, req.query)
    ensures var q := Issue(r, req, now).events[|r.events|].seqno;
            && (q == 1 || q < now - 86400)
            && (r.nlSeq + 1 < 0x1_0000_0000 ==> q == if r.nlSeq + 1 < now - 86400 then r.nlSeq + 1 else 1)
  {
    AcceptsTheTypes(req.kind, req.query);
  }

  /** A request that is not accepted uses up no number. */
  lemma NoNumberUsed(r: Router, req: Request, now: int)
    requires !Accepts(req.kind, req.query)
    ensures var s := Issue(r, req, now); s.nlSeq == r.nlSeq && s.events[|r.events|].seqno == 0
  {
    AcceptsTheTypes(req.kind, req.query);
  }

  /** The numbers of the accepted queries, in the order of issue. */
  function NumbersGiven(events: seq<NlEvent>): seq<nat> {
    if events == [] then [] else
    var e := events[|events| - 1];
    NumbersGiven(events[..|events| - 1]) + if Accepts(e.kind, e.query) then [e.seqno] else []
  }

  function AcceptedCount(ops: seq<Op>): nat {
    if ops == [] then 0 else
    var op := ops[|ops| - 1];
    AcceptedCount(ops[..|ops| - 1])
    + if op.IssueOp? && Accepts(op.request.kind, op.request.query) then 1 else 0
  }

  /** Every accepted query is issued when the clock is more than a day of seconds beyond `k`. */
  ghost predicate ClockBeyond(ops: seq<Op>, k: nat) {
    forall i :: 0 <= i < |ops| && ops[i].IssueOp? && Accepts(ops[i].request.kind, ops[i].request.query) ==>
      ops[i].now > k + 86400
  }

  /** The accepted queries have the numbers 1 to `n` in order, and the rejected ones 0. */
  ghost predicate CountsUp(r: Router, n: nat) {
    && r.nlSeq == n && |NumbersGiven(r.events)| == n
    && (forall i :: 0 <= i < n ==> NumbersGiven(r.events)[i] == i + 1)
    && forall h :: 0 <= h < |r.events| && !Accepts(r.events[h].kind, r.events[h].query) ==> r.events[h].seqno == 0
  }

  lemma {:induction false} SameNumbersGiven(x: seq<NlEvent>, y: seq<NlEvent>)
    requires |x| == |y| && forall h :: 0 <= h < |x| ==> SameNumber(x[h], y[h])
    ensures NumbersGiven(x) == NumbersGiven(y)
    decreases |x|
  {
    if x != [] {
      SameNumbersGiven(x[..|x| - 1], y[..|y| - 1]);
      assert SameNumber(x[|x| - 1], y[|y| - 1]);
    }
  }

  lemma IssueCounts(r: Router, req: Request, now: int, n: nat, k: nat)
    requires CountsUp(r, n) && (Accepts(req.kind, req.query) ==> n < k < TWO_32 && now > k + 86400)
    ensures CountsUp(Issue(r, req, now), if Accepts(req.kind, req.query) then n + 1 else n)
  {
    hide Accepts, Resets, NextSeq, Exchange;
    var s := Issue(r, req, now);
    assert s.events[..|s.events| - 1] == r.events;
    AcceptsTheTypes(req.kind, req.query);
    if Accepts(req.kind, req.query) {
      NumberAgainstClock(r, req, now);
    } else {
      NoNumberUsed(r, req, now);
      assert NumbersGiven(s.events) == NumbersGiven(r.events);
    }
  }

  lemma CountsKept(r: Router, s: Router, n: nat)
    requires CountsUp(r, n) && KeepsNumbers(r, s)
    ensures CountsUp(s, n)
  {
    hide Accepts;
    SameNumbersGiven(s.events, r.events);
    forall h | 0 <= h < |s.events| && !Accepts(s.events[h].kind, s.events[h].query) ensures s.events[h].seqno == 0 {
      assert SameNumber(s.events[h], r.events[h]);
    }
  }

  lemma NothingCounted()
    ensures CountsUp(EMPTY_ROUTER, 0)
  {
  }

  /** From the start of the thread, with at most `k` accepted queries and the clock beyond k plus
      a day at each of them, the accepted queries are numbered 1, 2, 3 and so on in the order of
      issue, whatever else is issued, received or read in between. */
  lemma {:induction false} NumbersCountUp(ops: seq<Op>, k: nat)
    requires AcceptedCount(ops) <= k < TWO_32 && ClockBeyond(ops, k)
    ensures CountsUp(Run(EMPTY_ROUTER, ops), AcceptedCount(ops))
    decreases |ops|
  {
    hide Issue, Reply, Accepts, KeepsNumbers, CountsUp, Take;
    if ops == [] {
      NothingCounted();
    } else {
      var before, op := ops[..|ops| - 1], ops[|ops| - 1];
      NumbersCountUp(before, k);
      var r := Run(EMPTY_ROUTER, before);
      match op {
        case IssueOp(req, now) => IssueCounts(r, req, now, AcceptedCount(before), k);
        case Kernel(m) =>
          ReplyKeepsNumbers(r, m);
          CountsKept(r, Reply(r, m), AcceptedCount(before));
        case GetReply(h) =>
          TakeKeepsNumbers(r, h);
          CountsKept(r, Take(r, h), AcceptedCount(before));
      }
    }
  }

  lemma {:induction false} GivenIsListed(events: seq<NlEvent>, h: nat)
    requires h < |events| && Accepts(events[h].kind, events[h].query)
    ensures events[h].seqno in NumbersGiven(events)
    decreases |events|
  {
    if h < |events| - 1 { GivenIsListed(events[..|events| - 1], h); }
  }

  lemma NextIsFree(r: Router, n: nat)
    requires Valid(r) && CountsUp(r, n)
    ensures NoTwin(r, n + 1)
  {
    hide Accepts, NumbersGiven;
    forall i | 0 <= i < |r.table| ensures !Awaits(r, r.table[i], n + 1) {
      var e := r.events[r.table[i]];
      if Accepts(e.kind, e.query) { GivenIsListed(r.events, r.table[i]); }
    }
  }

  /** Under the same conditions the next accepted query, the n-th, has number n and gets exactly
      its replies in every continuation. */
  lemma CountedQueriesAreServed(before: seq<Op>, req: Request, now: int, later: seq<Op>, k: nat)
    requires Accepts(req.kind, req.query) && now > k + 86400
    requires AcceptedCount(before) < k < TWO_32 && ClockBeyond(before, k)
    ensures var r, n := Run(EMPTY_ROUTER, before), AcceptedCount(before) + 1;
            var s := Step(r, IssueOp(req, now));
            s.events[|r.events|].seqno == n && Served(Run(s, later), |r.events|, n, Messages(later))
  {
    hide Served, Accepts, CountsUp, ClockBeyond;
    NumbersCountUp(before, k);
    var r, n := Run(EMPTY_ROUTER, before), AcceptedCount(before);
    NextIsFree(r, n);
    LastGiven(r, n);
    NumberAgainstClock(r, req, now);
    AcceptsTheTypes(req.kind, req.query);
    QueryGetsItsReplies(r, req, now, later);
  }

  lemma LastGiven(r: Router, n: nat)
    requires CountsUp(r, n)
    ensures r.nlSeq == n
  {
  }

  // ----- two consequences of the routing -----

  /** A route message is not handed to a query, even one for routes whose number it carries. */
  lemma RouteAnswerIsLost(r: Router, req: Request, now: int, m: Msg)
    requires Valid(r) && req.kind == Query && req.query == 26
    requires m.typ in {24, 25} && m.seqno == Issue(r, req, now).events[|r.events|].seqno
    ensures Handed(Run(Step(r, IssueOp(req, now)), [Kernel(m)]), |r.events|) == []
  {
    hide DeliverToWatches, Resets, NextSeq;
    var s := Issue(r, req, now);
    assert [Kernel(m)][..0] == [];
    WatchesOnly(s, |s.table|, m, |r.events|);
  }

  /** A rejected query stays in the table with number 0 and is handed a message with that
      number. */
  lemma RejectedQueryIsAnswered(r: Router, req: Request, now: int, m: Msg)
    requires Valid(r) && req.kind == Query && req.query !in QUERIES && NoTwin(r, 0)
    requires Matches(m, 0)
    ensures Handed(Run(Step(r, IssueOp(req, now)), [Kernel(m)]), |r.events|) == [m]
  {
    hide NextSeq, Resets;
    QueryGetsItsReplies(r, req, now, [Kernel(m)]);
    assert [Kernel(m)][..0] == [] && Messages([Kernel(m)]) == [m];
    assert Expected([m], 0) == [m];
  }
}
