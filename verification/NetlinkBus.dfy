/** The netlink thread on the event bus: every reply dispatches the event of the query or watch
    that got it, to the client that sent it. */
module NetlinkBus {
  import opened Events
  import opened Counting
  import opened EventBus
  import Q = ClientQueue
  import R = NetlinkRouter

  /** The dispatches the thread `self` makes for `posts`, in order. */
  function PostAll(b: Bus, posts: seq<Event>, self: ClientId): Bus {
    if posts == [] then b else
    var n := |posts| - 1;
    Dispatch(PostAll(b, posts[..n], self), posts[n], Some(self), posts[n].target)
  }

  ghost predicate Extends(before: seq<Event>, after: seq<Event>) {
    |before| <= |after| && after[..|before|] == before
  }

  /** What `after` adds to `before`. */
  function Since(before: seq<Event>, after: seq<Event>): seq<Event> {
    if |before| <= |after| then after[|before|..] else []
  }

  /** Between two moments the thread posted exactly what was added to its list. */
  ghost predicate Announced(before: seq<Event>, b: Bus, after: seq<Event>, r: Bus, self: ClientId) {
    Extends(before, after) && r == PostAll(b, Since(before, after), self)
  }

  lemma {:induction false} PostAllJoin(b: Bus, x: seq<Event>, y: seq<Event>, self: ClientId)
    ensures PostAll(b, x + y, self) == PostAll(PostAll(b, x, self), y, self)
    decreases |y|
  {
    hide Dispatch;
    if y == [] {
      assert x + y == x;
    } else {
      var n := |y| - 1;
      assert (x + y)[..|x + y| - 1] == x + y[..n];
      PostAllJoin(b, x, y[..n], self);
    }
  }

  lemma AnnouncedNothing(before: seq<Event>, b: Bus, self: ClientId)
    ensures Announced(before, b, before, b, self)
  {
  }

  lemma AnnouncedOne(before: seq<Event>, b: Bus, e: Event, self: ClientId)
    ensures Announced(before, b, before + [e], Dispatch(b, e, Some(self), e.target), self)
  {
    hide Dispatch;
    assert Since(before, before + [e]) == [e] && [e][..0] == [];
    assert PostAll(b, [], self) == b;
  }

  lemma AnnouncedTrans(p: seq<Event>, b: Bus, q: seq<Event>, c: Bus, r: seq<Event>, d: Bus, self: ClientId)
    requires Announced(p, b, q, c, self) && Announced(q, c, r, d, self)
    ensures Announced(p, b, r, d, self)
  {
    hide PostAll;
    PostAllJoin(b, Since(p, q), Since(q, r), self);
    assert Since(p, q) + Since(q, r) == Since(p, r);
  }

  // ----- what one client sees of it -----

  /** The posts addressed to a client. */
  function ForClient(posts: seq<Event>, c: ClientId): seq<Event> {
    if posts == [] then [] else
    var n := |posts| - 1;
    ForClient(posts[..n], c) + if posts[n].target == To(c) then [posts[n]] else []
  }

  function Pushes(posts: seq<Event>, self: ClientId): (ops: seq<Q.Op>)
    ensures |ops| == |posts|
  {
    seq(|posts|, i requires 0 <= i < |posts| => Q.Push(posts[i], Some(self)))
  }

  lemma PostProjects(b: Bus, e: Event, self: ClientId, c: ClientId)
    requires Registered(b, c) && e.target != Broadcast
    ensures Holds(Dispatch(b, e, Some(self), e.target), c,
                  if e.target == To(c) then Q.PushTo(Lookup(b, c), e, Some(self)) else Lookup(b, c))
  {
    hide Dispatch, Q.PushTo;
    DispatchProjects(b, e, Some(self), e.target, c);
    if e.target == To(c) { Q.RunOne(Lookup(b, c), Q.Push(e, Some(self))); }
  }

  lemma PushesSnoc(d: Q.Client, posts: seq<Event>, e: Event, self: ClientId)
    ensures Q.Run(d, Pushes(posts + [e], self)) == Q.PushTo(Q.Run(d, Pushes(posts, self)), e, Some(self))
  {
    hide Q.PushTo;
    assert Pushes(posts + [e], self)[..|posts|] == Pushes(posts, self);
  }

  /** A client is pushed exactly the posts addressed to it, in order. */
  lemma {:induction false} PostAllProjects(b: Bus, posts: seq<Event>, self: ClientId, c: ClientId)
    requires Registered(b, c) && forall i :: 0 <= i < |posts| ==> posts[i].target != Broadcast
    ensures Holds(PostAll(b, posts, self), c, Q.Run(Lookup(b, c), Pushes(ForClient(posts, c), self)))
    decreases |posts|
  {
    hide Dispatch, Q.PushTo;
    if posts != [] {
      var n := |posts| - 1;
      PostAllProjects(b, posts[..n], self, c);
      PostProjects(PostAll(b, posts[..n], self), posts[n], self, c);
      var mine := ForClient(posts[..n], c);
      if posts[n].target == To(c) {
        PushesSnoc(Lookup(b, c), mine, posts[n], self);
      } else {
        assert mine + [] == mine;
      }
    }
  }

  predicate Plain(e: Event) {
    !e.flags.exclusive && !e.flags.highPriority
  }

  /** The queue gained `es` at its end, in order, each marked with its sender. */
  ghost predicate Appended(d: Q.Client, r: Q.Client, es: seq<Event>, self: ClientId) {
    && r.enabled && r.accepted == d.accepted + |es|
    && |r.queue| == |d.queue| + |es| && r.queue[..|d.queue|] == d.queue
    && forall i :: 0 <= i < |es| ==> r.queue[|d.queue| + i] == es[i].(source := Some(self), arrival := d.accepted + i)
  }

  lemma {:induction false} PushesAppend(d: Q.Client, es: seq<Event>, self: ClientId)
    requires d.enabled && forall i :: 0 <= i < |es| ==> Plain(es[i])
    ensures Appended(d, Q.Run(d, Pushes(es, self)), es, self)
    decreases |es|
  {
    if es != [] {
      var n := |es| - 1;
      PushesAppend(d, es[..n], self);
      assert es == es[..n] + [es[n]];
      PushesSnoc(d, es[..n], es[n], self);
    }
  }

  lemma {:induction false} ForClientFrom(posts: seq<Event>, c: ClientId)
    ensures forall i :: 0 <= i < |ForClient(posts, c)| ==> ForClient(posts, c)[i] in posts
    decreases |posts|
  {
    if posts != [] { ForClientFrom(posts[..|posts| - 1], c); }
  }

  /** While nothing else happens on the bus, the queue of an enabled client grows by exactly
      the posts addressed to it, in order. */
  lemma QueueGrowsByPosts(b: Bus, posts: seq<Event>, self: ClientId, c: ClientId)
    requires Registered(b, c) && Lookup(b, c).enabled
    requires forall i :: 0 <= i < |posts| ==> posts[i].target != Broadcast && Plain(posts[i])
    ensures Registered(PostAll(b, posts, self), c)
    ensures Appended(Lookup(b, c), Lookup(PostAll(b, posts, self), c), ForClient(posts, c), self)
  {
    hide PostAll, Appended, Plain;
    PostAllProjects(b, posts, self, c);
    ForClientFrom(posts, c);
    PushesAppend(Lookup(b, c), ForClient(posts, c), self);
  }

  // ----- the router and the bus together -----

  datatype Net = Net(router: R.Router, bus: Bus)

  /** A step of the netlink thread or of a caller of GetReply, or any operation on the bus. */
  datatype NetOp = Route(op: R.Op) | OnBus(act: BusOp)

  function NetStep(net: Net, op: NetOp, self: ClientId): (r: Net)
    requires R.Valid(net.router)
    ensures R.Valid(r.router)
  {
    match op
    case Route(op) =>
      var s := R.Step(net.router, op);
      Net(s, PostAll(net.bus, Since(net.router.posted, s.posted), self))
    case OnBus(op) => net.(bus := Step(net.bus, op))
  }

  function NetRun(net: Net, ops: seq<NetOp>, self: ClientId): (r: Net)
    requires R.Valid(net.router)
    ensures R.Valid(r.router)
  {
    if ops == [] then net else NetStep(NetRun(net, ops[..|ops| - 1], self), ops[|ops| - 1], self)
  }

  function RouterOps(ops: seq<NetOp>): seq<R.Op> {
    if ops == [] then [] else
    var n := |ops| - 1;
    RouterOps(ops[..n]) + if ops[n].Route? then [ops[n].op] else []
  }

  lemma {:induction false} RouterRuns(net: Net, ops: seq<NetOp>, self: ClientId)
    requires R.Valid(net.router)
    ensures NetRun(net, ops, self).router == R.Run(net.router, RouterOps(ops))
    decreases |ops|
  {
    hide R.Valid, R.Step, PostAll, Since, Step;
    if ops != [] {
      var n := |ops| - 1;
      RouterRuns(net, ops[..n], self);
      var before := RouterOps(ops[..n]);
      if ops[n].Route? {
        assert (before + [ops[n].op])[..|before|] == before;
      } else {
        assert before + [] == before;
      }
    }
  }

  lemma {:induction false} WatchesExtend(r: R.Router, n: nat, m: R.Msg)
    requires R.Valid(r) && n <= |r.table|
    ensures Extends(r.posted, R.DeliverToWatches(r, n, m).posted)
    decreases n
  {
    hide R.Deliver, R.DeliverToWatches;
    if n == 0 {
      R.WatchesNone(r, m);
    } else {
      R.WatchesNext(r, n - 1, m);
      WatchesExtend(r, n - 1, m);
      var d := R.DeliverToWatches(r, n - 1, m);
      if R.Watches(d, r.table[n - 1]) { DeliverExtends(r.posted, d, r.table[n - 1], m); }
    }
  }

  lemma DeliverExtends(before: seq<Event>, r: R.Router, h: nat, m: R.Msg)
    requires Extends(before, r.posted) && h < |r.events|
    ensures Extends(before, R.Deliver(r, h, m).posted)
  {
  }

  lemma StepExtends(r: R.Router, op: R.Op)
    requires R.Valid(r)
    ensures Extends(r.posted, R.Step(r, op).posted)
  {
    hide R.DeliverToWatches, R.Resets, R.NextSeq, R.FirstAwaiting;
    if op.Kernel? { WatchesExtend(r, |r.table|, op.msg); }
  }

  lemma {:induction false} RunExtends(r: R.Router, ops: seq<R.Op>)
    requires R.Valid(r)
    ensures Extends(r.posted, R.Run(r, ops).posted)
    decreases |ops|
  {
    hide R.Step, R.Valid;
    if ops != [] {
      RunExtends(r, ops[..|ops| - 1]);
      StepExtends(R.Run(r, ops[..|ops| - 1]), ops[|ops| - 1]);
    }
  }

  /** The events that pushes of the thread `self` put into a queue. */
  function Announcements(log: seq<Q.Op>, self: ClientId): seq<Event> {
    if log == [] then [] else
    var n := |log| - 1;
    Announcements(log[..n], self)
    + if log[n].Push? && log[n].source == Some(self) then [log[n].event] else []
  }

  lemma {:induction false} AnnouncementsJoin(x: seq<Q.Op>, y: seq<Q.Op>, self: ClientId)
    ensures Announcements(x + y, self) == Announcements(x, self) + Announcements(y, self)
    decreases |y|
  {
    if y == [] {
      assert x + y == x;
    } else {
      assert (x + y)[..|x + y| - 1] == x + y[..|y| - 1];
      AnnouncementsJoin(x, y[..|y| - 1], self);
    }
  }

  lemma {:induction false} PushesAnnounce(es: seq<Event>, self: ClientId)
    ensures Announcements(Pushes(es, self), self) == es
    decreases |es|
  {
    if es != [] {
      var n := |es| - 1;
      PushesAnnounce(es[..n], self);
      assert Pushes(es, self)[..n] == Pushes(es[..n], self);
    }
  }

  lemma {:induction false} ForClientJoin(x: seq<Event>, y: seq<Event>, c: ClientId)
    ensures ForClient(x + y, c) == ForClient(x, c) + ForClient(y, c)
    decreases |y|
  {
    if y == [] {
      assert x + y == x;
    } else {
      assert (x + y)[..|x + y| - 1] == x + y[..|y| - 1];
      ForClientJoin(x, y[..|y| - 1], c);
    }
  }

  /** The thread dispatches nothing but its posts, and the client is not deleted. */
  predicate Foreign(op: NetOp, self: ClientId, c: ClientId) {
    op.OnBus? ==>
      && op.act != DeleteClient(c)
      && (op.act.DispatchNew? || op.act.DispatchHeld? ==> op.act.source != Some(self))
  }

  ghost predicate AllForeign(ops: seq<NetOp>, self: ClientId, c: ClientId) {
    forall i :: 0 <= i < |ops| ==> Foreign(ops[i], self, c)
  }

  /** Between `b` and `r` the queue of `c` went through the operations `log`, of which the pushes
      by the thread are the posts addressed to `c`. */
  ghost predicate Logged(b: Bus, r: Bus, c: ClientId, log: seq<Q.Op>, posts: seq<Event>, self: ClientId) {
    && Registered(b, c) && Holds(r, c, Q.Run(Lookup(b, c), log))
    && Announcements(log, self) == ForClient(posts, c)
  }

  /** The queue operations one step performs on client `c`. */
  function StepOps(net: Net, op: NetOp, self: ClientId, c: ClientId): seq<Q.Op>
    requires R.Valid(net.router)
  {
    match op
    case Route(op) => Pushes(ForClient(Since(net.router.posted, R.Step(net.router, op).posted), c), self)
    case OnBus(act) => if Registered(net.bus, c) then Project(net.bus, act, c) else []
  }

  /** The queue operations a run performs on client `c`, in order. */
  function QueueLog(net: Net, ops: seq<NetOp>, self: ClientId, c: ClientId): seq<Q.Op>
    requires R.Valid(net.router)
  {
    if ops == [] then [] else
    var n := |ops| - 1;
    QueueLog(net, ops[..n], self, c) + StepOps(NetRun(net, ops[..n], self), ops[n], self, c)
  }

  lemma StepLog(net: Net, op: NetOp, self: ClientId, c: ClientId)
    requires R.Valid(net.router) && Registered(net.bus, c) && Foreign(op, self, c)
    ensures var r := NetStep(net, op, self);
            Logged(net.bus, r.bus, c, StepOps(net, op, self, c), Since(net.router.posted, r.router.posted), self)
  {
    hide R.Step, Step, PostAll, Project;
    match op {
      case Route(op) =>
        var posts := Since(net.router.posted, R.Step(net.router, op).posted);
        PostAllProjects(net.bus, posts, self, c);
        PushesAnnounce(ForClient(posts, c), self);
      case OnBus(act) =>
        StepProjects(net.bus, act, c);
        ForeignLog(net.bus, act, self, c);
    }
  }

  lemma ForeignLog(b: Bus, op: BusOp, self: ClientId, c: ClientId)
    requires Registered(b, c) && Foreign(OnBus(op), self, c)
    ensures Announcements(Project(b, op, c), self) == []
  {
    var log := Project(b, op, c);
    if log != [] { assert |log| == 1 && log[..0] == []; }
  }

  /** However the steps of the thread interleave with other operations on the bus, the queue of
      every client goes through the queue operations of the run, and among these the pushes by
      the thread are exactly the posts addressed to that client, in order. */
  lemma {:induction false} NetRunLog(net: Net, ops: seq<NetOp>, self: ClientId, c: ClientId)
    requires R.Valid(net.router) && Registered(net.bus, c) && AllForeign(ops, self, c)
    ensures var r := NetRun(net, ops, self);
            Logged(net.bus, r.bus, c, QueueLog(net, ops, self, c), Since(net.router.posted, r.router.posted), self)
    decreases |ops|
  {
    hide StepOps, NetStep, R.Valid;
    if ops == [] {
      assert Since(net.router.posted, net.router.posted) == [];
    } else {
      var n := |ops| - 1;
      NetRunLog(net, ops[..n], self, c);
      var m := NetRun(net, ops[..n], self);
      StepLog(m, ops[n], self, c);
      RouterRuns(net, ops[..n], self);
      RunExtends(net.router, RouterOps(ops[..n]));
      NetStepExtends(m, ops[n], self);
      LogJoin(net, m, NetStep(m, ops[n], self), c,
              QueueLog(net, ops[..n], self, c), StepOps(m, ops[n], self, c), self);
    }
  }

  lemma NetStepExtends(net: Net, op: NetOp, self: ClientId)
    requires R.Valid(net.router)
    ensures Extends(net.router.posted, NetStep(net, op, self).router.posted)
  {
    hide R.Step, Step, PostAll;
    if op.Route? { StepExtends(net.router, op.op); }
  }

  lemma LogJoin(a: Net, m: Net, z: Net, c: ClientId, x: seq<Q.Op>, y: seq<Q.Op>, self: ClientId)
    requires Extends(a.router.posted, m.router.posted) && Extends(m.router.posted, z.router.posted)
    requires Logged(a.bus, m.bus, c, x, Since(a.router.posted, m.router.posted), self)
    requires Logged(m.bus, z.bus, c, y, Since(m.router.posted, z.router.posted), self)
    ensures Logged(a.bus, z.bus, c, x + y, Since(a.router.posted, z.router.posted), self)
  {
    hide Q.Run, ForClient, Announcements;
    Q.RunAppend(Lookup(a.bus, c), x, y);
    AnnouncementsJoin(x, y, self);
    var p, q := Since(a.router.posted, m.router.posted), Since(m.router.posted, z.router.posted);
    assert p + q == Since(a.router.posted, z.router.posted);
    ForClientJoin(p, q, c);
  }

  // ----- every reply is announced to the client that asked -----

  lemma {:induction false} ForClientCount(posts: seq<Event>, c: ClientId, e: Event)
    requires e.target == To(c)
    ensures CountOf(ForClient(posts, c), e) == CountOf(posts, e)
    decreases |posts|
  {
    if posts != [] {
      var n := |posts| - 1;
      ForClientCount(posts[..n], c, e);
      var mine := ForClient(posts[..n], c);
      if posts[n].target == To(c) {
        CountSnoc(mine, posts[n], e);
      } else {
        assert mine + [] == mine;
      }
    }
  }

  lemma StepKeepsEvent(r: R.Router, op: R.Op, h: nat)
    requires R.Valid(r) && h < |r.events|
    ensures R.Step(r, op).events[h].event == r.events[h].event
  {
    hide R.Reply, R.Resets, R.NextSeq;
    match op {
      case IssueOp(_, _) =>
      case Kernel(m) =>
        R.ReplyKeepsNumbers(r, m);
        assert R.SameNumber(R.Reply(r, m).events[h], r.events[h]);
      case GetReply(_) =>
    }
  }

  lemma {:induction false} RunKeepsEvent(r: R.Router, ops: seq<R.Op>, h: nat)
    requires R.Valid(r) && h < |r.events|
    ensures R.Run(r, ops).events[h].event == r.events[h].event
    decreases |ops|
  {
    hide R.Step, R.Valid;
    if ops != [] {
      RunKeepsEvent(r, ops[..|ops| - 1], h);
      StepKeepsEvent(R.Run(r, ops[..|ops| - 1]), ops[|ops| - 1], h);
    }
  }

  /** The state after the request `req` reached the thread. */
  function Issued(net: Net, req: R.Request, now: int, self: ClientId): (r: Net)
    requires R.Valid(net.router)
    ensures R.Valid(r.router)
  {
    NetStep(net, Route(R.IssueOp(req, now)), self)
  }

  /** From the request of `c` on, the queue of `c` goes through the queue operations of the run,
      and in these the thread pushes the event of that request, turned round, `n` times. */
  ghost predicate Answered(net: Net, req: R.Request, now: int, ops: seq<NetOp>, self: ClientId, c: ClientId, n: nat)
    requires R.Valid(net.router)
  {
    var start := Issued(net, req, now, self);
    var log := QueueLog(start, ops, self, c);
    && Registered(net.bus, c) && Holds(NetRun(start, ops, self).bus, c, Q.Run(Lookup(net.bus, c), log))
    && CountOf(Announcements(log, self), R.Exchange(req.event.(data := |net.router.events|))) == n
  }

  /** Every post of a request is pushed to the client that sent it. */
  lemma PostsReachTheSender(net: Net, req: R.Request, now: int, ops: seq<NetOp>, self: ClientId, c: ClientId)
    requires R.Valid(net.router) && req.event.source == Some(c) && Registered(net.bus, c) && AllForeign(ops, self, c)
    ensures var start, h := Issued(net, req, now, self), |net.router.events|;
            var end := R.Run(start.router, RouterOps(ops));
            && |end.events| > h
            && Answered(net, req, now, ops, self, c, CountOf(end.posted, end.events[h].event))
  {
    hide NetStep, R.Resets, R.NextSeq, CountOf, QueueLog;
    var start := Issued(net, req, now, self);
    IssuePostsNothing(net, req, now, self);
    NetRunLog(start, ops, self, c);
    RouterRuns(start, ops, self);
    PostedSince(net.router, req, now, RouterOps(ops));
    ForClientCount(Since(start.router.posted, NetRun(start, ops, self).router.posted), c,
                   R.Exchange(req.event.(data := |net.router.events|)));
  }

  /** A client that sends a query is pushed the query's event once for each message the query
      is to get, over any interleaving with other queries, kernel messages, reads of replies
      and operations on the bus. */
  lemma RepliesReachTheSender(net: Net, req: R.Request, now: int, ops: seq<NetOp>, self: ClientId, c: ClientId)
    requires R.Valid(net.router) && req.kind == R.Query && req.event.source == Some(c)
    requires R.NoTwin(net.router, R.Issue(net.router, req, now).events[|net.router.events|].seqno)
    requires Registered(net.bus, c) && AllForeign(ops, self, c)
    ensures var seqno := R.Issue(net.router, req, now).events[|net.router.events|].seqno;
            Answered(net, req, now, ops, self, c, |R.Expected(R.Messages(RouterOps(ops)), seqno)|)
  {
    hide Answered, R.Issue, R.Expected, CountOf;
    PostsReachTheSender(net, req, now, ops, self, c);
    R.QueryGetsItsReplies(net.router, req, now, RouterOps(ops));
  }

  /** A client that sends a route watch is pushed its event once for each later route message. */
  lemma RoutesReachTheWatcher(net: Net, req: R.Request, now: int, ops: seq<NetOp>, self: ClientId, c: ClientId)
    requires R.Valid(net.router) && req.kind == R.RouteWatch && req.event.source == Some(c)
    requires Registered(net.bus, c) && AllForeign(ops, self, c)
    ensures Answered(net, req, now, ops, self, c, |R.Routes(R.Messages(RouterOps(ops)))|)
  {
    hide Answered, R.Issue, R.Routes, CountOf;
    PostsReachTheSender(net, req, now, ops, self, c);
    R.WatchGetsEveryRoute(net.router, req, now, RouterOps(ops));
  }

  lemma IssuePostsNothing(net: Net, req: R.Request, now: int, self: ClientId)
    requires R.Valid(net.router)
    ensures var start := NetStep(net, Route(R.IssueOp(req, now)), self);
            start == Net(R.Issue(net.router, req, now), net.bus)
  {
    hide R.Resets, R.NextSeq;
  }

  /** All posts of a newly issued event come after its issue, and each is counted. */
  lemma PostedSince(r: R.Router, req: R.Request, now: int, ops: seq<R.Op>)
    requires R.Valid(r)
    ensures var s, h := R.Issue(r, req, now), |r.events|;
            var t := R.Run(s, ops);
            && t.events[h].event == s.events[h].event
            && CountOf(Since(s.posted, t.posted), s.events[h].event) == CountOf(t.posted, s.events[h].event)
  {
    hide R.Resets, R.NextSeq, CountOf;
    var s, h := R.Issue(r, req, now), |r.events|;
    var t := R.Run(s, ops);
    RunKeepsEvent(s, ops, h);
    RunExtends(s, ops);
    R.NotPosted(s.posted, s.events[h].event);
    CountConcat(s.posted, Since(s.posted, t.posted), s.events[h].event);
    assert s.posted + Since(s.posted, t.posted) == t.posted;
  }

  // ----- the queue itself, while the thread works alone -----

  /** Every event the router knows or posted is neither exclusive nor high-priority. */
  ghost predicate PlainRouter(r: R.Router) {
    && (forall h :: 0 <= h < |r.events| ==> Plain(r.events[h].event))
    && (forall i :: 0 <= i < |r.posted| ==> Plain(r.posted[i]))
  }

  predicate PlainOp(op: R.Op) {
    op.IssueOp? ==> Plain(op.request.event)
  }

  lemma {:induction false} WatchesKeepPlain(r: R.Router, n: nat, m: R.Msg)
    requires R.Valid(r) && n <= |r.table| && PlainRouter(r)
    ensures PlainRouter(R.DeliverToWatches(r, n, m))
    decreases n
  {
    hide R.Deliver, PlainRouter;
    if n > 0 {
      WatchesKeepPlain(r, n - 1, m);
      var d := R.DeliverToWatches(r, n - 1, m);
      if R.Watches(d, r.table[n - 1]) { DeliverKeepsPlain(d, r.table[n - 1], m); }
    }
  }

  lemma DeliverKeepsPlain(r: R.Router, h: nat, m: R.Msg)
    requires PlainRouter(r) && h < |r.events|
    ensures PlainRouter(R.Deliver(r, h, m))
  {
  }

  lemma StepKeepsPlain(r: R.Router, op: R.Op)
    requires R.Valid(r) && PlainRouter(r) && PlainOp(op)
    ensures PlainRouter(R.Step(r, op))
  {
    hide R.DeliverToWatches, R.Resets, R.NextSeq, R.FirstAwaiting;
    match op {
      case IssueOp(_, _) =>
      case Kernel(m) =>
        WatchesKeepPlain(r, |r.table|, m);
        var i := R.FirstAwaiting(r, 0, m.seqno);
        if i < |r.table| { DeliverKeepsPlain(r, r.table[i], m); }
      case GetReply(_) =>
    }
  }

  lemma {:induction false} RunKeepsPlain(r: R.Router, ops: seq<R.Op>)
    requires R.Valid(r) && PlainRouter(r) && forall i :: 0 <= i < |ops| ==> PlainOp(ops[i])
    ensures PlainRouter(R.Run(r, ops))
    decreases |ops|
  {
    hide R.Step, R.Valid, PlainRouter, PlainOp;
    if ops != [] {
      RunKeepsPlain(r, ops[..|ops| - 1]);
      StepKeepsPlain(R.Run(r, ops[..|ops| - 1]), ops[|ops| - 1]);
    }
  }

  /** With the flags a netlink event is created with, each reply to a query adds the query's
      event at the end of the sender's queue: over any issues, kernel messages and reads of
      replies the queue grows by the posts to that client, in order, and the query's event is
      among them once for each message it is to get. */
  lemma QueueGrowsByReplies(r: R.Router, b: Bus, req: R.Request, now: int, ops: seq<R.Op>, self: ClientId, c: ClientId)
    requires R.Valid(r) && PlainRouter(r) && req.kind == R.Query && req.event.source == Some(c) && Plain(req.event)
    requires R.NoTwin(r, R.Issue(r, req, now).events[|r.events|].seqno)
    requires forall i :: 0 <= i < |ops| ==> PlainOp(ops[i])
    requires Registered(b, c) && Lookup(b, c).enabled
    ensures var s, h := R.Issue(r, req, now), |r.events|;
            var posts := Since(s.posted, R.Run(s, ops).posted);
            && Registered(PostAll(b, posts, self), c)
            && Appended(Lookup(b, c), Lookup(PostAll(b, posts, self), c), ForClient(posts, c), self)
            && CountOf(ForClient(posts, c), s.events[h].event) == |R.Expected(R.Messages(ops), s.events[h].seqno)|
  {
    hide PostAll, Appended, R.Expected, R.Messages, R.Resets, R.NextSeq, CountOf, R.Step;
    var s, h := R.Issue(r, req, now), |r.events|;
    var posts := Since(s.posted, R.Run(s, ops).posted);
    RunKeepsPlain(s, ops);
    QueueGrowsByPosts(b, posts, self, c);
    PostedSince(r, req, now, ops);
    ForClientCount(posts, c, s.events[h].event);
    R.QueryGetsItsReplies(r, req, now, ops);
    assert R.Step(r, R.IssueOp(req, now)) == s by { IssueIsStep(r, req, now); }
  }

  lemma IssueIsStep(r: R.Router, req: R.Request, now: int)
    requires R.Valid(r)
    ensures R.Step(r, R.IssueOp(req, now)) == R.Issue(r, req, now)
  {
  }
}
