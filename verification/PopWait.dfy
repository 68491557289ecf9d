/** EventPopWait against concurrent EventPush calls, one lock operation or memory update per
    step. The consumer tests the queue under the queue mutex but waits under another mutex,
    so nothing stops a push between the two. */
module PopWait {
  import opened Events
  import opened ClientQueue

  /** Where the consumer is in EventPopWait. */
  datatype Consumer =
    | Outside        // not in the call
    | AtPop          // about to lock the queue and pop
    | SawEmpty       // popped nothing, about to wait on the condition
    | Blocked        // inside pthread_cond_wait

  /** Who holds the queue mutex, and how far that thread has come. */
  datatype Mutex =
    | Free
    | Popping
    | PopDone(empty: bool)
    | Pushing(event: Event)
    | Inserted       // queued, not yet broadcast
    | Announced      // broadcast, not yet unlocked

  /** `now` counts steps. An event's `arrival` is the step that queued it, `emptyAt` the step
      of the last pop that found nothing, `waitAt` the step that last entered the wait, and
      `queuedAt` the step that last queued an event. `result` is what the consumer's last pop
      got. */
  datatype State = State(queue: seq<Event>, mutex: Mutex, consumer: Consumer,
                         now: nat, emptyAt: nat, waitAt: nat, queuedAt: nat, result: Option<Event>)

  datatype Action =
    | Call | LockForPop | PopQueue | UnlockAfterPop | EnterWait
    | WakeSpuriously | TimeOut
    | LockForPush(event: Event) | QueueEvent | Announce | UnlockAfterPush

  predicate Enabled(s: State, a: Action) {
    match a
    case Call => s.consumer == Outside
    case LockForPop => s.consumer == AtPop && s.mutex == Free
    case PopQueue => s.mutex == Popping
    case UnlockAfterPop => s.mutex.PopDone?
    case EnterWait => s.consumer == SawEmpty
    case WakeSpuriously => s.consumer == Blocked
    case TimeOut => s.consumer == Blocked
    case LockForPush(_) => s.mutex == Free
    case QueueEvent => s.mutex.Pushing?
    case Announce => s.mutex == Inserted
    case UnlockAfterPush => s.mutex == Announced
  }

  function Next(s: State, a: Action): State
    requires Enabled(s, a)
  {
    var t := s.(now := s.now + 1);
    match a
    case Call => t.(consumer := AtPop)
    case LockForPop => t.(mutex := Popping)
    case PopQueue =>
      if s.queue == [] then t.(mutex := PopDone(true), emptyAt := s.now, result := None)
      else t.(mutex := PopDone(false), result := Some(s.queue[0]), queue := PopFrom(Client(true, s.queue, 0)).queue)
    case UnlockAfterPop => t.(mutex := Free, consumer := if s.mutex.empty then SawEmpty else Outside)
    case EnterWait => t.(consumer := Blocked, waitAt := s.now)
    case WakeSpuriously => t.(consumer := AtPop)
    case TimeOut => t.(consumer := Outside, result := None)
    case LockForPush(e) => t.(mutex := Pushing(e))
    case QueueEvent =>
      t.(mutex := Inserted, queue := Accept(s.queue, s.mutex.event.(arrival := s.now)),
         queuedAt := s.now)
    case Announce => t.(mutex := Announced, consumer := if s.consumer == Blocked then AtPop else s.consumer)
    case UnlockAfterPush => t.(mutex := Free)
  }

  ghost predicate IsRun(s: State, actions: seq<Action>)
    decreases |actions|
  {
    actions == [] || (Enabled(s, actions[0]) && IsRun(Next(s, actions[0]), actions[1..]))
  }

  ghost function After(s: State, actions: seq<Action>): State
    requires IsRun(s, actions)
    decreases |actions|
  {
    if actions == [] then s else After(Next(s, actions[0]), actions[1..])
  }

  const START := State([], Free, Outside, 1, 0, 0, 0, None)

  // ----- what the queue holds while the consumer waits -----

  predicate Waiting(s: State) {
    s.consumer == SawEmpty || s.consumer == Blocked
  }

  ghost predicate ArrivedIn(q: seq<Event>, lo: nat, hi: nat) {
    forall i :: 0 <= i < |q| ==> lo < q[i].arrival < hi
  }

  /** Every queued event arrived after the last empty pop, and before the wait began unless
      the thread that queued it has yet to broadcast the condition. */
  ghost predicate QueuedInWindow(s: State) {
    forall i :: 0 <= i < |s.queue| ==>
      && s.emptyAt < s.queue[i].arrival
      && (s.queue[i].arrival < s.waitAt || (s.mutex == Inserted && s.queue[i].arrival == s.queuedAt))
  }

  ghost predicate Invariant(s: State) {
    && s.emptyAt < s.now && s.waitAt < s.now && s.queuedAt < s.now
    && (s.mutex == Popping || s.mutex.PopDone? ==> s.consumer == AtPop)
    && (s.mutex.PopDone? ==> (s.mutex.empty <==> s.result == None))
    && (s.mutex == PopDone(true) ==> s.queue == [] && s.queuedAt <= s.emptyAt)
    && (Waiting(s) ==> ArrivedIn(s.queue, s.emptyAt, s.now) && (s.queue != [] <==> s.emptyAt < s.queuedAt))
    && (s.consumer == Blocked ==> QueuedInWindow(s) && (s.mutex != Inserted ==> s.queuedAt < s.waitAt))
  }

  lemma AcceptFrom(q: seq<Event>, e: Event)
    ensures Accept(q, e) != []
    ensures forall i :: 0 <= i < |Accept(q, e)| ==> Accept(q, e)[i] == e || Accept(q, e)[i] in q
  {
  }

  lemma StepKeepsInvariant(s: State, a: Action)
    requires Invariant(s) && Enabled(s, a)
    ensures Invariant(Next(s, a))
  {
    if a.QueueEvent? {
      AcceptFrom(s.queue, s.mutex.event.(arrival := s.now));
    }
  }

  lemma {:induction false} RunKeepsInvariant(s: State, actions: seq<Action>)
    requires Invariant(s) && IsRun(s, actions)
    ensures Invariant(After(s, actions))
    decreases |actions|
  {
    if actions != [] {
      StepKeepsInvariant(s, actions[0]);
      RunKeepsInvariant(Next(s, actions[0]), actions[1..]);
    }
  }

  /** In every reachable state an event that sits in the queue of a blocked consumer was
      pushed between the consumer's last empty pop and its entry to the wait, unless its
      broadcast is still to come. */
  lemma BlockedQueue(actions: seq<Action>)
    requires IsRun(START, actions) && After(START, actions).consumer == Blocked
    ensures QueuedInWindow(After(START, actions))
  {
    RunKeepsInvariant(START, actions);
  }

  /** The other steps: a call begins with a pop, a blocked consumer can always wake without cause
      or time out, and a pushed event goes to the front of the queue if it has high priority and
      to the back otherwise. */
  lemma OtherSteps(s: State)
    ensures s.consumer == Outside ==> Enabled(s, Call) && Next(s, Call).consumer == AtPop
    ensures s.consumer == SawEmpty ==> Enabled(s, EnterWait) && Next(s, EnterWait).consumer == Blocked
    ensures s.consumer == Blocked ==> Enabled(s, WakeSpuriously) && Next(s, WakeSpuriously).consumer == AtPop
    ensures s.consumer == Blocked ==> Enabled(s, TimeOut) && Next(s, TimeOut).consumer == Outside
    ensures s.mutex.Pushing? ==>
              && Enabled(s, QueueEvent)
              && var q, e := Next(s, QueueEvent).queue, s.mutex.event.(arrival := s.now);
                 q != [] && q[if e.flags.highPriority then 0 else |q| - 1] == e
  {
    if s.mutex.Pushing? { AcceptFrom(s.queue, s.mutex.event.(arrival := s.now)); }
  }

  // ----- what the call returns -----

  /** The consumer has popped and has yet to unlock. */
  predicate Popped(s: State, result: Option<Event>, queue: seq<Event>) {
    s.consumer == AtPop && s.mutex == PopDone(result.None?) && s.result == result && s.queue == queue
  }

  /** A pop takes the front event, and leaves a sticky one in the queue. */
  lemma PopTakesTheFront(s: State)
    requires Invariant(s) && s.mutex == Popping
    ensures Enabled(s, PopQueue)
    ensures var t := Next(s, PopQueue);
            if s.queue == [] then Popped(t, None, [])
            else Popped(t, Some(s.queue[0]), if s.queue[0].flags.sticky then s.queue else s.queue[1..])
  {
  }

  /** No other thread gets at the queue before the consumer unlocks it. With an event the call
      then returns it; with none it goes on to wait. */
  lemma UnlockDecides(s: State, result: Option<Event>, queue: seq<Event>)
    requires Popped(s, result, queue)
    ensures forall a :: Enabled(s, a) <==> a == UnlockAfterPop
    ensures var t := Next(s, UnlockAfterPop);
            && t.consumer == (if result.Some? then Outside else SawEmpty)
            && t.result == result && t.queue == queue && t.mutex == Free
  {
  }

  /** The call returns only with an event it popped or, out of the wait, when its time is up. */
  lemma ReturnsOnlyWith(actions: seq<Action>, a: Action)
    requires IsRun(START, actions) && Enabled(After(START, actions), a)
    requires After(START, actions).consumer != Outside && Next(After(START, actions), a).consumer == Outside
    ensures var s, t := After(START, actions), Next(After(START, actions), a);
            || (a == UnlockAfterPop && t.result.Some?)
            || (a == TimeOut && s.consumer == Blocked && t.result == None)
  {
    RunKeepsInvariant(START, actions);
  }

  // ----- a push wakes a blocked consumer -----

  /** A push holds the queue mutex and has not broadcast the condition yet. */
  predicate PushUnderWay(s: State) {
    s.mutex.Pushing? || s.mutex == Inserted
  }

  /** The consumer is in the wait that it entered at step `wait`. */
  predicate InWait(s: State, wait: nat) {
    s.consumer == Blocked && s.waitAt == wait
  }

  /** A wait that has ended is over: the next one starts at a later step. */
  lemma {:induction false} WaitNotReentered(s: State, wait: nat, actions: seq<Action>)
    requires IsRun(s, actions) && wait < s.now && !InWait(s, wait)
    ensures !InWait(After(s, actions), wait)
    decreases |actions|
  {
    if actions != [] { WaitNotReentered(Next(s, actions[0]), wait, actions[1..]); }
  }

  /** Whatever steps the consumer and the pushers take, a push that is under way while the
      consumer is blocked ends that wait: the consumer is in the same wait only as long as the
      push has not broadcast. It does not matter whether the push began before or during the
      wait, nor what it interleaves with. */
  lemma {:induction false} PushWakes(s: State, actions: seq<Action>)
    requires IsRun(s, actions) && s.consumer == Blocked && s.waitAt < s.now && PushUnderWay(s)
    ensures var t := After(s, actions); InWait(t, s.waitAt) ==> PushUnderWay(t) && Announce !in actions
    decreases |actions|
  {
    if actions != [] {
      var t := Next(s, actions[0]);
      if t.consumer == Blocked {
        PushWakes(t, actions[1..]);
      } else {
        WaitNotReentered(t, s.waitAt, actions[1..]);
      }
    }
  }

  /** A push that starts while the consumer is blocked is under way at once, and nothing can
      keep it from its broadcast, which finds the event queued. */
  lemma PushCompletes(s: State, e: Event)
    requires s.consumer == Blocked && s.mutex == Free
    ensures Enabled(s, LockForPush(e)) && PushUnderWay(Next(s, LockForPush(e)))
    ensures var push := [LockForPush(e), QueueEvent, Announce];
            IsRun(s, push) && After(s, push).consumer == AtPop && After(s, push).queue != []
  {
    var s1 := Next(s, LockForPush(e));
    var s2 := Next(s1, QueueEvent);
    AcceptFrom(s1.queue, e.(arrival := s1.now));
    var push := [LockForPush(e), QueueEvent, Announce];
    assert push[1..] == [QueueEvent, Announce] && push[1..][1..] == [Announce] && push[1..][1..][1..] == [];
    assert IsRun(Next(s2, Announce), []);
    assert IsRun(s2, [Announce]);
    assert IsRun(s1, [QueueEvent, Announce]);
  }

  /** The consumer sleeps although an event is queued and nobody is about to wake it. */
  predicate Missed(s: State) {
    s.consumer == Blocked && s.mutex != Inserted && s.queue != []
  }

  /** A missed wakeup is possible: the consumer finds nothing, an event is pushed and
      broadcast, and only then does the consumer start to wait. */
  lemma MissedWakeup(e: Event)
    ensures var run := [Call, LockForPop, PopQueue, UnlockAfterPop,
                        LockForPush(e), QueueEvent, Announce, UnlockAfterPush, EnterWait];
            IsRun(START, run) && Missed(After(START, run))
  {
    FindNothing();
    var pops := [Call, LockForPop, PopQueue, UnlockAfterPop];
    var tail := [LockForPush(e), QueueEvent, Announce, UnlockAfterPush, EnterWait];
    PushThenWait(After(START, pops), e);
    RunsJoin(START, pops, tail);
    assert pops + tail == [Call, LockForPop, PopQueue, UnlockAfterPop,
                           LockForPush(e), QueueEvent, Announce, UnlockAfterPush, EnterWait];
  }

  lemma {:induction false} RunsJoin(s: State, a: seq<Action>, b: seq<Action>)
    requires IsRun(s, a) && IsRun(After(s, a), b)
    ensures IsRun(s, a + b) && After(s, a + b) == After(After(s, a), b)
    decreases |a|
  {
    if a == [] {
      assert a + b == b;
    } else {
      assert (a + b)[1..] == a[1..] + b;
      RunsJoin(Next(s, a[0]), a[1..], b);
    }
  }

  lemma FindNothing()
    ensures var pops := [Call, LockForPop, PopQueue, UnlockAfterPop];
            IsRun(START, pops) && After(START, pops).consumer == SawEmpty && After(START, pops).mutex == Free
  {
  }

  lemma PushThenWait(s: State, e: Event)
    requires s.consumer == SawEmpty && s.mutex == Free
    ensures var run := [LockForPush(e), QueueEvent, Announce, UnlockAfterPush, EnterWait];
            IsRun(s, run) && Missed(After(s, run))
  {
    var s1 := Next(s, LockForPush(e));
    var s2 := Next(s1, QueueEvent);
    AcceptFrom(s1.queue, e.(arrival := s1.now));
    var s3 := Next(s2, Announce);
    var s4 := Next(s3, UnlockAfterPush);
    var run := [LockForPush(e), QueueEvent, Announce, UnlockAfterPush, EnterWait];
    assert run[1..] == [QueueEvent, Announce, UnlockAfterPush, EnterWait];
    assert run[1..][1..] == [Announce, UnlockAfterPush, EnterWait];
    assert run[1..][1..][1..] == [UnlockAfterPush, EnterWait];
    assert run[1..][1..][1..][1..] == [EnterWait] && [EnterWait][1..] == [];
    assert IsRun(Next(s4, EnterWait), []);
    assert IsRun(s4, [EnterWait]);
    assert IsRun(s3, [UnlockAfterPush, EnterWait]);
    assert IsRun(s2, [Announce, UnlockAfterPush, EnterWait]);
    assert IsRun(s1, [QueueEvent, Announce, UnlockAfterPush, EnterWait]);
  }

  /** In a reachable state a wakeup is missed exactly if the consumer is blocked, no broadcast
      is to come, and the last push fell between its empty pop and its entry to the wait. */
  lemma MissedExactlyIf(actions: seq<Action>)
    requires IsRun(START, actions)
    ensures var s := After(START, actions);
            Missed(s) <==> s.consumer == Blocked && s.mutex != Inserted && s.emptyAt < s.queuedAt < s.waitAt
  {
    RunKeepsInvariant(START, actions);
  }

  /** A missed wakeup lasts until the next push, a spurious wakeup or the time limit. */
  lemma {:induction false} MissedLasts(s: State, actions: seq<Action>)
    requires Missed(s) && IsRun(s, actions) && Invariant(s)
    requires QueueEvent !in actions && WakeSpuriously !in actions && TimeOut !in actions
    ensures Missed(After(s, actions)) && After(s, actions).queue == s.queue
    decreases |actions|
  {
    if actions != [] {
      StepKeepsInvariant(s, actions[0]);
      assert actions[0] in actions;
      MissedLasts(Next(s, actions[0]), actions[1..]);
    }
  }
}
