/** The Wi-Fi reconnect logic: event handlers, one delayable work item, a binary semaphore
    with one waiter, and a capped exponential backoff.  The event thread, the work queue and
    the waiting thread interleave statement by statement. */
module Wifi {
  import opened Wrappers

  const INITIAL_MS := 5000
  const MAX_MS := 30000
  const EAGAIN := 11

  datatype Thread = Worker | Handler

  // Where a thread is between two of its statements.  The work handler is past dequeuing its
  // item (Asking); an event handler is past clearing the link flag, past setting it, or past
  // taking note of a success (Resetting); either is about to schedule the work (Retrying,
  // after a counted failure or not), or has done so and is about to double the backoff.
  datatype Stage =
    | Quiet
    | Clearing(reconnect: bool)
    | Raising
    | Resetting
    | Asking
    | Retrying(failed: bool)
    | Doubling

  // Where the waiting thread is: not waiting, past seeing the link down, or blocked.
  datatype Waiter = Away | Looked | Blocked

  // inFlight and associated belong to the Wi-Fi stack: a request is waiting for its result
  // event, and the station is associated.  delayMs is the delay the pending work item was
  // scheduled with.
  datatype State = State(
    backoffMs: nat, linkUp: bool, sem: nat, pending: bool, delayMs: nat,
    inFlight: bool, associated: bool, handler: Stage, work: Stage, waiter: Waiter)

  // What happens when the stack is asked for a connection.
  datatype Answer = NoInterface | Rejected | Accepted

  datatype Event =
    | WorkRuns
    | Asks(answer: Answer)
    | ConnectResult(status: int)
    | Resets
    | Schedules(thread: Thread)
    | Doubles(thread: Thread)
    | ClearBegins(reconnect: bool)
    | ClearEnds
    | RaiseBegins
    | RaiseEnds
    | Look
    | Take
    | TimesOut

  function Doubled(ms: nat): nat { if ms * 2 < MAX_MS then ms * 2 else MAX_MS }

  // k_work_schedule: an item that is already pending keeps its time.
  function Scheduled(s: State, ms: nat): (r: State)
    ensures r.pending && r.handler == s.handler && r.work == s.work
  {
    if s.pending then s else s.(pending := true, delayMs := ms)
  }

  function StageOf(s: State, t: Thread): Stage { if t.Worker? then s.work else s.handler }

  function To(s: State, t: Thread, stage: Stage): State {
    if t.Worker? then s.(work := stage) else s.(handler := stage)
  }

  // The contract of kernel and stack: one handler at a time, one waiter, work runs when it is
  // pending, and a result answers a request in flight.
  predicate Allowed(s: State, e: Event) {
    match e
    case WorkRuns => s.pending && s.work.Quiet?
    case Asks(_) => s.work.Asking?
    case ConnectResult(_) => s.inFlight && s.handler.Quiet?
    case Resets => s.handler.Resetting?
    case Schedules(thread) => StageOf(s, thread).Retrying?
    case Doubles(thread) => StageOf(s, thread).Doubling?
    case ClearBegins(_) => s.handler.Quiet?
    case ClearEnds => s.handler.Clearing?
    case RaiseBegins => s.handler.Quiet?
    case RaiseEnds => s.handler.Raising?
    case Look => s.waiter.Away?
    case Take => s.waiter.Looked?
    case TimesOut => s.waiter.Blocked?
  }

  function Step(s: State, e: Event): State {
    match e
    case WorkRuns => s.(pending := false, work := Asking)
    case Asks(answer) =>
      if answer.Accepted? then s.(inFlight := true, work := Quiet) else s.(work := Retrying(answer.Rejected?))
    case ConnectResult(status) =>
      if status != 0 then s.(inFlight := false, handler := Retrying(true))
      else s.(inFlight := false, associated := true, handler := Resetting)
    case Resets => s.(backoffMs := INITIAL_MS, handler := Quiet)
    case Schedules(thread) =>
      To(Scheduled(s, s.backoffMs), thread, if StageOf(s, thread) == Retrying(true) then Doubling else Quiet)
    case Doubles(thread) => To(s.(backoffMs := Doubled(s.backoffMs)), thread, Quiet)
    case ClearBegins(reconnect) =>
      s.(linkUp := false, associated := s.associated && !reconnect, handler := Clearing(reconnect))
    case ClearEnds =>
      s.(sem := 0, waiter := if s.waiter.Blocked? then Away else s.waiter,
         handler := if s.handler == Clearing(true) then Retrying(false) else Quiet)
    case RaiseBegins => s.(linkUp := true, handler := Raising)
    case RaiseEnds =>
      if s.waiter.Blocked? then s.(waiter := Away, handler := Quiet) else s.(sem := 1, handler := Quiet)
    case Look => if s.linkUp then s else s.(waiter := Looked)
    case Take => if s.sem > 0 then s.(sem := s.sem - 1, waiter := Away) else s.(waiter := Blocked)
    case TimesOut => s.(waiter := Away)
  }

  // What wifi_connect_wait_up returns at a step, if it returns there.
  function Returned(s: State, e: Event): Option<int> {
    match e
    case Look => if s.linkUp then Some(0) else None
    case Take => if s.sem > 0 then Some(0) else None
    case RaiseEnds => if s.waiter.Blocked? then Some(0) else None
    case ClearEnds => if s.waiter.Blocked? then Some(-EAGAIN) else None
    case TimesOut => Some(-EAGAIN)
    case _ => None
  }

  const BOOT := State(INITIAL_MS, false, 0, true, 0, false, false, Quiet, Quiet, Away)

  function Run(events: seq<Event>): State {
    if events == [] then BOOT else Step(Run(events[..|events| - 1]), events[|events| - 1])
  }

  predicate Possible(events: seq<Event>) {
    events == [] || (Possible(events[..|events| - 1]) && Allowed(Run(events[..|events| - 1]), events[|events| - 1]))
  }

  lemma OneMore(events: seq<Event>, e: Event)
    ensures Run(events + [e]) == Step(Run(events), e)
    ensures Possible(events + [e]) <==> Possible(events) && Allowed(Run(events), e)
  {
    hide Step; hide Allowed;
    assert (events + [e])[..|events|] == events;
  }

  class Connector {
    var backoffMs: nat
    var linkUp: bool
    var sem: nat
    var pending: bool
    var delayMs: nat
    var waiter: Waiter
    ghost var inFlight: bool
    ghost var associated: bool
    ghost var handler: Stage
    ghost var work: Stage
    ghost var events: seq<Event>

    ghost function Now(): State
      reads this
    {
      State(backoffMs, linkUp, sem, pending, delayMs, inFlight, associated, handler, work, waiter)
    }

    ghost predicate Valid()
      reads this
    {
      Possible(events) && Now() == Run(events)
    }

    ghost predicate Did(past: seq<Event>, e: Event)
      reads this
    {
      Valid() && events == past + [e]
    }

    // wifi_connect_start.
    constructor ()
      ensures Valid() && events == []
      ensures pending && delayMs == 0 && backoffMs == 5000 && !linkUp && sem == 0
      ensures !inFlight && !associated && waiter.Away? && handler.Quiet? && work.Quiet?
    {
      backoffMs, linkUp, sem := INITIAL_MS, false, 0;
      pending, delayMs, waiter := true, 0, Away;
      inFlight, associated, handler, work, events := false, false, Quiet, Quiet, [];
    }

    ghost method Note(e: Event)
      requires Possible(events) && Allowed(Run(events), e) && Now() == Step(Run(events), e)
      modifies `events
      ensures Did(old(events), e)
    {
      hide Step;
      hide Allowed;
      OneMore(events, e);
      events := events + [e];
    }

    ghost method MoveTo(t: Thread, stage: Stage)
      modifies `handler, `work
      ensures Now() == To(old(Now()), t, stage)
    {
      if t.Worker? {
        work := stage;
      } else {
        handler := stage;
      }
    }

    // k_work_schedule(&connect_work, K_MSEC(backoff_ms)).
    method Schedule(ghost t: Thread)
      requires Valid() && StageOf(Now(), t).Retrying?
      modifies `pending, `delayMs, `handler, `work, `events
      ensures Did(old(events), Schedules(t))
      ensures Now() == Step(old(Now()), Schedules(t))
    {
      hide Run;
      hide Possible;
      MoveTo(t, if StageOf(Now(), t) == Retrying(true) then Doubling else Quiet);
      if !pending {
        pending, delayMs := true, backoffMs;
      }
      Note(Schedules(t));
    }

    // backoff_ms = MIN(backoff_ms * 2U, RECONNECT_MAX_MS).
    method Double(ghost t: Thread)
      requires Valid() && StageOf(Now(), t).Doubling?
      modifies `backoffMs, `handler, `work, `events
      ensures Did(old(events), Doubles(t))
      ensures Now() == Step(old(Now()), Doubles(t))
    {
      hide Run;
      hide Possible;
      backoffMs := if backoffMs * 2 < MAX_MS then backoffMs * 2 else MAX_MS;
      MoveTo(t, Quiet);
      Note(Doubles(t));
    }

    // The work queue takes the item.
    method Dequeue()
      requires Valid() && pending && work.Quiet?
      modifies `pending, `work, `events
      ensures Did(old(events), WorkRuns) && Now() == Step(old(Now()), WorkRuns)
    {
      hide Run;
      hide Possible;
      pending, work := false, Asking;
      Note(WorkRuns);
    }

    // Looking for the interface and asking it to connect.
    ghost method Ask(answer: Answer)
      requires Valid() && work.Asking?
      modifies `inFlight, `work, `events
      ensures Did(old(events), Asks(answer)) && Now() == Step(old(Now()), Asks(answer))
    {
      hide Run;
      hide Possible;
      inFlight := inFlight || answer.Accepted?;
      work := if answer.Accepted? then Quiet else Retrying(answer.Rejected?);
      Note(Asks(answer));
    }

    // connect_work_fn, when nothing runs in between.
    method ConnectWork(answer: Answer)
      requires Valid() && pending && work.Quiet?
      modifies this
      ensures Valid() && work.Quiet? && handler == old(handler)
      ensures events == old(events) + [WorkRuns, Asks(answer)]
                        + (if answer.Accepted? then [] else [Schedules(Worker)])
                        + if answer.Rejected? then [Doubles(Worker)] else []
    {
      hide Run;
      hide Possible;
      Dequeue();
      Ask(answer);
      if answer.NoInterface? {
        Schedule(Worker);
        return;
      }
      if answer.Rejected? {
        Schedule(Worker);
        Double(Worker);
      }
    }

    // The stack reports a result.
    ghost method Report(status: int)
      requires Valid() && inFlight && handler.Quiet?
      modifies `inFlight, `associated, `handler, `events
      ensures Did(old(events), ConnectResult(status)) && Now() == Step(old(Now()), ConnectResult(status))
    {
      hide Run;
      hide Possible;
      inFlight := false;
      associated := associated || status == 0;
      handler := if status != 0 then Retrying(true) else Resetting;
      Note(ConnectResult(status));
    }

    // backoff_ms = RECONNECT_INITIAL_MS.
    method ResetBackoff()
      requires Valid() && handler.Resetting?
      modifies `backoffMs, `handler, `events
      ensures Did(old(events), Resets) && Now() == Step(old(Now()), Resets)
    {
      hide Run;
      hide Possible;
      backoffMs := INITIAL_MS;
      handler := Quiet;
      Note(Resets);
    }

    // handle_wifi_result, when nothing runs in between.
    method WifiResult(status: int)
      requires Valid() && inFlight && handler.Quiet?
      modifies this
      ensures Valid() && handler.Quiet? && work == old(work)
      ensures events == old(events) + [ConnectResult(status)]
                        + if status != 0 then [Schedules(Handler), Doubles(Handler)] else [Resets]
    {
      hide Run;
      hide Possible;
      Report(status);
      if status != 0 {
        Schedule(Handler);
        Double(Handler);
        return;
      }
      ResetBackoff();
    }

    // atomic_clear(&link_up), the first statement of the clearing handlers.
    method ClearLink(reconnect: bool)
      requires Valid() && handler.Quiet?
      modifies `linkUp, `associated, `handler, `events
      ensures Did(old(events), ClearBegins(reconnect)) && Now() == Step(old(Now()), ClearBegins(reconnect))
    {
      hide Run;
      hide Possible;
      associated := associated && !reconnect;
      linkUp := false;
      handler := Clearing(reconnect);
      Note(ClearBegins(reconnect));
    }

    // k_sem_reset, which sends a blocked waiter away.
    method ResetSem()
      requires Valid() && handler.Clearing?
      modifies `sem, `waiter, `handler, `events
      ensures Did(old(events), ClearEnds) && Now() == Step(old(Now()), ClearEnds)
    {
      hide Run;
      hide Possible;
      sem := 0;
      if waiter.Blocked? {
        waiter := Away;
      }
      handler := if handler == Clearing(true) then Retrying(false) else Quiet;
      Note(ClearEnds);
    }

    // handle_wifi_disconnect, when nothing runs in between.
    method WifiDisconnect()
      requires Valid() && handler.Quiet?
      modifies this
      ensures Valid() && handler.Quiet? && work == old(work)
      ensures events == old(events) + [ClearBegins(true), ClearEnds, Schedules(Handler)]
    {
      hide Run;
      hide Possible;
      ClearLink(true);
      ResetSem();
      Schedule(Handler);
    }

    // atomic_set(&link_up, 1).
    method RaiseLink()
      requires Valid() && handler.Quiet?
      modifies `linkUp, `handler, `events
      ensures Did(old(events), RaiseBegins) && Now() == Step(old(Now()), RaiseBegins)
    {
      hide Run;
      hide Possible;
      linkUp := true;
      handler := Raising;
      Note(RaiseBegins);
    }

    // k_sem_give, which hands the semaphore to a blocked waiter.
    method GiveSem()
      requires Valid() && handler.Raising?
      modifies `sem, `waiter, `handler, `events
      ensures Did(old(events), RaiseEnds) && Now() == Step(old(Now()), RaiseEnds)
    {
      hide Run;
      hide Possible;
      handler := Quiet;
      if waiter.Blocked? {
        waiter := Away;
      } else {
        sem := 1;
      }
      Note(RaiseEnds);
    }

    // ipv4_mgmt_event_handler, when nothing runs in between.
    method Ipv4Event(added: bool)
      requires Valid() && handler.Quiet?
      modifies this
      ensures Valid() && handler.Quiet? && work == old(work)
      ensures events == old(events) + if added then [RaiseBegins, RaiseEnds] else [ClearBegins(false), ClearEnds]
    {
      hide Run;
      hide Possible;
      if added {
        RaiseLink();
        GiveSem();
      } else {
        ClearLink(false);
        ResetSem();
      }
    }

    // atomic_get(&link_up).
    method LookAtLink() returns (up: bool)
      requires Valid() && waiter.Away?
      modifies `waiter, `events
      ensures Did(old(events), Look) && up == linkUp && waiter == if up then Away else Looked
    {
      hide Run;
      hide Possible;
      up := linkUp;
      if !up {
        waiter := Looked;
      }
      Note(Look);
    }

    // k_sem_take, up to its return or its blocking.
    method TakeSem() returns (taken: bool)
      requires Valid() && waiter.Looked?
      modifies `sem, `waiter, `events
      ensures Did(old(events), Take) && taken == (old(sem) > 0) && waiter == if taken then Away else Blocked
    {
      hide Run;
      hide Possible;
      taken := sem > 0;
      if taken {
        sem, waiter := sem - 1, Away;
      } else {
        waiter := Blocked;
      }
      Note(Take);
    }

    // wifi_connect_wait_up, up to its return or its blocking; called between handlers it
    // returns at once exactly when the link is up.
    method WaitUp() returns (rc: Option<int>)
      requires Valid() && waiter.Away?
      modifies `sem, `waiter, `events
      ensures Valid() && rc == if linkUp || old(sem) > 0 then Some(0) else None
      ensures handler.Quiet? ==> (rc == Some(0) <==> linkUp)
      ensures waiter.Blocked? == rc.None? && events == old(events) + if linkUp then [Look] else [Look, Take]
    {
      hide Run;
      hide Possible;
      hide Step;
      SemMeansUp(events);
      var up := LookAtLink();
      if up {
        return Some(0);
      }
      var taken := TakeSem();
      return if taken then Some(0) else None;
    }
  }

  // A reconnect is under way, or none is needed.
  predicate Live(s: State) { s.pending || s.inFlight || s.associated }

  // A thread is past the point where the work item is gone and before the point where it is
  // scheduled again.
  predicate InBetween(s: State) {
    s.work.Asking? || s.work.Retrying? || s.handler.Retrying? || s.handler == Clearing(true)
  }

  // What links flag, semaphore, handler and waiter.
  predicate Consistent(s: State) {
    && s.sem <= 1
    && (s.handler.Raising? ==> s.linkUp) && (s.handler.Clearing? ==> !s.linkUp)
    && (s.sem == 1 ==> s.linkUp || s.handler.Clearing?)
    && (s.waiter.Blocked? ==> s.sem == 0)
    && (!s.waiter.Away? && s.linkUp && !s.handler.Raising? ==> s.waiter.Looked? && s.sem == 1)
  }

  // In every reachable state a reconnect is under way or none is needed, or a thread that
  // will schedule it is between two statements.
  lemma {:induction false} AlwaysLive(events: seq<Event>)
    requires Possible(events)
    ensures Live(Run(events)) || InBetween(Run(events))
    ensures Consistent(Run(events))
  {
    hide Step; hide Allowed; hide Live; hide InBetween; hide Consistent;
    if events != [] {
      AlwaysLive(events[..|events| - 1]);
      StepIsLive(Run(events[..|events| - 1]), events[|events| - 1]);
      StepIsConsistent(Run(events[..|events| - 1]), events[|events| - 1]);
    } else {
      BootIsLive();
    }
  }

  lemma BootIsLive()
    ensures Live(BOOT) && Consistent(BOOT)
  {
  }

  lemma StepIsLive(s: State, e: Event)
    requires Allowed(s, e) && (Live(s) || InBetween(s))
    ensures Live(Step(s, e)) || InBetween(Step(s, e))
  {
    if e.Schedules? {
      assert Step(s, e).pending;
    }
  }

  lemma StepIsConsistent(s: State, e: Event)
    requires Allowed(s, e) && Consistent(s)
    ensures Consistent(Step(s, e))
  {
    if e.Schedules? || e.Doubles? {
      SameLink(s, e);
      hide Step;
    }
  }

  // Scheduling and doubling keep flag, semaphore and waiter, and end between handlers.
  lemma SameLink(s: State, e: Event)
    requires Allowed(s, e) && (e.Schedules? || e.Doubles?)
    ensures var t := Step(s, e);
            && t.sem == s.sem && t.linkUp == s.linkUp && t.waiter == s.waiter
            && (t.handler == s.handler
                || (!s.handler.Clearing? && !s.handler.Raising? && (t.handler.Quiet? || t.handler.Doubling?)))
  {
  }

  // Outside a clearing handler a semaphore count of 1 means that the link is up.
  lemma SemMeansUp(events: seq<Event>)
    requires Possible(events)
    ensures Run(events).sem > 0 && !Run(events).handler.Clearing? ==> Run(events).linkUp
  {
    hide Step; hide Run; hide Possible;
    AlwaysLive(events);
  }

  // No wake-up is lost: the waiter is never left blocked on a link that is up.
  lemma BlockedMeansDown(events: seq<Event>)
    requires Possible(events) && Run(events).waiter.Blocked?
    ensures !Run(events).linkUp || Run(events).handler.Raising?
  {
    hide Step; hide Run; hide Possible;
    AlwaysLive(events);
  }

  // A wait that reports success does so with the link up, except exactly when it takes the
  // semaphore inside a clearing handler, between its two statements.
  lemma SuccessMeansUpIff(events: seq<Event>, e: Event)
    requires Possible(events) && Allowed(Run(events), e) && Returned(Run(events), e) == Some(0)
    ensures Step(Run(events), e).linkUp <==> !(e.Take? && Run(events).handler.Clearing?)
  {
    hide Run; hide Possible;
    AlwaysLive(events);
  }

  // That can happen: the waiter looks, the link comes up, and the disconnect handler clears
  // the flag before the waiter takes the semaphore.
  lemma WaiterInsideTheHandler()
    ensures exists events: seq<Event> ::
              && Possible(events) && Allowed(Run(events), Take)
              && Returned(Run(events), Take) == Some(0) && !Step(Run(events), Take).linkUp
  {
    OneMore([], Look);
    OneMore([Look], RaiseBegins);
    OneMore([Look, RaiseBegins], RaiseEnds);
    OneMore([Look, RaiseBegins, RaiseEnds], ClearBegins(true));
    assert [] + [Look] == [Look] && [Look] + [RaiseBegins] == [Look, RaiseBegins];
    assert [Look, RaiseBegins] + [RaiseEnds] == [Look, RaiseBegins, RaiseEnds];
    var events := [Look, RaiseBegins, RaiseEnds] + [ClearBegins(true)];
    assert Possible(events) && Run(events).sem == 1 && !Run(events).linkUp;
  }

  // What a wait returns, and when: 0 when it sees the link up, takes the semaphore or is handed
  // it, -EAGAIN when it is blocked and the semaphore is reset or its time is up.  It ends
  // nowhere else.
  lemma WaitReturnsIff(s: State, e: Event)
    requires Allowed(s, e)
    ensures Returned(s, e).Some? <==> (e.Look? && s.linkUp) || (!s.waiter.Away? && Step(s, e).waiter.Away?)
    ensures Returned(s, e) == Some(-11) <==> s.waiter.Blocked? && (e.ClearEnds? || e.TimesOut?)
    ensures Returned(s, e).Some? && Returned(s, e) != Some(-11) ==> Returned(s, e) == Some(0)
  {
    if e.Schedules? || e.Doubles? {
      SameLink(s, e);
      hide Step;
    }
  }

  // One give of the semaphore wakes one wait: a take that succeeds leaves nothing for another.
  lemma TakenOnce(events: seq<Event>)
    requires Possible(events) && Allowed(Run(events), Take) && Returned(Run(events), Take) == Some(0)
    ensures Run(events).sem == 1 && Step(Run(events), Take).sem == 0
  {
    hide Run; hide Possible;
    AlwaysLive(events);
  }

  // The stack's side: a station is associated from a good result to a disconnection, and a
  // request is in flight from its acceptance to its result.
  lemma StackFollows(s: State, e: Event)
    ensures Step(s, e).associated <==> e == ConnectResult(0) || (s.associated && e != ClearBegins(true))
    ensures Step(s, e).inFlight <==> e == Asks(Accepted) || (s.inFlight && !e.ConnectResult?)
  {
    if e.Schedules? || e.Doubles? {
      SameStack(s, e);
      hide Step;
    }
  }

  lemma SameStack(s: State, e: Event)
    requires e.Schedules? || e.Doubles?
    ensures Step(s, e).associated == s.associated && Step(s, e).inFlight == s.inFlight
  {
  }

  // The doublings of the backoff since it was last reset.
  function Doublings(events: seq<Event>): nat {
    if events == [] then 0
    else
      var before := Doublings(events[..|events| - 1]);
      match events[|events| - 1]
      case Doubles(_) => before + 1
      case Resets => 0
      case _ => before
  }

  // Rejections and failed results, but not a missing interface.
  predicate Fails(e: Event) { e == Asks(Rejected) || (e.ConnectResult? && e.status != 0) }

  predicate Associates(e: Event) { e == ConnectResult(0) }

  predicate IsDouble(e: Event) { e.Doubles? }

  predicate IsReset(e: Event) { e.Resets? }

  function Count(events: seq<Event>, kind: Event -> bool): nat {
    if events == [] then 0 else Count(events[..|events| - 1], kind) + if kind(events[|events| - 1]) then 1 else 0
  }

  // Failures whose doubling, and successes whose reset, is still to come.
  function ToDouble(s: State): nat { One(s.work) + One(s.handler) }

  function One(stage: Stage): nat { if stage == Retrying(true) || stage.Doubling? then 1 else 0 }

  function ToReset(s: State): nat { if s.handler.Resetting? then 1 else 0 }

  // Every failure doubles the backoff exactly once, every success resets it exactly once, and
  // nothing else does either, whatever the threads do in between.
  lemma {:induction false} EveryFailureDoublesOnce(events: seq<Event>)
    requires Possible(events)
    ensures Count(events, Fails) == Count(events, IsDouble) + ToDouble(Run(events))
    ensures Count(events, Associates) == Count(events, IsReset) + ToReset(Run(events))
  {
    hide Step; hide Allowed; hide ToDouble; hide ToReset; hide Fails; hide Associates;
    if events == [] {
      NothingToDo();
    } else {
      var past, e := events[..|events| - 1], events[|events| - 1];
      EveryFailureDoublesOnce(past);
      DoublingsKept(Run(past), e);
      ResetsKept(Run(past), e);
    }
  }

  lemma NothingToDo()
    ensures ToDouble(BOOT) == 0 && ToReset(BOOT) == 0
  {
  }

  lemma DoublingsKept(s: State, e: Event)
    requires Allowed(s, e)
    ensures ToDouble(Step(s, e)) == ToDouble(s) + (if Fails(e) then 1 else 0) - if e.Doubles? then 1 else 0
  {
    match e
    case Schedules(thread) => SchedulingOwesNoLess(s, thread);
    case Doubles(thread) => DoublingPaysOne(s, thread);
    case _ => FailureOwesOne(s, e);
  }

  lemma SchedulingOwesNoLess(s: State, thread: Thread)
    requires StageOf(s, thread).Retrying?
    ensures ToDouble(Step(s, Schedules(thread))) == ToDouble(s)
  {
    hide Doubled;
  }

  lemma DoublingPaysOne(s: State, thread: Thread)
    requires StageOf(s, thread).Doubling?
    ensures ToDouble(Step(s, Doubles(thread))) == ToDouble(s) - 1
  {
    hide Doubled;
  }

  lemma FailureOwesOne(s: State, e: Event)
    requires Allowed(s, e) && !e.Schedules? && !e.Doubles?
    ensures ToDouble(Step(s, e)) == ToDouble(s) + if Fails(e) then 1 else 0
  {
    WorkStage(s, e);
    HandlerStage(s, e);
    hide Step; hide Allowed;
  }

  // What a thread owes after a step that is neither scheduling nor doubling.
  lemma WorkStage(s: State, e: Event)
    requires Allowed(s, e) && !e.Schedules? && !e.Doubles?
    ensures One(Step(s, e).work) == if e == Asks(Rejected) then 1 else One(s.work)
    ensures e.Asks? ==> One(s.work) == 0
  {
    hide Doubled; hide Scheduled; hide To;
  }

  lemma HandlerStage(s: State, e: Event)
    requires Allowed(s, e) && !e.Schedules? && !e.Doubles?
    ensures One(Step(s, e).handler) == if e.ConnectResult? && e.status != 0 then 1 else One(s.handler)
    ensures e.ConnectResult? ==> One(s.handler) == 0
  {
    hide Doubled; hide Scheduled; hide To;
  }

  lemma ResetsKept(s: State, e: Event)
    requires Allowed(s, e)
    ensures ToReset(Step(s, e)) == ToReset(s) + (if Associates(e) then 1 else 0) - if e.Resets? then 1 else 0
  {
  }

  function Pow2(k: nat): nat { if k == 0 then 1 else 2 * Pow2(k - 1) }

  function Backoff(doublings: nat): nat {
    if INITIAL_MS * Pow2(doublings) < MAX_MS then INITIAL_MS * Pow2(doublings) else MAX_MS
  }

  lemma BackoffDoubles(doublings: nat)
    ensures Backoff(0) == INITIAL_MS && Backoff(doublings + 1) == Doubled(Backoff(doublings))
    ensures Backoff(doublings) <= MAX_MS
  {
  }

  // The delays in milliseconds.
  lemma BackoffTable(doublings: nat)
    ensures Backoff(0) == 5000 && Backoff(1) == 10000 && Backoff(2) == 20000
    ensures doublings >= 3 ==> Backoff(doublings) == 30000
  {
    BackoffDoubles(0);
    BackoffDoubles(1);
    if doublings >= 3 {
      AtLeastEight(doublings);
    }
  }

  lemma {:induction false} AtLeastEight(k: nat)
    requires k >= 3
    ensures Pow2(k) >= 8
  {
    if k > 3 {
      AtLeastEight(k - 1);
    } else {
      assert Pow2(1) == 2 && Pow2(2) == 4;
    }
  }

  // What a step does to the backoff and to the delay.
  lemma StepTimes(s: State, e: Event)
    ensures Step(s, e).backoffMs
            == if e.Doubles? then Doubled(s.backoffMs) else if e.Resets? then INITIAL_MS else s.backoffMs
    ensures Step(s, e).delayMs == s.delayMs || Step(s, e).delayMs == s.backoffMs
    ensures Step(s, e).pending && !s.pending ==> e.Schedules? && Step(s, e).delayMs == s.backoffMs
  {
    hide Doubled;
    match e
    case Schedules(thread) =>
      if thread.Worker? {
      } else {
      }
    case Doubles(thread) =>
      if thread.Worker? {
      } else {
      }
    case _ =>
  }

  lemma {:induction false} BackoffIsExact(events: seq<Event>)
    requires Possible(events)
    ensures Run(events).backoffMs == Backoff(Doublings(events))
  {
    hide Backoff;
    hide Step;
    hide Doubled;
    BackoffDoubles(0);
    if events != [] {
      var past := events[..|events| - 1];
      BackoffIsExact(past);
      StepTimes(Run(past), events[|past|]);
      BackoffDoubles(Doublings(past));
    }
  }

  // Every wait for the next attempt is a backoff that was current when it was scheduled, so
  // no attempt is more than 30 seconds away.
  lemma {:induction false} NextAttemptIsBounded(events: seq<Event>)
    requires Possible(events)
    ensures Run(events).delayMs == 0 || exists k: nat :: k <= |events| && Run(events).delayMs == Backoff(k)
    ensures Run(events).delayMs <= MAX_MS
  {
    hide Backoff;
    hide Step;
    hide Doublings;
    if events != [] {
      var past := events[..|events| - 1];
      NextAttemptIsBounded(past);
      StepTimes(Run(past), events[|past|]);
      BackoffDoubles(Doublings(past));
      BackoffIsExact(past);
      DoublingsAreFew(past);
      if Run(past).delayMs != 0 {
        var k: nat :| k <= |past| && Run(past).delayMs == Backoff(k);
        assert k <= |events|;
      }
      assert Run(events).delayMs == Run(past).delayMs || Run(events).delayMs == Backoff(Doublings(past));
    }
  }

  // What makes the work item pending is a thread's scheduling it, after a missing interface, a
  // rejection, a failed result or a disconnection; and it does so with the backoff of the
  // doublings before: the first retry waits 5 seconds, the next 10, then 20, then 30.
  lemma RetryDelayIsExact(events: seq<Event>, e: Event)
    requires Possible(events) && Allowed(Run(events), e)
    requires Run(events + [e]).pending && !Run(events).pending
    ensures e.Schedules? && StageOf(Run(events), e.thread).Retrying?
    ensures Run(events + [e]).delayMs == Backoff(Doublings(events))
  {
    hide Backoff;
    hide Step;
    hide Run;
    hide Doublings;
    BackoffIsExact(events);
    StepTimes(Run(events), e);
    OneMore(events, e);
  }

  // The first attempt waits for nothing: until a thread first schedules a retry, the delay is
  // 0, and until the work queue first takes the item it is pending.
  lemma {:induction false} FirstAttemptAtOnce(events: seq<Event>)
    requires Possible(events)
    ensures (forall i :: 0 <= i < |events| ==> !events[i].Schedules?) ==> Run(events).delayMs == 0
    ensures (forall i :: 0 <= i < |events| ==> !events[i].WorkRuns?) ==> Run(events).pending
  {
    if events != [] {
      hide Step; hide Allowed;
      var past, e := events[..|events| - 1], events[|events| - 1];
      FirstAttemptAtOnce(past);
      OtherEventsKeepTheDelay(Run(past), e);
      hide Possible;
      assert e == events[|past|] && forall i :: 0 <= i < |past| ==> past[i] == events[i];
      assert Run(events) == Step(Run(past), e);
      hide Run;
    }
  }

  lemma OtherEventsKeepTheDelay(s: State, e: Event)
    ensures !e.Schedules? ==> Step(s, e).delayMs == s.delayMs
    ensures !e.WorkRuns? ==> s.pending ==> Step(s, e).pending
  {
  }

  lemma {:induction false} DoublingsAreFew(events: seq<Event>)
    ensures Doublings(events) <= |events|
  {
    if events != [] {
      DoublingsAreFew(events[..|events| - 1]);
    }
  }
}
