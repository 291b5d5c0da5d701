/** Webhook deliveries as a state machine: dispatching, attempts in flight, retry timers. What the
    network answers and when timers fire is not determined. */
module Webhooks {
  import opened Utf16
  import opened CanonicalJson
  import opened JsonParser
  import EventRail

  type Event = EventRail.Event

  datatype Hook = Hook(webhookId: Str, filter: EventRail.Filter, maxAttempts: int, active: bool)

  datatype Status = Pending | RetryScheduled | Succeeded | Failed

  /** A row of webhook_deliveries, with the webhook as it was when the event was dispatched; `offset` is
      how far next_attempt_at lies after the last update, None for a null. */
  datatype Delivery = Delivery(hook: Hook, event: Event, attempts: int, status: Status, offset: Option<real>)

  /** What is still to happen to the delivery at an index: a request that is being answered, or a timer. */
  datatype Task =
    | Flight(delivery: nat, attempt: int)
    | Timer(delivery: nat, attempt: int, delay: real)

  /** `posts` lists the requests made, delivery and attempt, in order. */
  datatype World = World(hooks: seq<Hook>, log: seq<Event>, deliveries: seq<Delivery>, tasks: multiset<Task>,
                         posts: seq<(nat, int)>)

  function Pow2(n: nat): (r: real)
    ensures r >= 1.0
  {
    if n == 0 then 1.0 else 2.0 * Pow2(n - 1)
  }

  /** Math.min(2000, base * 2 ** Math.max(0, n)) */
  function Backoff(base: real, n: int): (r: real)
    ensures r <= 2000.0
  {
    var d := base * Pow2(if n < 0 then 0 else n);
    if d < 2000.0 then d else 2000.0
  }

  // webhook.delivery.succeeded
  const DELIVERY_SUCCEEDED: Str := [
    0x77, 0x65, 0x62, 0x68, 0x6F, 0x6F, 0x6B, 0x2E, 0x64, 0x65, 0x6C, 0x69, 0x76, 0x65, 0x72, 0x79, 0x2E,
    0x73, 0x75, 0x63, 0x63, 0x65, 0x65, 0x64, 0x65, 0x64]
  // webhook.delivery.failed
  const DELIVERY_FAILED: Str := [
    0x77, 0x65, 0x62, 0x68, 0x6F, 0x6F, 0x6B, 0x2E, 0x64, 0x65, 0x6C, 0x69, 0x76, 0x65, 0x72, 0x79, 0x2E,
    0x66, 0x61, 0x69, 0x6C, 0x65, 0x64]

  // ---------------------------------------------------------------- the steps

  predicate Wants(hook: Hook, event: Event)
  {
    hook.active && EventRail.Matches(hook.filter, event)
  }

  function NewDelivery(hook: Hook, event: Event): Delivery
  {
    Delivery(hook, event, 0, Pending, Some(0.0))
  }

  /** One delivery, and its first request. */
  function Deliver(w: World, hook: Hook, event: Event): World
  {
    var i := |w.deliveries|;
    w.(deliveries := w.deliveries + [NewDelivery(hook, event)], tasks := w.tasks + multiset{Flight(i, 1)},
       posts := w.posts + [(i, 1)])
  }

  /** dispatchWebhooks to some of the hooks. */
  function DispatchTo(w: World, hooks: seq<Hook>, event: Event): World
  {
    if hooks == [] then w
    else
      var before, hook := DispatchTo(w, hooks[..|hooks| - 1], event), hooks[|hooks| - 1];
      if Wants(hook, event) then Deliver(before, hook, event) else before
  }

  function Dispatch(w: World, event: Event): World
  {
    DispatchTo(w, w.hooks, event)
  }

  /** The webhook side of emitEvent. */
  function EmitOne(w: World, event: Event, dispatch: bool): World
  {
    var logged := w.(log := w.log + [event]);
    if dispatch then Dispatch(logged, event) else logged
  }

  function Emit(w: World, event: Event, alias: Option<Event>, dispatch: bool): World
  {
    var w' := EmitOne(w, event, dispatch);
    if alias.Some? then EmitOne(w', alias.value, dispatch) else w'
  }

  predicate Retries(d: Delivery, attempt: int)
  {
    attempt < d.hook.maxAttempts
  }

  /** The row after an attempt has been answered. */
  function Answered(base: real, d: Delivery, attempt: int, ok: bool): Delivery
  {
    if ok then d.(attempts := attempt, status := Succeeded, offset := None)
    else if Retries(d, attempt)
      then d.(attempts := attempt, status := RetryScheduled, offset := Some(Backoff(base, attempt)))
    else d.(attempts := attempt, status := Status.Failed, offset := None)
  }

  /** scheduleWebhookRetry */
  function RetryTimer(base: real, delivery: nat, nextAttempt: int): Task
  {
    Timer(delivery, nextAttempt, Backoff(base, nextAttempt - 1))
  }

  function StatusEvent(d: Delivery, ok: bool): Event
  {
    EventRail.Event(if ok then DELIVERY_SUCCEEDED else DELIVERY_FAILED, d.event.subject, Null)
  }

  /** The end of deliverWebhook, once the request is answered. */
  function Complete(base: real, w: World, task: Task, ok: bool): World
    requires task.Flight? && task.delivery < |w.deliveries|
  {
    var d := w.deliveries[task.delivery];
    var answered := w.(deliveries := w.deliveries[task.delivery := Answered(base, d, task.attempt, ok)],
                       tasks := w.tasks - multiset{task});
    var told := Emit(answered, StatusEvent(d, ok), None, false);
    if !ok && Retries(d, task.attempt)
    then told.(tasks := told.tasks + multiset{RetryTimer(base, task.delivery, task.attempt + 1)})
    else told
  }

  /** A timer fires: the next request is made. */
  function Fire(w: World, task: Task): World
    requires task.Timer?
  {
    w.(tasks := w.tasks - multiset{task} + multiset{Flight(task.delivery, task.attempt)},
       posts := w.posts + [(task.delivery, task.attempt)])
  }

  datatype Step =
    | Emitting(event: Event, aliasPayload: Json)
    | Answering(task: Task, ok: bool)
    | Firing(task: Task)
    | SettingHooks(hooks: seq<Hook>)

  function Apply(base: real, w: World, step: Step): World
  {
    match step
    case Emitting(event, aliasPayload) => Emit(w, event, EventRail.AliasOf(event, aliasPayload), true)
    case Answering(task, ok) =>
      if task in w.tasks && task.Flight? && task.delivery < |w.deliveries| then Complete(base, w, task, ok) else w
    case Firing(task) => if task in w.tasks && task.Timer? then Fire(w, task) else w
    case SettingHooks(hooks) => w.(hooks := hooks)
  }

  const QUIET: World := World([], [], [], multiset{}, [])

  function Run(base: real, steps: seq<Step>): World
  {
    if steps == [] then QUIET else Apply(base, Run(base, steps[..|steps| - 1]), steps[|steps| - 1])
  }

  // ---------------------------------------------------------------- what every step keeps

  /** How many attempts a webhook allows: the first is always made. */
  function Allowed(hook: Hook): int
  {
    if hook.maxAttempts < 1 then 1 else hook.maxAttempts
  }

  /** The task is the only one of its delivery. */
  ghost predicate Only(tasks: multiset<Task>, task: Task)
  {
    tasks[task] == 1 && forall t | t in tasks && t.delivery == task.delivery :: t == task
  }

  ghost predicate Outstanding(tasks: multiset<Task>, i: nat)
  {
    exists t :: t in tasks && t.delivery == i
  }

  /** The attempts of delivery i, in the order they were made. */
  function AttemptsOf(posts: seq<(nat, int)>, i: nat): seq<int>
  {
    if posts == [] then []
    else
      var last := posts[|posts| - 1];
      AttemptsOf(posts[..|posts| - 1], i) + if last.0 == i then [last.1] else []
  }

  /** 1, 2, ..., n */
  function UpTo(n: int): seq<int>
    requires n >= 0
  {
    seq(n, k => k + 1)
  }

  /** A delivery agrees with its tasks and its requests. */
  ghost predicate Agrees(base: real, w: World, i: nat)
    requires i < |w.deliveries|
  {
    var d := w.deliveries[i];
    match d.status
    case Pending =>
      d.attempts == 0 && Only(w.tasks, Flight(i, 1)) && AttemptsOf(w.posts, i) == UpTo(1)
    case RetryScheduled =>
      && 1 <= d.attempts < d.hook.maxAttempts && d.offset == Some(Backoff(base, d.attempts))
      && ((Only(w.tasks, Timer(i, d.attempts + 1, d.offset.value)) && AttemptsOf(w.posts, i) == UpTo(d.attempts))
          || (Only(w.tasks, Flight(i, d.attempts + 1)) && AttemptsOf(w.posts, i) == UpTo(d.attempts + 1)))
    case Succeeded =>
      1 <= d.attempts <= Allowed(d.hook) && d.offset == None && !Outstanding(w.tasks, i)
      && AttemptsOf(w.posts, i) == UpTo(d.attempts)
    case Failed =>
      d.attempts == Allowed(d.hook) && d.offset == None && !Outstanding(w.tasks, i)
      && AttemptsOf(w.posts, i) == UpTo(d.attempts)
  }

  ghost predicate Inv(base: real, w: World)
  {
    && (forall i | 0 <= i < |w.deliveries| :: Agrees(base, w, i))
    && (forall t | t in w.tasks :: t.delivery < |w.deliveries|)
    && (forall k | 0 <= k < |w.posts| :: w.posts[k].0 < |w.deliveries|)
  }

  lemma AttemptsAppend(posts: seq<(nat, int)>, post: (nat, int), i: nat)
    ensures AttemptsOf(posts + [post], i) == AttemptsOf(posts, i) + if post.0 == i then [post.1] else []
  {
    assert (posts + [post])[..|posts|] == posts;
  }

  lemma {:induction false} NoAttempts(posts: seq<(nat, int)>, i: nat)
    requires forall k | 0 <= k < |posts| :: posts[k].0 != i
    ensures AttemptsOf(posts, i) == []
  {
    if posts != [] {
      NoAttempts(posts[..|posts| - 1], i);
    }
  }

  /** Deliveries that nothing was done to still agree. */
  lemma StillAgrees(base: real, w: World, w': World, i: nat)
    requires i < |w.deliveries| && i < |w'.deliveries| && w'.deliveries[i] == w.deliveries[i] && Agrees(base, w, i)
    requires forall t: Task | t.delivery == i :: w'.tasks[t] == w.tasks[t]
    requires AttemptsOf(w'.posts, i) == AttemptsOf(w.posts, i)
    ensures Agrees(base, w', i)
  {
  }

  lemma DeliverKeeps(base: real, w: World, hook: Hook, event: Event)
    requires Inv(base, w)
    ensures Inv(base, Deliver(w, hook, event))
  {
    var w' := Deliver(w, hook, event);
    var n := |w.deliveries|;
    forall i | 0 <= i < |w'.deliveries| ensures Agrees(base, w', i) {
      AttemptsAppend(w.posts, (n, 1), i);
      if i < n {
        StillAgrees(base, w, w', i);
      } else {
        NoAttempts(w.posts, n);
      }
    }
  }

  lemma {:induction false} DispatchKeeps(base: real, w: World, hooks: seq<Hook>, event: Event)
    requires Inv(base, w)
    ensures Inv(base, DispatchTo(w, hooks, event))
  {
    if hooks != [] {
      DispatchKeeps(base, w, hooks[..|hooks| - 1], event);
      DeliverKeeps(base, DispatchTo(w, hooks[..|hooks| - 1], event), hooks[|hooks| - 1], event);
    }
  }

  lemma EmitOneKeeps(base: real, w: World, event: Event, dispatch: bool)
    requires Inv(base, w)
    ensures Inv(base, EmitOne(w, event, dispatch))
  {
    var logged := w.(log := w.log + [event]);
    forall i | 0 <= i < |w.deliveries| ensures Agrees(base, logged, i) {
      StillAgrees(base, w, logged, i);
    }
    DispatchKeeps(base, logged, logged.hooks, event);
  }

  lemma EmitKeeps(base: real, w: World, event: Event, alias: Option<Event>, dispatch: bool)
    requires Inv(base, w)
    ensures Inv(base, Emit(w, event, alias, dispatch))
  {
    EmitOneKeeps(base, w, event, dispatch);
    if alias.Some? {
      EmitOneKeeps(base, EmitOne(w, event, dispatch), alias.value, dispatch);
    }
  }

  lemma FireKeeps(base: real, w: World, task: Task)
    requires Inv(base, w) && task in w.tasks && task.Timer?
    ensures Inv(base, Fire(w, task))
  {
    FiredAgrees(base, w, task);
    forall i | 0 <= i < |w.deliveries| && i != task.delivery ensures Agrees(base, Fire(w, task), i) {
      AttemptsAppend(w.posts, (task.delivery, task.attempt), i);
      StillAgrees(base, w, Fire(w, task), i);
    }
  }

  lemma OnlyTurns(tasks: multiset<Task>, task: Task, next: Task)
    requires Only(tasks, task) && next.delivery == task.delivery && next != task
    ensures Only(tasks - multiset{task} + multiset{next}, next)
  {
  }

  lemma FiredAgrees(base: real, w: World, task: Task)
    requires task.delivery < |w.deliveries| && Agrees(base, w, task.delivery) && task in w.tasks && task.Timer?
    ensures Agrees(base, Fire(w, task), task.delivery)
  {
    var d := w.deliveries[task.delivery];
    assert d.status == RetryScheduled && Only(w.tasks, task) && task.attempt == d.attempts + 1;
    OnlyTurns(w.tasks, task, Flight(task.delivery, task.attempt));
    AttemptsAppend(w.posts, (task.delivery, task.attempt), task.delivery);
    assert UpTo(task.attempt) == UpTo(d.attempts) + [task.attempt];
  }

  lemma AnsweredAgrees(base: real, w: World, task: Task, ok: bool)
    requires Inv(base, w) && task in w.tasks && task.Flight? && task.delivery < |w.deliveries|
    ensures Agrees(base, Complete(base, w, task, ok), task.delivery)
  {
    assert Agrees(base, w, task.delivery);
  }

  lemma CompleteKeeps(base: real, w: World, task: Task, ok: bool)
    requires Inv(base, w) && task in w.tasks && task.Flight? && task.delivery < |w.deliveries|
    ensures Inv(base, Complete(base, w, task, ok))
  {
    var w' := Complete(base, w, task, ok);
    AnsweredAgrees(base, w, task, ok);
    forall i | 0 <= i < |w'.deliveries| ensures Agrees(base, w', i) {
      if i != task.delivery {
        assert Agrees(base, w, i);
        StillAgrees(base, w, w', i);
      }
    }
  }

  lemma ApplyKeeps(base: real, w: World, step: Step)
    requires Inv(base, w)
    ensures Inv(base, Apply(base, w, step))
  {
    match step
    case Emitting(event, aliasPayload) => EmitKeeps(base, w, event, EventRail.AliasOf(event, aliasPayload), true);
    case Answering(task, ok) =>
      if task in w.tasks && task.Flight? && task.delivery < |w.deliveries| { CompleteKeeps(base, w, task, ok); }
    case Firing(task) => if task in w.tasks && task.Timer? { FireKeeps(base, w, task); }
    case SettingHooks(hooks) =>
      forall i | 0 <= i < |w.deliveries| ensures Agrees(base, w.(hooks := hooks), i) {
        StillAgrees(base, w, w.(hooks := hooks), i);
      }
  }

  lemma {:induction false} RunKeeps(base: real, steps: seq<Step>)
    ensures Inv(base, Run(base, steps))
  {
    if steps != [] {
      RunKeeps(base, steps[..|steps| - 1]);
      ApplyKeeps(base, Run(base, steps[..|steps| - 1]), steps[|steps| - 1]);
    }
  }

  // ---------------------------------------------------------------- whole runs

  /** In every reachable state, a delivery has made attempts 1, 2, ... in order, once each, and no more
      than allowed; max_attempts bounds them exactly when it is at least 1. */
  lemma AttemptsBounded(base: real, steps: seq<Step>, i: nat)
    requires i < |Run(base, steps).deliveries|
    ensures var w := Run(base, steps);
            var made, max := AttemptsOf(w.posts, i), w.deliveries[i].hook.maxAttempts;
            && made == UpTo(|made|) && 1 <= |made| <= Allowed(w.deliveries[i].hook)
            && (|made| <= max <==> max >= 1)
  {
    RunKeeps(base, steps);
    assert Agrees(base, Run(base, steps), i);
  }

  /** In every reachable state, a delivery is scheduled for a retry exactly when its next attempt, or the
      timer for it, is outstanding; there is then just one such task; and a delivery without any is done. */
  lemma RetryIffOutstanding(base: real, steps: seq<Step>, i: nat)
    requires i < |Run(base, steps).deliveries|
    ensures StatusShows(Run(base, steps), i)
  {
    RunKeeps(base, steps);
    AgreementShows(base, Run(base, steps), i);
  }

  /** The status of a delivery tells what is outstanding for it. */
  ghost predicate StatusShows(w: World, i: nat)
    requires i < |w.deliveries|
  {
    var d := w.deliveries[i];
    && (d.status == RetryScheduled <==> exists t :: t in w.tasks && t.delivery == i && t.attempt > 1)
    && (d.status == Pending <==> exists t :: t in w.tasks && t.delivery == i && t.attempt == 1)
    && (forall t | t in w.tasks && t.delivery == i :: Only(w.tasks, t) && t.attempt == d.attempts + 1)
    && (d.status == Status.Failed ==> d.attempts == Allowed(d.hook))
  }

  lemma AgreementShows(base: real, w: World, i: nat)
    requires i < |w.deliveries| && Agrees(base, w, i)
    ensures StatusShows(w, i)
  {
    var d := w.deliveries[i];
    match d.status
    case Pending => assert Flight(i, 1) in w.tasks;
    case RetryScheduled =>
      assert Timer(i, d.attempts + 1, d.offset.value) in w.tasks || Flight(i, d.attempts + 1) in w.tasks;
    case _ =>
  }

  /** In every reachable state, the delay of a retry timer is the offset its row stores, at most 2000. */
  lemma TimerDelayStored(base: real, steps: seq<Step>, task: Task)
    requires task in Run(base, steps).tasks && task.Timer?
    ensures var w := Run(base, steps);
            task.delivery < |w.deliveries| && w.deliveries[task.delivery].offset == Some(task.delay)
            && task.delay <= 2000.0
  {
    RunKeeps(base, steps);
    assert Agrees(base, Run(base, steps), task.delivery);
  }

  predicate Done(d: Delivery)
  {
    d.status == Succeeded || d.status == Status.Failed
  }

  lemma {:induction false} DispatchAppends(w: World, hooks: seq<Hook>, event: Event)
    ensures DispatchTo(w, hooks, event).deliveries == w.deliveries + NewDeliveries(hooks, event)
    ensures forall i | 0 <= i < |w.deliveries| ::
              AttemptsOf(DispatchTo(w, hooks, event).posts, i) == AttemptsOf(w.posts, i)
  {
    if hooks != [] {
      var front := hooks[..|hooks| - 1];
      DispatchAppends(w, front, event);
      var before := DispatchTo(w, front, event);
      forall i | 0 <= i < |w.deliveries|
        ensures AttemptsOf(DispatchTo(w, hooks, event).posts, i) == AttemptsOf(w.posts, i)
      {
        AttemptsAppend(before.posts, (|before.deliveries|, 1), i);
      }
    }
  }

  lemma NewestDelivered(hooks: seq<Hook>, event: Event, before: seq<Delivery>, r: seq<Delivery>)
    requires hooks != []
    requires var front, hook := hooks[..|hooks| - 1], hooks[|hooks| - 1];
             && r == before + (if Wants(hook, event) then [NewDelivery(hook, event)] else [])
             && forall h | h in front && h.active && EventRail.Matches(h.filter, event) ::
                  exists d :: d in before && d.hook == h
    ensures forall h | h in hooks && h.active && EventRail.Matches(h.filter, event) :: exists d :: d in r && d.hook == h
  {
    var front, hook := hooks[..|hooks| - 1], hooks[|hooks| - 1];
    assert hooks == front + [hook];
    forall h | h in hooks && h.active && EventRail.Matches(h.filter, event) ensures exists d :: d in r && d.hook == h {
      if h in front {
        var d :| d in before && d.hook == h;
        assert d in r;
      } else {
        assert NewDelivery(hook, event) in r;
      }
    }
  }

  /** One new delivery per hook that wants the event, in the hooks' order. */
  function NewDeliveries(hooks: seq<Hook>, event: Event): (r: seq<Delivery>)
    ensures forall d | d in r ::
              d.event == event && d.hook in hooks && d.hook.active && EventRail.Matches(d.hook.filter, event)
              && d.attempts == 0 && d.status == Pending
    ensures forall h | h in hooks && h.active && EventRail.Matches(h.filter, event) :: exists d :: d in r && d.hook == h
  {
    if hooks == [] then []
    else
      var front, hook := hooks[..|hooks| - 1], hooks[|hooks| - 1];
      assert hooks == front + [hook];
      var before := NewDeliveries(front, event);
      var r := before + if Wants(hook, event) then [NewDelivery(hook, event)] else [];
      NewestDelivered(hooks, event, before, r);
      r
  }

  /** Deliveries are only created by emitting an event that some active webhook wants; the status events
      of deliveries, which are emitted without dispatching, create none. */
  lemma StatusEventsCreateNothing(base: real, w: World, step: Step)
    ensures var w' := Apply(base, w, step);
            && |w.deliveries| <= |w'.deliveries|
            && (|w'.deliveries| == |w.deliveries| <==>
                !step.Emitting? || forall h | h in w.hooks ::
                  var alias := EventRail.AliasOf(step.event, step.aliasPayload);
                  !Wants(h, step.event) && (alias.Some? ==> !Wants(h, alias.value)))
  {
    if step.Emitting? {
      var w1 := EmitOne(w, step.event, true);
      DispatchAppends(w.(log := w.log + [step.event]), w.hooks, step.event);
      HooksKept(w.(log := w.log + [step.event]), w.hooks, step.event);
      assert |NewDeliveries(w.hooks, step.event)| == 0 <==> forall h | h in w.hooks :: !Wants(h, step.event) by {
        NoneWanted(w.hooks, step.event);
      }
      var alias := EventRail.AliasOf(step.event, step.aliasPayload);
      if alias.Some? {
        DispatchAppends(w1.(log := w1.log + [alias.value]), w.hooks, alias.value);
        NoneWanted(w.hooks, alias.value);
      }
    }
  }

  lemma NoneWanted(hooks: seq<Hook>, event: Event)
    ensures NewDeliveries(hooks, event) == [] <==> forall h | h in hooks :: !Wants(h, event)
  {
    var r := NewDeliveries(hooks, event);
    if r != [] {
      assert r[0] in r;
    }
  }

  lemma {:induction false} HooksKept(w: World, hooks: seq<Hook>, event: Event)
    ensures DispatchTo(w, hooks, event).hooks == w.hooks
  {
    if hooks != [] {
      HooksKept(w, hooks[..|hooks| - 1], event);
    }
  }

  lemma EmitOneLeaves(w: World, event: Event, dispatch: bool, i: nat)
    requires i < |w.deliveries|
    ensures var w' := EmitOne(w, event, dispatch);
            i < |w'.deliveries| && w'.deliveries[i] == w.deliveries[i]
            && AttemptsOf(w'.posts, i) == AttemptsOf(w.posts, i)
  {
    var logged := w.(log := w.log + [event]);
    DispatchAppends(logged, logged.hooks, event);
  }

  lemma ApplyLeavesDone(base: real, w: World, step: Step, i: nat)
    requires Inv(base, w) && i < |w.deliveries| && Done(w.deliveries[i])
    ensures var w' := Apply(base, w, step);
            i < |w'.deliveries| && w'.deliveries[i] == w.deliveries[i]
            && AttemptsOf(w'.posts, i) == AttemptsOf(w.posts, i)
  {
    assert Agrees(base, w, i);
    match step
    case Emitting(event, aliasPayload) =>
      var alias := EventRail.AliasOf(event, aliasPayload);
      EmitOneLeaves(w, event, true, i);
      if alias.Some? {
        EmitOneLeaves(EmitOne(w, event, true), alias.value, true, i);
      }
    case Firing(task) => AttemptsAppend(w.posts, (task.delivery, task.attempt), i);
    case _ =>
  }

  /** Succeeded and failed are final: whatever happens later, the row stays as it is and no further
      attempt is made. */
  lemma {:induction false} DoneIsFinal(base: real, steps: seq<Step>, more: seq<Step>, i: nat)
    requires i < |Run(base, steps).deliveries| && Done(Run(base, steps).deliveries[i])
    ensures var w, w' := Run(base, steps), Run(base, steps + more);
            i < |w'.deliveries| && w'.deliveries[i] == w.deliveries[i]
            && AttemptsOf(w'.posts, i) == AttemptsOf(w.posts, i)
  {
    if more == [] {
      assert steps + more == steps;
    } else {
      var front := more[..|more| - 1];
      assert (steps + more)[..|steps + more| - 1] == steps + front;
      DoneIsFinal(base, steps, front, i);
      RunKeeps(base, steps + front);
      ApplyLeavesDone(base, Run(base, steps + front), more[|more| - 1], i);
    }
  }

  // ---------------------------------------------------------------- the platform's methods

  lemma DispatchMeans(base: real, w: World, event: Event)
    ensures Inv(base, w) ==> Inv(base, Dispatch(w, event))
    ensures Dispatch(w, event).deliveries == w.deliveries + NewDeliveries(w.hooks, event)
  {
    if Inv(base, w) {
      DispatchKeeps(base, w, w.hooks, event);
    }
    DispatchAppends(w, w.hooks, event);
  }

  /** A delivery's status events have no alias. */
  lemma StatusEventsHaveNoAlias(d: Delivery, ok: bool)
    ensures EventRail.AliasOf(StatusEvent(d, ok), Null) == None
  {
    assert |DELIVERY_SUCCEEDED| == 26 && |DELIVERY_FAILED| == 23;
    assert |EventRail.KEY_ROTATED| == 20 && |EventRail.ALERTED| == 15;
  }

  /** A timer that fires makes the next attempt that its delivery allows, after the stored delay. */
  lemma TimerStarts(base: real, w: World, task: Task)
    requires Inv(base, w) && task in w.tasks && task.Timer?
    ensures task.delivery < |w.deliveries|
    ensures var d, w' := w.deliveries[task.delivery], Fire(w, task);
            && d.offset == Some(task.delay) && 1 < task.attempt == d.attempts + 1 <= d.hook.maxAttempts
            && AttemptsOf(w'.posts, task.delivery) == UpTo(task.attempt)
            && Only(w'.tasks, Flight(task.delivery, task.attempt))
  {
    assert Agrees(base, w, task.delivery);
    AttemptsAppend(w.posts, (task.delivery, task.attempt), task.delivery);
    assert UpTo(task.attempt) == UpTo(task.attempt - 1) + [task.attempt];
  }

  /** The base delay, doubled n times. */
  function Doubled(base: real, n: nat): real
  {
    if n == 0 then base else 2.0 * Doubled(base, n - 1)
  }

  /** A wait of the base delay doubled with every attempt made, and of 2000 at most. */
  predicate Waits(base: real, attempt: int, delay: real)
  {
    var full := Doubled(base, if attempt < 0 then 0 else attempt);
    delay == if full > 2000.0 then 2000.0 else full
  }

  lemma {:induction false} DoubledIs(base: real, n: nat)
    ensures base * Pow2(n) == Doubled(base, n)
  {
    if n > 0 {
      DoubledIs(base, n - 1);
    }
  }

  lemma BackoffWaits(base: real, attempt: int)
    ensures Waits(base, attempt, Backoff(base, attempt))
  {
    DoubledIs(base, if attempt < 0 then 0 else attempt);
  }

  /** How a delivery stands after an answer: succeeded, or failed when no attempt is left, or else waiting
      for the timer of the next attempt; the others stand as before, and the outcome is announced about the subject
      of the event under its own type. */
  ghost predicate Settles(base: real, before: World, after: World, i: nat, attempt: int, ok: bool)
    requires i < |before.deliveries|
  {
    && |after.deliveries| == |before.deliveries| && after.posts == before.posts
    && (forall k | 0 <= k < |before.deliveries| && k != i :: after.deliveries[k] == before.deliveries[k])
    && var d := after.deliveries[i];
       && d.attempts == attempt && d.hook == before.deliveries[i].hook && d.event == before.deliveries[i].event
       && (d.status == Succeeded <==> ok)
       && (d.status == Status.Failed <==> !ok && attempt >= d.hook.maxAttempts)
       && (d.status == RetryScheduled <==> exists t :: t in after.tasks && t.delivery == i)
       && (d.status == RetryScheduled ==>
             d.offset.Some? && Waits(base, attempt, d.offset.value)
             && Timer(i, attempt + 1, d.offset.value) in after.tasks)
       && |after.log| == |before.log| + 1 && after.log[..|before.log|] == before.log
       && after.log[|before.log|].eventType == (if ok then DELIVERY_SUCCEEDED else DELIVERY_FAILED)
       && after.log[|before.log|].subject == d.event.subject
  }

  lemma AnswerSettles(base: real, w: World, task: Task, ok: bool)
    requires Inv(base, w) && task in w.tasks && task.Flight?
    ensures task.delivery < |w.deliveries|
    ensures var w' := Complete(base, w, task, ok);
            Inv(base, w') && Settles(base, w, w', task.delivery, task.attempt, ok)
  {
    CompleteKeeps(base, w, task, ok);
    assert Agrees(base, w, task.delivery);
    BackoffWaits(base, task.attempt);
  }

  class WebhookRail {
    const webhookRetryBaseMs: real
    var hooks: seq<Hook>
    var log: seq<Event>
    var deliveries: seq<Delivery>
    var tasks: multiset<Task>
    var posts: seq<(nat, int)>

    /** Rows, tasks and requests are in a state that every reachable one satisfies. */
    ghost predicate Valid()
      reads this
    {
      Inv(webhookRetryBaseMs, Contents())
    }

    constructor (webhookRetryBaseMs: real)
      ensures Valid()
      ensures this.webhookRetryBaseMs == webhookRetryBaseMs && Contents() == QUIET
    {
      this.webhookRetryBaseMs := webhookRetryBaseMs;
      hooks, log, deliveries, tasks, posts := [], [], [], multiset{}, [];
    }

    function Contents(): World
      reads this
    {
      World(hooks, log, deliveries, tasks, posts)
    }

    /** The loop over the active webhooks. */
    method DispatchWebhooks(event: Event)
      modifies this
      ensures old(Valid()) ==> Valid()
      ensures Contents() == Dispatch(old(Contents()), event)
      ensures deliveries == old(deliveries) + NewDeliveries(old(hooks), event)
    {
      DispatchMeans(webhookRetryBaseMs, Contents(), event);
      var listed := hooks;
      var k := 0;
      while k < |listed|
        invariant 0 <= k <= |listed|
        invariant Contents() == DispatchTo(old(Contents()), listed[..k], event)
      {
        assert listed[..k + 1][..k] == listed[..k];
        var hook := listed[k];
        if hook.active && EventRail.Matches(hook.filter, event) {
          var i := |deliveries|;
          deliveries := deliveries + [NewDelivery(hook, event)];
          StartAttempt(i, 1);
        }
        k := k + 1;
      }
      assert listed[..k] == listed;
    }

    /** The start of deliverWebhook: the request goes out. */
    method StartAttempt(i: nat, attempt: int)
      modifies this`tasks, this`posts
      ensures tasks == old(tasks) + multiset{Flight(i, attempt)} && posts == old(posts) + [(i, attempt)]
    {
      tasks := tasks + multiset{Flight(i, attempt)};
      posts := posts + [(i, attempt)];
    }

    /** The webhook side of emitEvent. */
    method EmitEvent(event: Event, aliasPayload: Json, dispatchWebhooks: bool)
      modifies this
      ensures old(Valid()) ==> Valid()
      ensures Contents() == Emit(old(Contents()), event, EventRail.AliasOf(event, aliasPayload), dispatchWebhooks)
    {
      var alias := EventRail.AliasOf(event, aliasPayload);
      if Inv(webhookRetryBaseMs, Contents()) {
        EmitKeeps(webhookRetryBaseMs, Contents(), event, alias, dispatchWebhooks);
      }
      log := log + [event];
      if dispatchWebhooks {
        DispatchWebhooks(event);
      }
      if alias.Some? {
        log := log + [alias.value];
        if dispatchWebhooks {
          DispatchWebhooks(alias.value);
        }
      }
    }

    /** The rest of deliverWebhook, when the request is answered. */
    method FinishAttempt(i: nat, attempt: int, ok: bool)
      requires Valid() && Flight(i, attempt) in tasks
      modifies this
      ensures Valid()
      ensures Contents() == Complete(webhookRetryBaseMs, old(Contents()), Flight(i, attempt), ok)
      ensures Settles(webhookRetryBaseMs, old(Contents()), Contents(), i, attempt, ok)
    {
      AnswerSettles(webhookRetryBaseMs, Contents(), Flight(i, attempt), ok);
      RecordAnswer(i, attempt, ok);
    }

    /** The row, the status event and the timer that follow an answer. */
    method RecordAnswer(i: nat, attempt: int, ok: bool)
      requires Flight(i, attempt) in tasks && i < |deliveries|
      modifies this
      ensures Contents() == Complete(webhookRetryBaseMs, old(Contents()), Flight(i, attempt), ok)
    {
      StatusEventsHaveNoAlias(deliveries[i], ok);
      tasks := tasks - multiset{Flight(i, attempt)};
      var d := deliveries[i];
      if ok {
        deliveries := deliveries[i := d.(attempts := attempt, status := Succeeded, offset := None)];
        EmitEvent(StatusEvent(d, true), Null, false);
      } else {
        var shouldRetry := attempt < d.hook.maxAttempts;
        var status := if shouldRetry then RetryScheduled else Status.Failed;
        var offset := if shouldRetry then Some(Backoff(webhookRetryBaseMs, attempt)) else None;
        deliveries := deliveries[i := d.(attempts := attempt, status := status, offset := offset)];
        EmitEvent(StatusEvent(d, false), Null, false);
        if shouldRetry {
          ScheduleWebhookRetry(i, attempt + 1);
        }
      }
    }

    method ScheduleWebhookRetry(i: nat, nextAttempt: int)
      modifies this`tasks
      ensures tasks == old(tasks) + multiset{RetryTimer(webhookRetryBaseMs, i, nextAttempt)}
    {
      tasks := tasks + multiset{Timer(i, nextAttempt, Backoff(webhookRetryBaseMs, nextAttempt - 1))};
    }

    /** The callback of a retry timer. */
    method TimerFires(i: nat, attempt: int, delay: real)
      requires Valid() && Timer(i, attempt, delay) in tasks
      modifies this
      ensures Valid()
      ensures Contents() == Fire(old(Contents()), Timer(i, attempt, delay))
      ensures deliveries == old(deliveries) && i < |deliveries|
      ensures deliveries[i].offset == Some(delay)
              && 1 < attempt == deliveries[i].attempts + 1 <= deliveries[i].hook.maxAttempts
      ensures AttemptsOf(posts, i) == UpTo(attempt) && Only(tasks, Flight(i, attempt))
    {
      FireKeeps(webhookRetryBaseMs, Contents(), Timer(i, attempt, delay));
      TimerStarts(webhookRetryBaseMs, Contents(), Timer(i, attempt, delay));
      tasks := tasks - multiset{Timer(i, attempt, delay)};
      StartAttempt(i, attempt);
    }
  }
}
