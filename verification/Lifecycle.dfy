/** Stopping and reloading the daemon over its control socket. A request task reserves the one action
    there can be, tells its client, and delivers the action however it ends; the endpoint may fail and
    come back at any time. */
module Lifecycle {
  import opened Wrappers

  const PROTOCOL_VERSION: nat := 1
  const REBIND_RETRY_MIN_BACKOFF: int := 50
  const REBIND_RETRY_MAX_BACKOFF: int := 30_000

  datatype Action = Stop | Reload

  datatype Request = Status | Lifecycle(action: Action)

  datatype Message = Message(protocolVersion: nat, request: Request)

  datatype Response =
    | StatusReport
    | Acknowledged(action: Action)
    | AlreadyRequested(pending: Action)
    | Rejected

  /** How a request task ends. */
  datatype End = Done | WriteFailed | Cancelled

  /** What a delivery that is emptied puts into the channel. */
  function Flush(held: Option<Action>): seq<Action> {
    if held.Some? then [held.value] else []
  }

  // ----- The objects -----

  class LifecycleState {
    var pending: Option<Action>
    /** Actions sent and not yet received by the daemon. */
    var channel: seq<Action>

    constructor ()
      ensures pending == None && channel == []
    {
      pending, channel := None, [];
    }

    method Reserve(action: Action) returns (r: Result<LifecycleDelivery, Action>)
      modifies this`pending
      ensures old(pending).Some? ==> r == Err(old(pending).value) && pending == old(pending)
      ensures old(pending).None? ==> r.Ok? && pending == Some(action)
      ensures r.Ok? ==> fresh(r.value) && r.value.state == this && r.value.action == Some(action)
    {
      if pending.Some? {
        return Err(pending.value);
      }
      pending := Some(action);
      var delivery := new LifecycleDelivery(action, this);
      return Ok(delivery);
    }
  }

  class LifecycleDelivery {
    var action: Option<Action>
    const state: LifecycleState

    constructor (action: Action, state: LifecycleState)
      ensures this.action == Some(action) && this.state == state
    {
      this.action := Some(action);
      this.state := state;
    }

    /** Sends the action the first time, and nothing after that. */
    method Send()
      modifies this`action, state`channel
      ensures action == None
      ensures state.channel == old(state.channel) + Flush(old(action))
    {
      if action.Some? {
        state.channel := state.channel + Flush(action);
        action := None;
      }
    }

    /** The ordinary end: the action is sent, and then the delivery is dropped. */
    method Deliver()
      modifies this`action, state`channel
      ensures action == None
      ensures state.channel == old(state.channel) + Flush(old(action))
    {
      Send();
      Drop();
    }

    method Drop()
      modifies this`action, state`channel
      ensures action == None
      ensures state.channel == old(state.channel) + Flush(old(action))
    {
      Send();
    }
  }

  /** Writing a response may be cut short; what the client saw of it is then unknown. */
  method Write(response: Response) returns (seen: seq<Response>, end: End)
    ensures end == Done ==> seen == [response]
    ensures seen == [] || seen == [response]
  {
    end := *;
    var observed := *;
    seen := if end == Done || observed then [response] else [];
  }

  // ----- Every schedule -----

  /** A request task: reading its request, owning the delivery of what it reserved, which holds the action
      until it is sent, writing a refusal or any other answer, or over. */
  datatype Task =
    | Reading
    | Reserved(action: Action, held: Option<Action>)
    | Refusing(requested: Action, named: Action)
    | Answering
    | Over

  /** Acknowledgements and refusals are those a client has seen. */
  datatype World = World(
    up: bool, pending: Option<Action>, channel: seq<Action>, received: seq<Action>,
    acknowledgements: seq<Action>, refusals: seq<Action>, tasks: map<nat, Task>)

  datatype Event =
    | Connect(task: nat)
    | Read(task: nat, message: Option<Message>)
    | ClientSees(task: nat)
    | Deliver(task: nat)
    | Finish(task: nat)
    | EndpointFails
    | Rebind
    | Receive

  const START := World(true, None, [], [], [], [], map[])

  function TaskOf(w: World, t: nat): Task {
    if t in w.tasks then w.tasks[t] else Over
  }

  function WithTask(w: World, t: nat, task: Task): World {
    w.(tasks := w.tasks[t := task])
  }

  /** What reading a message makes of a task: the reservation is decided there and then. */
  function Decide(w: World, t: nat, message: Option<Message>): World {
    if message.None? || message.value.protocolVersion != PROTOCOL_VERSION || message.value.request.Status? then
      WithTask(w, t, Answering)
    else
      var action := message.value.request.action;
      match w.pending
      case Some(pending) => WithTask(w, t, Refusing(action, pending))
      case None => WithTask(w.(pending := Some(action)), t, Reserved(action, Some(action)))
  }

  function Flushed(w: World, held: Option<Action>): World {
    w.(channel := w.channel + Flush(held))
  }

  /** One event. A task that has written its acknowledgement delivers; whatever way a task ends, its delivery
      is dropped, which sends what it still holds. A failing endpoint cancels its tasks, but each of them only
      ends when its turn comes, and may get further before that. */
  function Step(w: World, e: Event): World {
    match e
    case Connect(t) => if w.up && t !in w.tasks then WithTask(w, t, Reading) else w
    case Read(t, message) => if TaskOf(w, t).Reading? then Decide(w, t, message) else w
    case ClientSees(t) => (
      match TaskOf(w, t)
      case Reserved(action, _) => w.(acknowledgements := w.acknowledgements + [action])
      case Refusing(_, named) => w.(refusals := w.refusals + [named])
      case _ => w)
    case Deliver(t) => (
      match TaskOf(w, t)
      case Reserved(action, held) => WithTask(Flushed(w, held), t, Reserved(action, None))
      case _ => w)
    case Finish(t) => (
      match TaskOf(w, t)
      case Reserved(_, held) => WithTask(Flushed(w, held), t, Over)
      case Over => w
      case _ => WithTask(w, t, Over))
    case EndpointFails => w.(up := false)
    case Rebind => w.(up := true)
    case Receive =>
      if w.channel == [] then w else w.(channel := w.channel[1..], received := w.received + [w.channel[0]])
  }

  function Run(w: World, events: seq<Event>): World {
    if events == [] then w else Step(Run(w, events[..|events| - 1]), events[|events| - 1])
  }

  function Sent(w: World): seq<Action> {
    w.received + w.channel
  }

  /** The task still has to send what it reserved. */
  predicate Holds(w: World, t: nat) {
    TaskOf(w, t).Reserved? && TaskOf(w, t).held.Some?
  }

  /** Either nothing was reserved, or one task's delivery holds the reserved action unsent, or it was sent
      once and no delivery holds anything. */
  ghost predicate Committed(w: World) {
    match w.pending
    case None => Sent(w) == [] && (forall t | t in w.tasks :: !w.tasks[t].Reserved?) && AllAre(w, None)
    case Some(action) =>
      && AllAre(w, w.pending)
      && (|| (Sent(w) == [] && HeldOnce(w, action))
          || (Sent(w) == [action] && forall t | t in w.tasks :: !Holds(w, t)))
  }

  ghost predicate HeldOnce(w: World, action: Action) {
    exists t :: HeldBy(w, action, t)
  }

  ghost predicate HeldBy(w: World, action: Action, t: nat) {
    && t in w.tasks && w.tasks[t] == Reserved(action, Some(action))
    && forall u | u in w.tasks :: w.tasks[u].Reserved? ==> u == t
  }

  lemma HeldStays(w: World, w': World)
    requires w'.pending == w.pending
    requires forall t :: TaskOf(w, t).Reserved? || TaskOf(w', t).Reserved? ==> TaskOf(w', t) == TaskOf(w, t)
    ensures w.pending.Some? && HeldOnce(w, w.pending.value) ==> HeldOnce(w', w.pending.value)
  {
    if w.pending.Some? && HeldOnce(w, w.pending.value) {
      var t :| HeldBy(w, w.pending.value, t);
      assert TaskOf(w, t).Reserved? && TaskOf(w', t) == TaskOf(w, t);
      forall u | u in w'.tasks && w'.tasks[u].Reserved? ensures u == t {
        assert TaskOf(w', u).Reserved? && TaskOf(w', u) == TaskOf(w, u);
      }
      assert HeldBy(w', w.pending.value, t);
    }
  }

  /** Whatever a client was told names the pending action. */
  ghost predicate AllAre(w: World, pending: Option<Action>) {
    && (forall a | a in w.acknowledgements :: pending == Some(a))
    && (forall a | a in w.refusals :: pending == Some(a))
    && (forall t | t in w.tasks && w.tasks[t].Refusing? :: pending == Some(w.tasks[t].named))
    && (forall t | t in w.tasks && w.tasks[t].Reserved? :: pending == Some(w.tasks[t].action))
  }

  lemma StepCommitted(w: World, e: Event)
    requires Committed(w)
    ensures Committed(Step(w, e))
    ensures w.pending.Some? ==> Step(w, e).pending == w.pending
  {
    hide Committed;
    match e
    case Read(t, message) => ReadCommitted(w, t, message);
    case Deliver(t) => SendCommitted(w, t, e);
    case Finish(t) => SendCommitted(w, t, e);
    case ClientSees(t) => SeenCommitted(w, t);
    case Receive => ReceiveCommitted(w);
    case _ => QuietCommitted(w, e);
  }

  lemma SeenCommitted(w: World, t: nat)
    requires Committed(w)
    ensures Committed(Step(w, ClientSees(t))) && Step(w, ClientSees(t)).pending == w.pending
  {
    HeldStays(w, Step(w, ClientSees(t)));
  }

  lemma QuietCommitted(w: World, e: Event)
    requires Committed(w) && (e.Connect? || e.EndpointFails? || e.Rebind?)
    ensures Committed(Step(w, e)) && Step(w, e).pending == w.pending
  {
    HeldStays(w, Step(w, e));
  }

  /** What the daemon takes from the channel has still been sent. */
  lemma ReceiveCommitted(w: World)
    requires Committed(w)
    ensures Committed(Step(w, Receive)) && Step(w, Receive).pending == w.pending
  {
    HeldStays(w, Step(w, Receive));
    assert w.channel != [] ==> w.channel == [w.channel[0]] + w.channel[1..];
    assert Sent(Step(w, Receive)) == Sent(w);
  }

  lemma ReadCommitted(w: World, t: nat, message: Option<Message>)
    requires Committed(w)
    ensures Committed(Step(w, Read(t, message)))
    ensures w.pending.Some? ==> Step(w, Read(t, message)).pending == w.pending
  {
    var w' := Step(w, Read(t, message));
    if TaskOf(w, t).Reading? {
      if w.pending.Some? || w'.pending.None? {
        HeldStays(w, w');
      } else {
        assert HeldBy(w', w'.pending.value, t);
      }
    }
  }

  /** Emptying the delivery of the reserving task, by sending or by dropping it, leaves the action sent. */
  lemma SendCommitted(w: World, t: nat, e: Event)
    requires Committed(w) && (e == Deliver(t) || e == Finish(t))
    ensures Committed(Step(w, e)) && Step(w, e).pending == w.pending
    ensures TaskOf(w, t).Reserved? ==> Sent(Step(w, e)) == [TaskOf(w, t).action]
  {
    if Holds(w, t) {
      FirstSend(w, t, e);
    } else if TaskOf(w, t).Reserved? {
      SecondSend(w, t, e);
    } else {
      HeldStays(w, Step(w, e));
    }
  }

  lemma FirstSend(w: World, t: nat, e: Event)
    requires Committed(w) && (e == Deliver(t) || e == Finish(t)) && Holds(w, t)
    ensures Committed(Step(w, e)) && Step(w, e).pending == w.pending
    ensures Sent(Step(w, e)) == [TaskOf(w, t).action]
  {
    var w' := Step(w, e);
    assert w.pending.Some? && Sent(w) == [];
    assert forall u | u in w'.tasks :: !Holds(w', u);
    assert w.received == [] && w.channel == [];
  }

  lemma SecondSend(w: World, t: nat, e: Event)
    requires Committed(w) && (e == Deliver(t) || e == Finish(t)) && TaskOf(w, t).Reserved? && !Holds(w, t)
    ensures Committed(Step(w, e)) && Step(w, e).pending == w.pending
    ensures Sent(Step(w, e)) == [TaskOf(w, t).action]
  {
    assert !HeldOnce(w, w.pending.value);
    assert Sent(Step(w, e)) == Sent(w);
  }

  lemma {:induction false} RunCommitted(events: seq<Event>)
    ensures Committed(Run(START, events))
  {
    if events != [] {
      RunCommitted(events[..|events| - 1]);
      StepCommitted(Run(START, events[..|events| - 1]), events[|events| - 1]);
    }
  }

  lemma {:induction false} RunFurther(w: World, first: seq<Event>, second: seq<Event>)
    ensures Run(w, first + second) == Run(Run(w, first), second)
  {
    if second == [] {
      assert first + second == first;
    } else {
      RunFurther(w, first, second[..|second| - 1]);
      assert (first + second)[..|first + second| - 1] == first + second[..|second| - 1];
    }
  }

  /** Over every schedule: at most one action is ever sent; what a client was told names it; and unless
      the task that reserved it is still running, it has been sent. */
  lemma ActionAtMostOnce(events: seq<Event>)
    ensures var w := Run(START, events);
            && |Sent(w)| <= 1
            && (forall a | a in w.acknowledgements || a in w.refusals || a in Sent(w) :: w.pending == Some(a))
            && (w.pending.Some? ==> Sent(w) == [w.pending.value] || (Sent(w) == [] && HeldOnce(w, w.pending.value)))
            && (w.pending.None? ==> Sent(w) == [])
  {
    RunCommitted(events);
  }

  /** The moment the reserving task ends, in whatever way and however far it got, its action has been sent
      once. */
  lemma SentWhenTheTaskEnds(events: seq<Event>, t: nat)
    requires TaskOf(Run(START, events), t).Reserved?
    ensures Sent(Run(START, events + [Finish(t)])) == [TaskOf(Run(START, events), t).action]
    ensures TaskOf(Run(START, events + [Finish(t)]), t) == Over
  {
    RunCommitted(events);
    assert (events + [Finish(t)])[..|events + [Finish(t)]| - 1] == events;
    SendCommitted(Run(START, events), t, Finish(t));
  }

  lemma {:induction false} PendingStays(w: World, events: seq<Event>)
    requires Committed(w) && w.pending.Some?
    ensures Committed(Run(w, events)) && Run(w, events).pending == w.pending
  {
    if events != [] {
      PendingStays(w, events[..|events| - 1]);
      StepCommitted(Run(w, events[..|events| - 1]), events[|events| - 1]);
    }
  }

  /** An acknowledged action reaches the daemon exactly once: whatever happens afterwards, as soon as no
      task holds the reservation and the channel has been emptied, it is all that was ever received. */
  lemma AcknowledgedExactlyOnce(events: seq<Event>, more: seq<Event>, action: Action)
    requires action in Run(START, events).acknowledgements
    ensures var w := Run(START, events + more);
            (forall t | t in w.tasks :: !Holds(w, t)) && w.channel == [] ==> w.received == [action]
  {
    RunCommitted(events);
    RunFurther(START, events, more);
    PendingStays(Run(START, events), more);
  }

  /** After one action was reserved, every later stop or reload is refused, and the refusal names it. */
  lemma LaterRequestsAreRefused(events: seq<Event>, more: seq<Event>, t: nat, action: Action)
    requires Run(START, events).pending.Some? && TaskOf(Run(START, events + more), t).Reading?
    ensures var pending := Run(START, events).pending.value;
            var request := Read(t, Some(Message(PROTOCOL_VERSION, Request.Lifecycle(action))));
            TaskOf(Run(START, (events + more) + [request]), t) == Refusing(action, pending)
  {
    RunCommitted(events);
    RunFurther(START, events, more);
    PendingStays(Run(START, events), more);
    var request := Read(t, Some(Message(PROTOCOL_VERSION, Request.Lifecycle(action))));
    var all := (events + more) + [request];
    assert all[..|all| - 1] == events + more;
  }

  // ----- A request is a schedule of these events -----

  /** The reservation and the channel are as in the state machine. */
  ghost predicate Matches(state: LifecycleState, w: World)
    reads state
  {
    state.pending == w.pending && state.channel == w.channel
  }

  lemma RunOne(w: World, events: seq<Event>, e: Event)
    ensures Run(w, events + [e]) == Step(Run(w, events), e)
  {
    assert (events + [e])[..|events + [e]| - 1] == events;
  }

  /** The one response to a message: a status for a status request, an acknowledgement or a refusal that names the
      pending action for stop and reload, and a rejection for anything that cannot be read. */
  ghost predicate IsResponse(message: Option<Message>, pending: Option<Action>, response: Response) {
    if message.None? || message.value.protocolVersion != PROTOCOL_VERSION then response == Rejected
    else
      match message.value.request
      case Status => response == StatusReport
      case Lifecycle(action) =>
        if pending.Some? then response == AlreadyRequested(pending.value) else response == Acknowledged(action)
  }

  /** The events of a stop or reload request once it has been read. */
  method HandleLifecycle(state: LifecycleState, action: Action, ghost w: World, ghost t: nat)
    returns (seen: seq<Response>, end: End, ghost events: seq<Event>)
    requires Matches(state, w) && TaskOf(w, t) == Reading
    modifies state
    ensures old(state.pending).None? ==>
              state.pending == Some(action) && state.channel == old(state.channel) + [action]
    ensures old(state.pending).Some? ==>
              state.pending == old(state.pending) && state.channel == old(state.channel)
    ensures |seen| <= 1 && (end == Done ==> |seen| == 1)
    ensures forall response | response in seen ::
              response == if old(state.pending).None? then Acknowledged(action)
                          else AlreadyRequested(old(state.pending).value)
    ensures var read := Decide(w, t, Some(Message(PROTOCOL_VERSION, Request.Lifecycle(action))));
            Matches(state, Run(read, events)) && TaskOf(Run(read, events), t) == Over
            && Told(w, Run(read, events), seen)
  {
    hide Run, Decide;
    var delivery := state.Reserve(action);
    match delivery {
      case Err(pending) =>
        seen, end := Write(AlreadyRequested(pending));
        events := AnswerEvents(t, seen != [], false);
        RefusedRun(w, t, action, seen != []);
      case Ok(held) =>
        seen, end := Write(Acknowledged(action));
        if end == Done {
          held.Deliver();
        } else {
          held.Drop();
        }
        events := AnswerEvents(t, seen != [], end == Done);
        AcceptedRun(w, t, action, seen != [], end == Done);
    }
  }

  /** A response its client may have seen, the delivery if it was written, and the end. */
  ghost function AnswerEvents(t: nat, seen: bool, delivered: bool): seq<Event> {
    (if seen then [ClientSees(t)] else []) + (if delivered then [Deliver(t)] else []) + [Finish(t)]
  }

  lemma AnswerRun(w: World, t: nat, seen: bool, delivered: bool)
    ensures var w1 := if seen then Step(w, ClientSees(t)) else w;
            var w2 := if delivered then Step(w1, Deliver(t)) else w1;
            Run(w, AnswerEvents(t, seen, delivered)) == Step(w2, Finish(t))
  {
    hide Step;
    var first := if seen then [ClientSees(t)] else [];
    var second := if delivered then [Deliver(t)] else [];
    RunOne(w, [], ClientSees(t));
    assert [] + [ClientSees(t)] == [ClientSees(t)];
    RunOne(w, first, Deliver(t));
    assert first + [] == first;
    RunOne(w, first + second, Finish(t));
  }

  lemma RefusedRun(w: World, t: nat, action: Action, seen: bool)
    requires TaskOf(w, t) == Reading && w.pending.Some?
    ensures var read := Decide(w, t, Some(Message(PROTOCOL_VERSION, Request.Lifecycle(action))));
            var w' := Run(read, AnswerEvents(t, seen, false));
            && w'.pending == w.pending && w'.channel == w.channel && TaskOf(w', t) == Over
            && w'.acknowledgements == w.acknowledgements
            && w'.refusals == w.refusals + (if seen then [w.pending.value] else [])
  {
    hide Run;
    AnswerRun(Decide(w, t, Some(Message(PROTOCOL_VERSION, Request.Lifecycle(action)))), t, seen, false);
  }

  lemma AcceptedRun(w: World, t: nat, action: Action, seen: bool, delivered: bool)
    requires TaskOf(w, t) == Reading && w.pending.None?
    ensures var read := Decide(w, t, Some(Message(PROTOCOL_VERSION, Request.Lifecycle(action))));
            var w' := Run(read, AnswerEvents(t, seen, delivered));
            && w'.pending == Some(action) && w'.channel == w.channel + [action] && TaskOf(w', t) == Over
            && w'.acknowledgements == w.acknowledgements + (if seen then [action] else [])
            && w'.refusals == w.refusals
  {
    hide Run;
    AnswerRun(Decide(w, t, Some(Message(PROTOCOL_VERSION, Request.Lifecycle(action)))), t, seen, delivered);
  }

  /** One request. However it ends, the action is sent once if this request reserved it, and not at all
      if it did not. What it does to the reservation and to the channel, and what its client is told, is what
      a schedule of its events does in the state machine. */
  method HandleRequest(state: LifecycleState, message: Option<Message>, ghost w: World, ghost t: nat)
    returns (seen: seq<Response>, end: End, ghost events: seq<Event>)
    requires Matches(state, w) && TaskOf(w, t) == Reading
    modifies state
    ensures message.Some? && message.value.protocolVersion == PROTOCOL_VERSION && message.value.request.Lifecycle?
            && old(state.pending).None? ==>
              var action := message.value.request.action;
              state.pending == Some(action) && state.channel == old(state.channel) + [action]
    ensures message.Some? && message.value.protocolVersion == PROTOCOL_VERSION && message.value.request.Lifecycle?
            && old(state.pending).Some? ==>
              state.pending == old(state.pending) && state.channel == old(state.channel)
    ensures message.None? || message.value.protocolVersion != PROTOCOL_VERSION || message.value.request.Status? ==>
              state.pending == old(state.pending) && state.channel == old(state.channel)
    ensures |seen| <= 1 && (end == Done ==> |seen| == 1)
    ensures forall response | response in seen :: IsResponse(message, old(state.pending), response)
    ensures events != [] && events[0] == Read(t, message) && Matches(state, Run(w, events))
    ensures TaskOf(Run(w, events), t) == Over && Told(w, Run(w, events), seen)
  {
    events := [Read(t, message)];
    RunOne(w, [], Read(t, message));
    assert [] + [Read(t, message)] == events;
    ghost var read := Run(w, events);
    if message.None? || message.value.protocolVersion != PROTOCOL_VERSION {
      seen, end := Write(Rejected);
      RunOne(w, events, Finish(t));
      events := events + [Finish(t)];
      return;
    }
    match message.value.request {
      case Status =>
        seen, end := Write(StatusReport);
        RunOne(w, events, Finish(t));
        events := events + [Finish(t)];
      case Lifecycle(action) =>
        ghost var more;
        seen, end, more := HandleLifecycle(state, action, w, t);
        RunFurther(w, events, more);
        events := events + more;
    }
  }

  /** What the client of a request was told is what the state machine notes. */
  ghost predicate Told(w: World, w': World, seen: seq<Response>) {
    && (forall a :: Acknowledged(a) in seen ==> w'.acknowledgements == w.acknowledgements + [a])
    && (forall a :: AlreadyRequested(a) in seen ==> w'.refusals == w.refusals + [a])
    && ((forall a :: Acknowledged(a) !in seen) ==> w'.acknowledgements == w.acknowledgements)
    && ((forall a :: AlreadyRequested(a) !in seen) ==> w'.refusals == w.refusals)
  }

  // ----- The daemon's side -----

  /** What wakes the daemon while it waits for an action. */
  datatype Wake = Arrives(action: Action) | InstanceFails(at: int) | RetryTime(at: int, bound: bool)

  /** An endpoint that was bound, or not, is bound after these events: it did not fail, or it was bound again and
      did not fail since. */
  ghost predicate BoundAfter(bound: bool, events: seq<Wake>) {
    || (bound && forall w | w in events :: !w.InstanceFails?)
    || exists k :: 0 <= k < |events| && BoundLastAt(events, k)
  }

  ghost predicate BoundLastAt(events: seq<Wake>, k: nat)
    requires k < |events|
  {
    events[k].RetryTime? && events[k].bound && forall j | k < j < |events| :: !events[j].InstanceFails?
  }

  lemma BoundStep(bound: bool, events: seq<Wake>, w: Wake)
    ensures w.InstanceFails? ==> !BoundAfter(bound, events + [w])
    ensures w.RetryTime? && w.bound ==> BoundAfter(bound, events + [w])
    ensures !w.InstanceFails? && !(w.RetryTime? && w.bound)
            ==> (BoundAfter(bound, events + [w]) <==> BoundAfter(bound, events))
  {
    var more := events + [w];
    assert more[|events|] == w;
    if w.RetryTime? && w.bound {
      assert BoundLastAt(more, |events|);
    } else if !w.InstanceFails? {
      if k :| 0 <= k < |events| && BoundLastAt(events, k) {
        assert BoundLastAt(more, k);
      }
      if k :| 0 <= k < |more| && BoundLastAt(more, k) {
        assert BoundLastAt(events, k) by {
          forall j | k < j < |events| ensures !events[j].InstanceFails? {
            assert more[j] == events[j];
          }
        }
      }
    } else {
      assert w in more;
    }
  }

  function Least(a: int, b: int): int {
    if a <= b then a else b
  }

  function Doubled(k: nat): int {
    if k == 0 then REBIND_RETRY_MIN_BACKOFF else 2 * Doubled(k - 1)
  }

  lemma {:induction false} DoubledGrows(k: nat)
    ensures Doubled(k) >= REBIND_RETRY_MIN_BACKOFF
  {
    if k > 0 {
      DoubledGrows(k - 1);
    }
  }

  class ControlServer {
    /** Whether an endpoint is bound. */
    var instance: bool
    var retryAt: Option<int>
    var backoff: int
    /** Failures since the endpoint was last bound. */
    ghost var failures: nat

    constructor ()
      ensures Valid() && instance
    {
      instance, retryAt, backoff, failures := true, None, REBIND_RETRY_MIN_BACKOFF, 0;
    }

    /** The delay is the first one doubled with every failure, up to the longest. */
    ghost predicate Valid()
      reads this
    {
      && backoff == Least(Doubled(failures), REBIND_RETRY_MAX_BACKOFF)
      && (instance ==> failures == 0 && retryAt.None?)
      && (!instance ==> failures > 0 && retryAt.Some?)
    }

    method ScheduleRetry(now: int)
      requires backoff == Least(Doubled(failures), REBIND_RETRY_MAX_BACKOFF) && !instance
      modifies this`retryAt, this`backoff, this`failures
      ensures Valid() && failures == old(failures) + 1
      ensures retryAt == Some(now + Least(Doubled(old(failures)), REBIND_RETRY_MAX_BACKOFF))
    {
      DoubledGrows(failures);
      retryAt := Some(now + backoff);
      backoff := if backoff * 2 <= REBIND_RETRY_MAX_BACKOFF then backoff * 2 else REBIND_RETRY_MAX_BACKOFF;
      failures := failures + 1;
    }

    method RecordFailure(now: int)
      requires Valid() && instance
      modifies this
      ensures Valid() && !instance && failures == 1
      ensures retryAt == Some(now + REBIND_RETRY_MIN_BACKOFF)
    {
      instance := false;
      ScheduleRetry(now);
    }

    /** Waits for an action, whatever becomes of the endpoint meanwhile: gives the first that arrives. Failures of
        an endpoint that is not bound, and retry times while one is, cannot occur and are passed over. */
    method NextRequest(schedule: seq<Wake>) returns (r: Option<Action>, ghost waited: nat)
      requires Valid()
      modifies this
      ensures Valid() && waited <= |schedule| && forall j | 0 <= j < waited :: !schedule[j].Arrives?
      ensures match r
              case Some(action) => waited < |schedule| && schedule[waited] == Arrives(action)
              case None => waited == |schedule|
      ensures instance <==> BoundAfter(old(instance), schedule[..waited])
    {
      hide BoundAfter;
      waited := 0;
      assert BoundAfter(instance, schedule[..0]) <==> instance by {
        NoEvents(instance);
      }
      for i := 0 to |schedule|
        invariant Valid() && waited == i && forall j | 0 <= j < i :: !schedule[j].Arrives?
        invariant instance <==> BoundAfter(old(instance), schedule[..i])
      {
        BoundStep(old(instance), schedule[..i], schedule[i]);
        assert schedule[..i + 1] == schedule[..i] + [schedule[i]];
        match schedule[i] {
          case Arrives(action) =>
            return Some(action), waited;
          case InstanceFails(at) =>
            if instance {
              RecordFailure(at);
            }
          case RetryTime(at, bound) =>
            if !instance {
              if bound {
                instance, retryAt, backoff, failures := true, None, REBIND_RETRY_MIN_BACKOFF, 0;
              } else {
                ScheduleRetry(at);
              }
            }
        }
        waited := waited + 1;
      }
      return None, waited;
    }
  }

  lemma NoEvents(bound: bool)
    ensures BoundAfter(bound, []) <==> bound
  {
  }

  // ----- Requests during startup -----

  datatype StartupEvent<T> = Requested(action: Action) | Finished(result: T)

  /** Startup is never cancelled by a request; the first one made meanwhile decides how it exits. */
  method FinishStartup<T>(events: seq<StartupEvent<T>>) returns (r: Option<(T, Option<Action>)>)
    ensures r.None? <==> forall e | e in events :: e.Requested?
    ensures r.Some? ==>
              exists k :: 0 <= k < |events| && events[k] == Finished(r.value.0)
                && (forall j | 0 <= j < k :: events[j].Requested?)
                && r.value.1 == if k == 0 then None else Some(events[0].action)
  {
    var exit: Option<Action> := None;
    for i := 0 to |events|
      invariant forall j | 0 <= j < i :: events[j].Requested?
      invariant exit == if i == 0 then None else Some(events[0].action)
    {
      match events[i] {
        case Finished(result) =>
          assert events[i] in events;
          return Some((result, exit));
        case Requested(action) =>
          if exit.None? {
            exit := Some(action);
          }
      }
    }
    return None;
  }
}
