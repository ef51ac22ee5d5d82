/** Which version of the tmux server the current snapshot shows, when several processes capture and
    publish. The daemon and the command line capture under the mutation lock they publish under; a
    restore captures its target before it takes the lock, but what it commits never becomes current. */
module Publication {
  import opened Wrappers

  datatype Role = Saver | Restorer

  /** Where a process is. `seen` is the version of the server its capture shows. */
  datatype Actor =
    | Idle
    | Prepared(role: Role, seen: nat)
    | Locked(role: Role, captured: Option<nat>)
    | BodyWritten(role: Role, seen: nat)

  /** `published` is the version the current snapshot shows, `bodies` the versions with a stored body. */
  datatype World = World(
    version: nat, published: Option<nat>, bodies: set<nat>, holder: Option<nat>, actors: map<nat, Actor>)

  datatype Event =
    | ServerChanges
    | Prepare(actor: nat, role: Role)
    | Acquire(actor: nat, role: Role)
    | Capture(actor: nat)
    | WriteBody(actor: nat)
    | WritePointer(actor: nat)
    | Release(actor: nat)
    | Crash(actor: nat)

  function ActorOf(w: World, a: nat): Actor {
    if a in w.actors then w.actors[a] else Idle
  }

  function Leave(w: World, a: nat): World {
    w.(holder := if w.holder == Some(a) then None else w.holder, actors := w.actors[a := Idle])
  }

  /** One step; an event that is not possible just now does nothing. With `early` savers too may
      capture before they hold the lock. */
  function Step(w: World, e: Event, early: bool): World {
    match e
    case ServerChanges => w.(version := w.version + 1)
    case Prepare(a, role) =>
      if ActorOf(w, a).Idle? && (role == Restorer || early)
      then w.(actors := w.actors[a := Prepared(role, w.version)]) else w
    case Acquire(a, role) =>
      if w.holder.Some? then w
      else (
        match ActorOf(w, a)
        case Idle => w.(holder := Some(a), actors := w.actors[a := Locked(role, None)])
        case Prepared(prepared, seen) => w.(holder := Some(a), actors := w.actors[a := Locked(prepared, Some(seen))])
        case _ => w)
    case Capture(a) =>
      if ActorOf(w, a).Locked? && ActorOf(w, a).captured.None?
      then w.(actors := w.actors[a := Locked(ActorOf(w, a).role, Some(w.version))]) else w
    case WriteBody(a) =>
      if ActorOf(w, a).Locked? && ActorOf(w, a).captured.Some?
      then w.(bodies := w.bodies + {ActorOf(w, a).captured.value},
              actors := w.actors[a := BodyWritten(ActorOf(w, a).role, ActorOf(w, a).captured.value)])
      else w
    case WritePointer(a) =>
      if ActorOf(w, a).BodyWritten? && ActorOf(w, a).role == Saver
      then Leave(w.(published := Some(ActorOf(w, a).seen)), a) else w
    case Release(a) => if w.holder == Some(a) then Leave(w, a) else w
    case Crash(a) => Leave(w, a)
  }

  function Run(w: World, events: seq<Event>, early: bool): World {
    if events == [] then w
    else Step(Run(w, events[..|events| - 1], early), events[|events| - 1], early)
  }

  predicate AtMost(a: Option<nat>, v: nat) {
    a.Some? ==> a.value <= v
  }

  /** Nothing the lock holder could publish is older than what is published. */
  ghost predicate Orderly(w: World) {
    && AtMost(w.published, w.version)
    && (w.published.Some? ==> w.published.value in w.bodies)
    && (forall a | a in w.actors && (w.actors[a].Locked? || w.actors[a].BodyWritten?) :: w.holder == Some(a))
    && (forall a | a in w.actors && w.actors[a].Prepared? :: w.actors[a].role == Restorer)
    && (forall a | a in w.actors && w.actors[a].Locked? && w.actors[a].role == Saver && w.actors[a].captured.Some? ::
          AtMost(w.published, w.actors[a].captured.value) && w.actors[a].captured.value <= w.version)
    && (forall a | a in w.actors && w.actors[a].BodyWritten? && w.actors[a].role == Saver ::
          AtMost(w.published, w.actors[a].seen) && w.actors[a].seen <= w.version && w.actors[a].seen in w.bodies)
  }

  predicate NotOlder(a: Option<nat>, b: Option<nat>) {
    a.Some? ==> b.Some? && a.value <= b.value
  }

  lemma StepOrderly(w: World, e: Event)
    requires Orderly(w)
    ensures Orderly(Step(w, e, false)) && NotOlder(w.published, Step(w, e, false).published)
    ensures w.version <= Step(w, e, false).version
  {
  }

  ghost predicate Beginning(w: World) {
    w.holder.None? && w.actors == map[] && AtMost(w.published, w.version)
    && (w.published.Some? ==> w.published.value in w.bodies)
  }

  lemma {:induction false} RunOrderly(w: World, events: seq<Event>)
    requires Orderly(w)
    ensures Orderly(Run(w, events, false)) && NotOlder(w.published, Run(w, events, false).published)
  {
    hide Orderly;
    if events != [] {
      RunOrderly(w, events[..|events| - 1]);
      StepOrderly(Run(w, events[..|events| - 1], false), events[|events| - 1]);
    }
  }

  lemma {:induction false} RunFurther(w: World, first: seq<Event>, second: seq<Event>, early: bool)
    ensures Run(w, first + second, early) == Run(Run(w, first, early), second, early)
  {
    if second == [] {
      assert first + second == first;
    } else {
      var init := second[..|second| - 1];
      RunFurther(w, first, init, early);
      assert (first + second)[..|first + second| - 1] == first + init;
    }
  }

  /** Whatever the savers, the restores and their crashes do in whatever order: the current snapshot
      never shows an older version of the server than before, it has a body, and it is never newer
      than the server. */
  lemma CurrentNeverGoesBack(w: World, events: seq<Event>, more: seq<Event>)
    requires Beginning(w)
    ensures var now, later := Run(w, events, false), Run(w, events + more, false);
            && NotOlder(now.published, later.published)
            && (later.published.Some? ==>
                  later.published.value in later.bodies && later.published.value <= later.version)
  {
    RunOrderly(w, events);
    RunFurther(w, events, more, false);
    RunOrderly(Run(w, events, false), more);
  }

  lemma RunOne(w: World, events: seq<Event>, e: Event, early: bool)
    ensures Run(w, events + [e], early) == Step(Run(w, events, early), e, early)
  {
    assert (events + [e])[..|events + [e]| - 1] == events;
  }

  lemma RunThree(w: World, a: Event, b: Event, c: Event, early: bool)
    ensures Run(w, [a, b, c], early) == Step(Step(Step(w, a, early), b, early), c, early)
  {
    hide Step;
    RunOne(w, [], a, early);
    RunOne(w, [a], b, early);
    RunOne(w, [a, b], c, early);
    assert [] + [a] == [a] && [a] + [b] == [a, b] && [a, b] + [c] == [a, b, c];
  }

  lemma WaitingCapture(w: World)
    requires Beginning(w)
    ensures var w' := Run(w, [Prepare(0, Saver), ServerChanges, Acquire(1, Saver)], true);
            && w'.version == w.version + 1 && w'.holder == Some(1)
            && w'.actors == map[0 := Prepared(Saver, w.version), 1 := Locked(Saver, None)]
  {
    RunThree(w, Prepare(0, Saver), ServerChanges, Acquire(1, Saver), true);
  }

  lemma SaveUnderLock(w: World)
    requires w.holder == Some(1) && ActorOf(w, 1) == Locked(Saver, None)
    ensures var w' := Run(w, [Capture(1), WriteBody(1), WritePointer(1)], true);
            w'.published == Some(w.version) && w'.holder == None && ActorOf(w', 0) == ActorOf(w, 0)
  {
    RunThree(w, Capture(1), WriteBody(1), WritePointer(1), true);
  }

  lemma SaveWaiting(w: World, seen: nat)
    requires w.holder == None && ActorOf(w, 0) == Prepared(Saver, seen)
    ensures Run(w, [Acquire(0, Saver), WriteBody(0), WritePointer(0)], true).published == Some(seen)
  {
    RunThree(w, Acquire(0, Saver), WriteBody(0), WritePointer(0), true);
  }

  /** Captures before the lock would break it: a process that waits for the lock with an old capture
      then publishes over a newer one. */
  lemma EarlyCaptureGoesBack(w: World)
    requires Beginning(w)
    ensures exists events, more ::
              !NotOlder(Run(w, events, true).published, Run(w, events + more, true).published)
  {
    hide Step, Run;
    var a, b := [Prepare(0, Saver), ServerChanges, Acquire(1, Saver)], [Capture(1), WriteBody(1), WritePointer(1)];
    var c := [Acquire(0, Saver), WriteBody(0), WritePointer(0)];
    WaitingCapture(w);
    RunFurther(w, a, b, true);
    SaveUnderLock(Run(w, a, true));
    RunFurther(w, a + b, c, true);
    SaveWaiting(Run(w, a + b, true), w.version);
    assert !NotOlder(Run(w, a + b, true).published, Run(w, (a + b) + c, true).published);
  }
}
