/** What is checked before a restore touches the server, and the plan that comes of it. */
module Preflight {
  import opened Wrappers
  import opened Bytes
  import opened Layout
  import opened SnapshotGraph
  import opened RestoreIndexes
  import opened Rebuild
  import opened Retention
  import opened Snapshots
  import opened Restarts
  import opened Structure
  import opened TmuxServer
  import Transaction

  datatype StateError =
    | NoSessions
    | EmptyName
    | DuplicateName
    | NoWindows
    | NoPanes
    | NoLayout
    | DeadPane
    | BadLayout(layoutError: LayoutError)
    | GroupsDiffer

  ghost predicate SessionRestorable(s: Session) {
    s.name != "" && s.links != []
  }

  ghost predicate WindowRestorable(w: Window) {
    && w.panes != [] && w.layout != []
    && (forall p | p in w.panes :: !p.dead)
    && LayoutOk(w.layout, |w.panes|)
  }

  /** What a well-formed state has to be besides, to be rebuilt. */
  ghost predicate Restorable(state: State) {
    && state.sessions != []
    && Distinct(SessionNames(state.sessions))
    && (forall s | s in state.sessions :: SessionRestorable(s))
    && (forall w | w in state.windows :: WindowRestorable(w))
    && GroupsAgree(state.sessions)
  }

  /** What each error says about the state. */
  ghost predicate Says(state: State, error: StateError) {
    match error
    case NoSessions => state.sessions == []
    case EmptyName => exists s :: s in state.sessions && s.name == ""
    case DuplicateName => !Distinct(SessionNames(state.sessions))
    case NoWindows => exists s :: s in state.sessions && s.links == []
    case GroupsDiffer => !GroupsAgree(state.sessions)
    case _ => exists w :: w in state.windows && SaysOfWindow(w, error)
  }

  ghost predicate SaysOfWindow(w: Window, error: StateError) {
    match error
    case NoPanes => w.panes == []
    case NoLayout => w.layout == []
    case DeadPane => exists p :: p in w.panes && p.dead
    case BadLayout(_) => !LayoutOk(w.layout, |w.panes|)
    case _ => false
  }

  method ValidateWindow(w: Window) returns (r: Outcome<StateError>)
    ensures r.Pass? <==> WindowRestorable(w)
    ensures r.Fail? ==> SaysOfWindow(w, r.error)
    ensures r.Fail? ==> r.error.NoPanes? || r.error.NoLayout? || r.error.DeadPane? || r.error.BadLayout?
  {
    hide LayoutOk;
    if w.panes == [] {
      return Fail(NoPanes);
    }
    if w.layout == [] {
      return Fail(NoLayout);
    }
    for i := 0 to |w.panes|
      invariant forall j | 0 <= j < i :: !w.panes[j].dead
    {
      if w.panes[i].dead {
        assert w.panes[i] in w.panes;
        return Fail(DeadPane);
      }
    }
    var layout := ValidateLayout(w.layout, |w.panes|);
    if layout.Fail? {
      return Fail(BadLayout(layout.error));
    }
    return Pass;
  }

  method ValidateSessions(sessions: seq<Session>) returns (r: Outcome<StateError>)
    ensures r.Pass? <==> Distinct(SessionNames(sessions)) && forall s | s in sessions :: SessionRestorable(s)
    ensures r.Fail? ==> (r.error.EmptyName? || r.error.DuplicateName? || r.error.NoWindows?)
                        && forall state: State | state.sessions == sessions :: Says(state, r.error)
  {
    var seen: set<string> := {};
    ghost var names := SessionNames(sessions);
    for i := 0 to |sessions|
      invariant seen == Elements(names[..i]) && Distinct(names[..i])
      invariant forall j | 0 <= j < i :: SessionRestorable(sessions[j])
    {
      var s := sessions[i];
      assert names[..i + 1] == names[..i] + [s.name];
      if s.name == "" {
        assert !SessionRestorable(sessions[i]);
        return Fail(EmptyName);
      }
      if s.name in seen {
        assert !Distinct(names) by {
          var j :| 0 <= j < i && names[..i][j] == s.name;
          assert names[j] == names[i];
        }
        return Fail(DuplicateName);
      }
      DistinctAppend(names[..i], s.name);
      seen := seen + {s.name};
      if s.links == [] {
        assert !SessionRestorable(sessions[i]);
        return Fail(NoWindows);
      }
    }
    assert names[..|sessions|] == names;
    return Pass;
  }

  /** Every group's members link what its first member links. */
  method ValidateGroups(sessions: seq<Session>) returns (r: Outcome<StateError>)
    ensures r.Pass? <==> GroupsAgree(sessions)
    ensures r.Fail? ==> r.error == GroupsDiffer
  {
    var groups := SessionGroups(sessions);
    var rest := groups.Keys;
    while rest != {}
      invariant rest <= groups.Keys
      invariant forall g | g in groups && g !in rest :: GroupAgrees(groups[g])
      decreases |rest|
    {
      var g :| g in rest;
      var members := groups[g];
      for i := 1 to |members|
        invariant forall j | 0 <= j < i :: Elements(members[j].links) == Elements(members[0].links)
      {
        if Elements(members[i].links) != Elements(members[0].links) {
          GroupDiffers(sessions, g, i);
          return Fail(GroupsDiffer);
        }
      }
      rest := rest - {g};
    }
    AllGroupsAgree(sessions, groups);
    return Pass;
  }

  ghost predicate GroupAgrees(members: seq<Session>) {
    forall j | 0 <= j < |members| :: Elements(members[j].links) == Elements(members[0].links)
  }

  lemma GroupDiffers(sessions: seq<Session>, g: string, i: nat)
    requires i < |Members(sessions, g)|
    requires Elements(Members(sessions, g)[i].links) != Elements(Members(sessions, g)[0].links)
    ensures !GroupsAgree(sessions)
  {
    MembersAre(sessions, g);
    var s := Members(sessions, g)[i];
    assert s in Members(sessions, g);
    assert Leader(sessions, s) == Members(sessions, g)[0];
  }

  lemma AllGroupsAgree(sessions: seq<Session>, groups: map<string, seq<Session>>)
    requires forall g :: g in groups <==> Members(sessions, g) != []
    requires forall g | g in groups :: groups[g] == Members(sessions, g) && GroupAgrees(groups[g])
    ensures GroupsAgree(sessions)
  {
    forall s | s in sessions ensures Elements(s.links) == Elements(Leader(sessions, s).links) {
      if s.group.Some? {
        MembersAre(sessions, s.group.value);
        var members := Members(sessions, s.group.value);
        assert s in members;
        var j :| 0 <= j < |members| && members[j] == s;
        assert GroupAgrees(groups[s.group.value]);
      }
    }
  }

  method ValidateStateForRestore(state: State) returns (r: Outcome<StateError>)
    ensures r.Pass? <==> Restorable(state)
    ensures r.Fail? ==> Says(state, r.error)
  {
    hide WindowRestorable, SessionRestorable, GroupsAgree, SaysOfWindow;
    if state.sessions == [] {
      return Fail(NoSessions);
    }
    r := ValidateSessions(state.sessions);
    if r.Fail? {
      return;
    }
    for i := 0 to |state.windows|
      invariant forall j | 0 <= j < i :: WindowRestorable(state.windows[j])
    {
      r := ValidateWindow(state.windows[i]);
      if r.Fail? {
        assert state.windows[i] in state.windows;
        return;
      }
    }
    r := ValidateGroups(state.sessions);
  }

  /** What preflight accepts is what a rebuild needs. */
  lemma RestorableIsBuildable(state: State)
    requires WellFormed(state) && Restorable(state)
    ensures Buildable(state)
  {
    hide WellFormed, LayoutOk, GroupsAgree;
  }

  // ----- The plan -----

  /** What the platform says: this host and user, the socket of the target, which panes' directories are there,
      and the default shell the server told. */
  datatype Facts = Facts(hostname: string, uid: nat, socket: Option<Socket>, resolves: set<string>,
    shell: Option<string>)

  datatype Target = Target(sessions: nat, windows: nat, panes: seq<Pane>)

  datatype Fallback = Fallback(path: string, usable: bool)

  datatype Options = Options(replace: bool, allowOriginMismatch: bool, fallback: Option<Fallback>,
    restoreProcesses: bool, allowed: set<string>, checkpoint: Option<Checkpoint>)

  datatype Plan = Plan(directories: map<string, string>, fallbacks: seq<string>, restarts: map<string, Restart>,
    shell: Option<string>, checkpointUsed: bool, checkpointIgnored: bool)

  datatype PreflightError =
    | InvalidSnapshot(snapshotError: SnapshotError)
    | OtherOrigin(host: bool, uid: bool, socket: bool)
    | NotRestorable(stateError: StateError)
    | NotABootstrap
    | NoDirectory(pane: string)
    | BadFallback
    | NoShell

  /** Taken on this host by this user, and from this socket, if it says from which. */
  ghost predicate FromHere(origin: Origin, facts: Facts) {
    && origin.hostname == facts.hostname && origin.uid == facts.uid
    && (origin.socket.Some? ==> facts.socket.Some? && facts.socket.value.key == origin.socket.value.key)
  }

  method ValidateOrigin(origin: Origin, facts: Facts, allowMismatch: bool) returns (r: Outcome<PreflightError>)
    ensures r.Pass? <==> FromHere(origin, facts) || allowMismatch
    ensures r.Fail? ==>
              r.error == OtherOrigin(origin.hostname == facts.hostname, origin.uid == facts.uid,
                                     origin.socket.Some? ==> facts.socket.Some?
                                                             && facts.socket.value.key == origin.socket.value.key)
  {
    var host := origin.hostname == facts.hostname;
    var uid := origin.uid == facts.uid;
    var socket := match (origin.socket, facts.socket)
      case (Some(source), Some(target)) => source.key == target.key
      case (None, _) => true
      case _ => false;
    if !allowMismatch && (!host || !uid || !socket) {
      return Fail(OtherOrigin(host, uid, socket));
    }
    return Pass;
  }

  predicate TargetIsBootstrap(t: Target) {
    && t.sessions == 1 && t.windows == 1 && |t.panes| == 1
    && !t.panes[0].dead && t.panes[0].startCommand.None?
  }

  predicate Resolves(p: Pane, facts: Facts) {
    p.cwd.Some? && p.id in facts.resolves
  }

  /** Every pane is given a directory: its own, or the fallback when that does not resolve. */
  ghost predicate DirectoriesAre(panes: seq<Pane>, facts: Facts, fallback: Option<Fallback>,
                                 directories: map<string, string>) {
    && directories.Keys == Elements(PaneIds(panes))
    && forall p | p in panes ::
         && p.id in directories
         && if Resolves(p, facts) then directories[p.id] == p.cwd.value
            else fallback.Some? && directories[p.id] == fallback.value.path
  }

  ghost predicate Before(panes: seq<Pane>, a: string, b: string) {
    exists i, j :: 0 <= i < j < |panes| && panes[i].id == a && panes[j].id == b
  }

  /** The panes that do not get their own directory, in the order of the panes. */
  ghost predicate FallbacksAre(panes: seq<Pane>, facts: Facts, fallbacks: seq<string>) {
    && (forall p | p in panes :: p.id in fallbacks <==> !Resolves(p, facts))
    && (forall id | id in fallbacks :: exists p :: p in panes && p.id == id)
    && (forall i, j | 0 <= i < j < |fallbacks| :: Before(panes, fallbacks[i], fallbacks[j]))
  }

  ghost predicate CheckpointApplies(snapshot: Snapshot, options: Options) {
    options.restoreProcesses && options.checkpoint.Some? && Eligible(options.checkpoint.value, snapshot)
  }

  /** What a pane would be restarted with: an eligible checkpoint decides alone, also by saying nothing. */
  ghost predicate RestartsWith(snapshot: Snapshot, options: Options, pane: Pane, restart: Restart) {
    && options.restoreProcesses && restart.trusted && ProcessBasename(restart) in options.allowed
    && if CheckpointApplies(snapshot, options)
       then exists e :: e in options.checkpoint.value.panes && e.paneId == pane.id && e.process.restart == Some(restart)
       else pane.process.restart == Some(restart)
  }

  ghost predicate RestartsAre(snapshot: Snapshot, options: Options, panes: seq<Pane>, restarts: map<string, Restart>) {
    && (forall id | id in restarts ::
          exists p :: p in panes && p.id == id && RestartsWith(snapshot, options, p, restarts[id]))
    && (forall p, restart | p in panes && RestartsWith(snapshot, options, p, restart) ::
          p.id in restarts && restarts[p.id] == restart)
  }

  function RestartTable(entries: seq<PaneEntry>): map<string, Option<Restart>> {
    if entries == [] then map[]
    else RestartTable(entries[..|entries| - 1])[entries[|entries| - 1].paneId := entries[|entries| - 1].process.restart]
  }

  lemma {:induction false} TableFacts(entries: seq<PaneEntry>)
    requires Distinct(EntryIds(entries))
    ensures forall id :: id in RestartTable(entries) <==> id in Elements(EntryIds(entries))
    ensures forall e | e in entries ::
              e.paneId in RestartTable(entries) && RestartTable(entries)[e.paneId] == e.process.restart
  {
    if entries != [] {
      var init, last := entries[..|entries| - 1], entries[|entries| - 1];
      var ids := EntryIds(entries);
      assert EntryIds(init) == ids[..|init|] && ids == EntryIds(init) + [last.paneId];
      forall i, j | 0 <= i < j < |init| ensures EntryIds(init)[i] != EntryIds(init)[j] {
        assert ids[i] != ids[j];
      }
      TableFacts(init);
      forall e | e in init ensures e.paneId != last.paneId {
        var k :| 0 <= k < |init| && init[k] == e;
        assert ids[k] != ids[|init|];
      }
      assert entries == init + [last];
    } else {
      assert Elements(EntryIds(entries)) == {};
    }
  }

  /** What one pane would be restarted with, looked up the way the plan does. */
  function LookUp(options: Options, table: Option<map<string, Option<Restart>>>, pane: Pane): Option<Restart> {
    var restart := if table.None? then pane.process.restart
                   else if pane.id in table.value then table.value[pane.id] else None;
    if options.restoreProcesses && restart.Some? && restart.value.trusted
       && ProcessBasename(restart.value) in options.allowed then restart else None
  }

  lemma LookUpIsRight(snapshot: Snapshot, options: Options, table: Option<map<string, Option<Restart>>>, pane: Pane)
    requires table.Some? <==> CheckpointApplies(snapshot, options)
    requires table.Some? ==> table.value == RestartTable(options.checkpoint.value.panes)
    ensures forall restart ::
              RestartsWith(snapshot, options, pane, restart) <==> LookUp(options, table, pane) == Some(restart)
  {
    if table.Some? {
      var entries := options.checkpoint.value.panes;
      TableFacts(entries);
      if pane.id in table.value {
        var k :| 0 <= k < |entries| && EntryIds(entries)[k] == pane.id;
        assert entries[k] in entries;
      } else {
        forall e | e in entries ensures e.paneId != pane.id {
        }
      }
    }
  }

  ghost predicate Looked(options: Options, table: Option<map<string, Option<Restart>>>, panes: seq<Pane>,
                         restarts: map<string, Restart>) {
    && (forall id | id in restarts ::
          exists p :: p in panes && p.id == id && LookUp(options, table, p) == Some(restarts[id]))
    && (forall p | p in panes ::
          LookUp(options, table, p).Some? ==> p.id in restarts && restarts[p.id] == LookUp(options, table, p).value)
  }

  lemma LookedStep(options: Options, table: Option<map<string, Option<Restart>>>, panes: seq<Pane>, i: nat,
                   restarts: map<string, Restart>)
    requires i < |panes| && Distinct(PaneIds(panes)) && Looked(options, table, panes[..i], restarts)
    ensures var restart := LookUp(options, table, panes[i]);
            Looked(options, table, panes[..i + 1],
              if restart.Some? then restarts[panes[i].id := restart.value] else restarts)
  {
    hide LookUp;
    assert panes[..i + 1] == panes[..i] + [panes[i]];
    forall p | p in panes[..i] ensures p.id != panes[i].id {
      var j :| 0 <= j < i && panes[j] == p;
      assert PaneIds(panes)[j] != PaneIds(panes)[i];
    }
    var restart := LookUp(options, table, panes[i]);
    var next := if restart.Some? then restarts[panes[i].id := restart.value] else restarts;
    forall id | id in next
      ensures exists p :: p in panes[..i + 1] && p.id == id && LookUp(options, table, p) == Some(next[id])
    {
      if restart.Some? && id == panes[i].id {
        assert panes[i] in panes[..i + 1];
      } else {
        var p :| p in panes[..i] && p.id == id && LookUp(options, table, p) == Some(restarts[id]);
        assert p in panes[..i + 1];
      }
    }
  }

  lemma LookedIsRight(snapshot: Snapshot, options: Options, table: Option<map<string, Option<Restart>>>,
                      panes: seq<Pane>, restarts: map<string, Restart>)
    requires table.Some? <==> CheckpointApplies(snapshot, options)
    requires table.Some? ==> table.value == RestartTable(options.checkpoint.value.panes)
    requires Looked(options, table, panes, restarts)
    ensures RestartsAre(snapshot, options, panes, restarts)
  {
    hide LookUp, RestartsWith, CheckpointApplies;
    forall id | id in restarts
      ensures exists p :: p in panes && p.id == id && RestartsWith(snapshot, options, p, restarts[id])
    {
      var p :| p in panes && p.id == id && LookUp(options, table, p) == Some(restarts[id]);
      LookUpIsRight(snapshot, options, table, p);
    }
    forall p, restart | p in panes && RestartsWith(snapshot, options, p, restart)
      ensures p.id in restarts && restarts[p.id] == restart
    {
      LookUpIsRight(snapshot, options, table, p);
    }
  }

  method ChooseRestarts(options: Options, table: Option<map<string, Option<Restart>>>, panes: seq<Pane>)
    returns (restarts: map<string, Restart>)
    requires Distinct(PaneIds(panes))
    ensures Looked(options, table, panes, restarts)
  {
    hide Looked, LookUp;
    restarts := map[];
    assert Looked(options, table, panes[..0], restarts) by {
      NothingLooked(options, table);
    }
    for i := 0 to |panes|
      invariant Looked(options, table, panes[..i], restarts)
    {
      LookedStep(options, table, panes, i, restarts);
      var restart := LookUp(options, table, panes[i]);
      if restart.Some? {
        restarts := restarts[panes[i].id := restart.value];
      }
    }
    assert panes[..|panes|] == panes;
  }

  lemma NothingLooked(options: Options, table: Option<map<string, Option<Restart>>>)
    ensures Looked(options, table, [], map[])
  {
  }

  /** Directories that do not resolve are replaced by the one fallback, if there is one. */
  method ChooseDirectories(panes: seq<Pane>, facts: Facts, fallback: Option<Fallback>)
    returns (r: Outcome<PreflightError>, directories: map<string, string>, fallbacks: seq<string>)
    requires Distinct(PaneIds(panes))
    ensures r.Pass? <==> (forall p | p in panes :: Resolves(p, facts)) || (fallback.Some? && fallback.value.usable)
    ensures r.Pass? ==> DirectoriesAre(panes, facts, fallback, directories) && FallbacksAre(panes, facts, fallbacks)
    ensures r.Fail? && fallback.Some? ==> r.error == BadFallback
    ensures r.Fail? && fallback.None? ==>
              exists k :: 0 <= k < |panes| && r.error == NoDirectory(panes[k].id) && !Resolves(panes[k], facts)
                          && forall i | 0 <= i < k :: Resolves(panes[i], facts)
  {
    hide DirectoriesAre, FallbacksAre, Resolves;
    r, directories, fallbacks := Pass, map[], [];
    NoPanesYet(facts, fallback);
    assert panes[..0] == [];
    for i := 0 to |panes|
      invariant DirectoriesAre(panes[..i], facts, fallback, directories)
      invariant FallbacksAre(panes[..i], facts, fallbacks)
      invariant fallback.None? ==> forall k | 0 <= k < i :: Resolves(panes[k], facts)
      invariant (forall k | 0 <= k < i :: Resolves(panes[k], facts)) || (fallback.Some? && fallback.value.usable)
    {
      OneMorePane(panes, i, facts, fallback, directories, fallbacks);
      if Resolves(panes[i], facts) {
        directories := directories[panes[i].id := OwnDirectory(panes[i], facts)];
      } else {
        assert panes[i] in panes;
        if fallback.None? {
          return Fail(NoDirectory(panes[i].id)), directories, fallbacks;
        }
        if !fallback.value.usable {
          return Fail(BadFallback), directories, fallbacks;
        }
        directories := directories[panes[i].id := fallback.value.path];
        fallbacks := fallbacks + [panes[i].id];
      }
    }
    assert panes[..|panes|] == panes;
  }

  function OwnDirectory(p: Pane, facts: Facts): string
    requires Resolves(p, facts)
  {
    p.cwd.value
  }

  lemma NoPanesYet(facts: Facts, fallback: Option<Fallback>)
    ensures DirectoriesAre([], facts, fallback, map[]) && FallbacksAre([], facts, [])
  {
  }

  lemma OneMorePane(panes: seq<Pane>, i: nat, facts: Facts, fallback: Option<Fallback>,
                    directories: map<string, string>, fallbacks: seq<string>)
    requires Distinct(PaneIds(panes)) && i < |panes|
    requires DirectoriesAre(panes[..i], facts, fallback, directories) && FallbacksAre(panes[..i], facts, fallbacks)
    ensures Resolves(panes[i], facts) ==>
              && DirectoriesAre(panes[..i + 1], facts, fallback,
                   directories[panes[i].id := OwnDirectory(panes[i], facts)])
              && FallbacksAre(panes[..i + 1], facts, fallbacks)
    ensures !Resolves(panes[i], facts) && fallback.Some? ==>
              && DirectoriesAre(panes[..i + 1], facts, fallback, directories[panes[i].id := fallback.value.path])
    ensures !Resolves(panes[i], facts) ==> FallbacksAre(panes[..i + 1], facts, fallbacks + [panes[i].id])
  {
    hide DirectoriesAre, FallbacksAre, Resolves;
    forall q | q in panes[..i] ensures q.id != panes[i].id {
      var k :| 0 <= k < i && panes[k] == q;
      assert PaneIds(panes)[k] != PaneIds(panes)[i];
    }
    FallbacksGrow(panes, i, facts, fallbacks);
    if Resolves(panes[i], facts) {
      DirectoriesGrow(panes, i, facts, fallback, directories, OwnDirectory(panes[i], facts));
    } else if fallback.Some? {
      DirectoriesGrow(panes, i, facts, fallback, directories, fallback.value.path);
    }
  }

  lemma DirectoriesGrow(panes: seq<Pane>, i: nat, facts: Facts, fallback: Option<Fallback>,
                        directories: map<string, string>, directory: string)
    requires i < |panes| && DirectoriesAre(panes[..i], facts, fallback, directories)
    requires forall q | q in panes[..i] :: q.id != panes[i].id
    requires if Resolves(panes[i], facts) then directory == OwnDirectory(panes[i], facts)
             else fallback.Some? && directory == fallback.value.path
    ensures DirectoriesAre(panes[..i + 1], facts, fallback, directories[panes[i].id := directory])
  {
    var ids, more := PaneIds(panes[..i]), PaneIds(panes[..i + 1]);
    assert panes[..i + 1] == panes[..i] + [panes[i]];
    assert more == ids + [panes[i].id];
  }

  lemma FallbacksGrow(panes: seq<Pane>, i: nat, facts: Facts, fallbacks: seq<string>)
    requires i < |panes| && FallbacksAre(panes[..i], facts, fallbacks)
    requires forall q | q in panes[..i] :: q.id != panes[i].id
    ensures var next := if Resolves(panes[i], facts) then fallbacks else fallbacks + [panes[i].id];
            FallbacksAre(panes[..i + 1], facts, next)
  {
    hide Resolves;
    var p, more := panes[i], panes[..i + 1];
    var next := if Resolves(p, facts) then fallbacks else fallbacks + [p.id];
    assert more == panes[..i] + [p];
    forall id | id in next ensures exists q :: q in more && q.id == id {
      if id in fallbacks {
        var q :| q in panes[..i] && q.id == id;
        assert q in more;
      } else {
        assert p in more;
      }
    }
    forall x, y | 0 <= x < y < |next| ensures Before(more, next[x], next[y]) {
      if y < |fallbacks| {
        assert Before(panes[..i], fallbacks[x], fallbacks[y]);
        var k, l :| 0 <= k < l < i && panes[..i][k].id == fallbacks[x] && panes[..i][l].id == fallbacks[y];
        assert more[k].id == next[x] && more[l].id == next[y];
      } else {
        assert fallbacks[x] in fallbacks;
        var q :| q in panes[..i] && q.id == fallbacks[x];
        var k :| 0 <= k < i && panes[k] == q;
        assert more[k].id == next[x] && more[i].id == next[y];
      }
    }
  }

  /** What preflight asks for. A default shell is only needed when something is restarted. */
  ghost predicate Accepted(snapshot: Snapshot, target: Target, facts: Facts, options: Options) {
    var panes := AllPanes(snapshot.state.windows);
    && ValidSnapshot(snapshot) && Restorable(snapshot.state)
    && (FromHere(snapshot.origin, facts) || options.allowOriginMismatch)
    && (TargetIsBootstrap(target) || options.replace)
    && ((forall p | p in panes :: Resolves(p, facts)) || (options.fallback.Some? && options.fallback.value.usable))
    && (facts.shell.Some? || RestartsAre(snapshot, options, panes, map[]))
  }

  /** What the plan holds. */
  ghost predicate PlanIsRight(snapshot: Snapshot, facts: Facts, options: Options, plan: Plan) {
    var panes := AllPanes(snapshot.state.windows);
    && DirectoriesAre(panes, facts, options.fallback, plan.directories)
    && FallbacksAre(panes, facts, plan.fallbacks)
    && RestartsAre(snapshot, options, panes, plan.restarts)
    && (plan.checkpointUsed <==> CheckpointApplies(snapshot, options))
    && (plan.checkpointIgnored
        <==> options.restoreProcesses && options.checkpoint.Some? && !CheckpointApplies(snapshot, options))
    && plan.shell == (if plan.restarts == map[] then None else facts.shell)
    && (plan.restarts != map[] ==> plan.shell.Some?)
  }

  /** What each refusal says. */
  ghost predicate Refuses(snapshot: Snapshot, target: Target, facts: Facts, options: Options, error: PreflightError) {
    var panes := AllPanes(snapshot.state.windows);
    match error
    case InvalidSnapshot(_) => !ValidSnapshot(snapshot)
    case OtherOrigin(_, _, _) => !FromHere(snapshot.origin, facts) && !options.allowOriginMismatch
    case NotRestorable(stateError) => Says(snapshot.state, stateError)
    case NotABootstrap => !TargetIsBootstrap(target) && !options.replace
    case NoDirectory(id) => options.fallback.None? && exists p :: p in panes && p.id == id && !Resolves(p, facts)
    case BadFallback =>
      && options.fallback.Some? && !options.fallback.value.usable
      && exists p :: p in panes && !Resolves(p, facts)
    case NoShell => facts.shell.None? && !RestartsAre(snapshot, options, panes, map[])
  }

  /** Decides about a restore. What it accepts can be rebuilt; a checkpoint that does not belong to the
      snapshot is passed over with a warning, and one that does decides alone what is restarted. */
  method Preflight(snapshot: Snapshot, target: Target, facts: Facts, options: Options)
    returns (r: Result<Plan, PreflightError>)
    ensures r.Ok? <==> Accepted(snapshot, target, facts, options)
    ensures r.Err? ==> Refuses(snapshot, target, facts, options, r.error)
    ensures r.Ok? ==> PlanIsRight(snapshot, facts, options, r.value)
    ensures r.Ok? ==> Buildable(Planned(snapshot.state, r.value))
  {
    hide WellFormed, Restorable, Eligible, Looked, LookUp, RestartsAre, RestartTable, Buildable, FromHere, Resolves,
         DirectoriesAre, FallbacksAre, Planned, Distinct, Says;
    var valid := ValidateSnapshot(snapshot);
    if valid.Fail? {
      return Err(InvalidSnapshot(valid.error));
    }
    var origin := ValidateOrigin(snapshot.origin, facts, options.allowOriginMismatch);
    if origin.Fail? {
      return Err(origin.error);
    }
    var restorable := ValidateStateForRestore(snapshot.state);
    if restorable.Fail? {
      return Err(NotRestorable(restorable.error));
    }
    if !TargetIsBootstrap(target) && !options.replace {
      return Err(NotABootstrap);
    }
    var panes := AllPanes(snapshot.state.windows);
    PanesAreDistinct(snapshot.state);
    var resolved, directories, fallbacks := ChooseDirectories(panes, facts, options.fallback);
    if resolved.Fail? {
      return Err(resolved.error);
    }
    var table: Option<map<string, Option<Restart>>> := None;
    var ignored := false;
    if options.restoreProcesses && options.checkpoint.Some? {
      var eligible := CheckpointEligibility(options.checkpoint.value, snapshot);
      if eligible.Pass? {
        table := Some(RestartTable(options.checkpoint.value.panes));
      } else {
        ignored := true;
      }
    }
    var restarts := ChooseRestarts(options, table, panes);
    LookedIsRight(snapshot, options, table, panes, restarts);
    RestartsUnique(snapshot, options, panes, restarts);
    if restarts != map[] && facts.shell.None? {
      return Err(NoShell);
    }
    var shell := if restarts == map[] then None else facts.shell;
    r := Ok(Plan(directories, fallbacks, restarts, shell, table.Some?, ignored));
    PlannedIsBuildable(snapshot.state, r.value);
  }

  /** The rule fixes the restarts. */
  lemma RestartsUnique(snapshot: Snapshot, options: Options, panes: seq<Pane>, restarts: map<string, Restart>)
    requires RestartsAre(snapshot, options, panes, restarts)
    ensures RestartsAre(snapshot, options, panes, map[]) <==> restarts == map[]
  {
    hide RestartsWith;
    if restarts != map[] {
      var id :| id in restarts;
    }
  }

  // ----- What is restored: the saved state with the plan's directories and programs -----

  function PlannedPane(p: Pane, plan: Plan): Pane {
    p.(cwd := if p.id in plan.directories then Some(plan.directories[p.id]) else p.cwd,
       process := p.process.(restart := if p.id in plan.restarts then Some(plan.restarts[p.id]) else None))
  }

  function PlannedWindow(w: Window, plan: Plan): Window {
    w.(panes := seq(|w.panes|, k requires 0 <= k < |w.panes| => PlannedPane(w.panes[k], plan)))
  }

  /** The state that is rebuilt: where a pane starts and what it runs is the plan's to say. */
  function Planned(state: State, plan: Plan): State {
    state.(windows := seq(|state.windows|,
      i requires 0 <= i < |state.windows| => PlannedWindow(state.windows[i], plan)))
  }

  /** Panes that differ at most in what nobody validates. */
  ghost predicate PanesAlike(a: seq<Pane>, b: seq<Pane>) {
    |a| == |b| && forall k | 0 <= k < |a| :: a[k].id == b[k].id && a[k].index == b[k].index && a[k].dead == b[k].dead
  }

  ghost predicate StatesAlike(a: State, b: State) {
    && a.sessions == b.sessions && a.clientState == b.clientState && |a.windows| == |b.windows|
    && forall i | 0 <= i < |a.windows| ::
         a.windows[i].(panes := b.windows[i].panes) == b.windows[i]
           && PanesAlike(a.windows[i].panes, b.windows[i].panes)
  }

  lemma WindowsAlike(a: Window, b: Window)
    requires a.(panes := b.panes) == b && PanesAlike(a.panes, b.panes)
    ensures WindowOk(a) ==> WindowOk(b)
    ensures WindowRestorable(a) ==> WindowRestorable(b)
    ensures PaneIds(a.panes) == PaneIds(b.panes)
  {
    hide LayoutOk;
    assert PaneIds(a.panes) == PaneIds(b.panes);
    forall k | 0 <= k < |a.panes| ensures a.panes[k] in a.panes && a.panes[k].dead == b.panes[k].dead {
    }
  }

  lemma {:induction false} PanesAlikeIds(a: seq<Window>, b: seq<Window>)
    requires |a| == |b| && forall i | 0 <= i < |a| :: PaneIds(a[i].panes) == PaneIds(b[i].panes)
    ensures PaneIds(AllPanes(a)) == PaneIds(AllPanes(b))
  {
    if a != [] {
      var n := |a| - 1;
      PanesAlikeIds(a[..n], b[..n]);
      assert PaneIds(AllPanes(a)) == PaneIds(AllPanes(a[..n])) + PaneIds(a[n].panes);
      assert PaneIds(AllPanes(b)) == PaneIds(AllPanes(b[..n])) + PaneIds(b[n].panes);
    }
  }

  lemma AlikeIsWellFormed(a: State, b: State)
    requires StatesAlike(a, b) && WellFormed(a) && Restorable(a)
    ensures WellFormed(b) && Restorable(b)
    ensures PaneIds(AllPanes(b.windows)) == PaneIds(AllPanes(a.windows))
  {
    hide WindowOk, WindowRestorable, GroupsAgree, SessionOk, SessionRestorable, Owned, ClientStateOk, PanesAlike,
         Distinct;
    assert WindowIds(a.windows) == WindowIds(b.windows);
    forall i | 0 <= i < |a.windows| ensures PaneIds(a.windows[i].panes) == PaneIds(b.windows[i].panes) {
      WindowsAlike(a.windows[i], b.windows[i]);
    }
    PanesAlikeIds(a.windows, b.windows);
    forall w | w in b.windows ensures Owned(b.sessions, w.id) && WindowOk(w) && WindowRestorable(w) {
      var k :| 0 <= k < |b.windows| && b.windows[k] == w;
      assert a.windows[k] in a.windows;
      WindowsAlike(a.windows[k], w);
    }
  }

  lemma PlannedAlike(state: State, plan: Plan)
    ensures StatesAlike(state, Planned(state, plan))
  {
  }

  lemma PlannedIsBuildable(state: State, plan: Plan)
    requires WellFormed(state) && Restorable(state)
    ensures Buildable(Planned(state, plan))
  {
    hide WellFormed, Restorable, Planned, StatesAlike;
    PlannedAlike(state, plan);
    AlikeIsWellFormed(state, Planned(state, plan));
    RestorableIsBuildable(Planned(state, plan));
  }

  lemma PanesOfPlanned(state: State, plan: Plan)
    ensures forall p | p in AllPanes(state.windows) :: PlannedPane(p, plan) in AllPanes(Planned(state, plan).windows)
    ensures forall q | q in AllPanes(Planned(state, plan).windows) ::
              exists p :: p in AllPanes(state.windows) && q == PlannedPane(p, plan)
  {
    hide PlannedPane;
    var windows := Planned(state, plan).windows;
    PanesOfWindows(state.windows);
    PanesOfWindows(windows);
    forall p | p in AllPanes(state.windows) ensures PlannedPane(p, plan) in AllPanes(windows) {
      var w :| w in state.windows && p in w.panes;
      var i :| 0 <= i < |windows| && state.windows[i] == w;
      var k :| 0 <= k < |w.panes| && w.panes[k] == p;
      assert windows[i] in windows && windows[i].panes[k] == PlannedPane(p, plan);
    }
    forall q | q in AllPanes(windows) ensures exists p :: p in AllPanes(state.windows) && q == PlannedPane(p, plan) {
      var w :| w in windows && q in w.panes;
      var i :| 0 <= i < |windows| && windows[i] == w;
      var k :| 0 <= k < |w.panes| && w.panes[k] == q;
      assert state.windows[i] in state.windows && state.windows[i].panes[k] in state.windows[i].panes;
    }
  }

  /** A plan can be carried out, as far as programs go, exactly when each program the allowlist lets through
      can be put into a command. */
  lemma PlanLaunches(snapshot: Snapshot, facts: Facts, options: Options, plan: Plan)
    requires PlanIsRight(snapshot, facts, options, plan)
    ensures LaunchKnown(Planned(snapshot.state, plan), plan.shell)
            <==> forall p, r | p in AllPanes(snapshot.state.windows) && RestartsWith(snapshot, options, p, r) ::
              Launchable(r)
  {
    hide Launchable, RestartsWith, Planned, DirectoriesAre, FallbacksAre, CheckpointApplies;
    var panes, planned := AllPanes(snapshot.state.windows), Planned(snapshot.state, plan);
    PanesOfPlanned(snapshot.state, plan);
    Transaction.LaunchesKnown(planned, plan.shell);
    if LaunchKnown(planned, plan.shell) {
      forall p, r | p in panes && RestartsWith(snapshot, options, p, r) ensures Launchable(r) {
        assert PlannedPane(p, plan).process.restart == Some(r);
      }
    } else {
      var q :| q in AllPanes(planned.windows) && q.process.restart.Some?
               && !(Launchable(q.process.restart.value) && plan.shell.Some?);
      var p :| p in panes && q == PlannedPane(p, plan);
      var other :| other in panes && other.id == p.id
                   && RestartsWith(snapshot, options, other, plan.restarts[p.id]);
    }
  }

  /** The k-th pane of the window was started in this directory. */
  ghost predicate StartedIn(g: Graph, built: Built, w: Window, k: nat, directory: string) {
    && w.id in built.windows && built.windows[w.id] in g.windows
    && var starts := g.windows[built.windows[w.id]].starts;
       k < |starts| && starts[k].directory == Some(directory)
  }

  /** In a copy built by the plan every pane was started in the directory the plan gives it. */
  lemma PlannedDirectories(snapshot: Snapshot, facts: Facts, options: Options, plan: Plan, g: Graph, built: Built)
    requires PlanIsRight(snapshot, facts, options, plan) && Rebuilt(g, Planned(snapshot.state, plan), built)
    ensures forall w, k | w in snapshot.state.windows && 0 <= k < |w.panes| ::
              w.panes[k].id in plan.directories && StartedIn(g, built, w, k, plan.directories[w.panes[k].id])
  {
    hide RestartsAre, FallbacksAre, CheckpointApplies, Injective, ListExact;
    var state := snapshot.state;
    var planned := Planned(state, plan);
    PanesOfWindows(state.windows);
    forall w, k | w in state.windows && 0 <= k < |w.panes|
      ensures w.panes[k].id in plan.directories && StartedIn(g, built, w, k, plan.directories[w.panes[k].id])
    {
      var i :| 0 <= i < |state.windows| && state.windows[i] == w;
      assert w.panes[k] in w.panes;
      assert planned.windows[i] in planned.windows && planned.windows[i].panes[k] == PlannedPane(w.panes[k], plan);
      assert WindowShown(g, planned.windows[i], built.windows, built.panes);
    }
  }

  /** The live pane was started again in this directory, by the restart's path and with its arguments. */
  ghost predicate Restarted(looks: map<Slot, Word>, live: nat, r: Restart, shell: Option<string>, directory: string) {
    exists l :: Launches(r, shell, l) && Told(looks, ProgramOf(live)) == Some(Running(Program(Some(directory), l)))
  }

  lemma PlannedProgram(p: Pane, plan: Plan, built: Built, looks: map<Slot, Word>)
    requires p.id in plan.directories && p.id in built.panes
    requires Transaction.ProgramTold(looks, PlannedPane(p, plan), built, plan.shell)
    ensures p.id in plan.restarts ==>
              Restarted(looks, built.panes[p.id], plan.restarts[p.id], plan.shell, plan.directories[p.id])
    ensures p.id !in plan.restarts ==> Told(looks, ProgramOf(built.panes[p.id])) == None
  {
    hide Launches, Told;
  }

  /** What a restore by the plan ends with: what the allowlist lets through runs in its pane, in the directory
      planned for it, by its path and with its arguments; nothing was started in any other pane. */
  lemma PlanIsCarriedOut(snapshot: Snapshot, facts: Facts, options: Options, plan: Plan, built: Built,
                         looks: map<Slot, Word>)
    requires PlanIsRight(snapshot, facts, options, plan) && Distinct(PaneIds(AllPanes(snapshot.state.windows)))
    requires Transaction.Dressed(looks, Planned(snapshot.state, plan), built, plan.shell)
    ensures forall p | p in AllPanes(snapshot.state.windows) ::
              && p.id in built.panes && p.id in plan.directories
              && (forall r | RestartsWith(snapshot, options, p, r) ::
                    Restarted(looks, built.panes[p.id], r, facts.shell, plan.directories[p.id]))
              && ((forall r :: !RestartsWith(snapshot, options, p, r))
                  ==> Told(looks, ProgramOf(built.panes[p.id])) == None)
  {
    hide RestartsWith, Planned, FallbacksAre, CheckpointApplies, Told, Restarted, Transaction.ProgramTold, Distinct;
    var panes, planned := AllPanes(snapshot.state.windows), Planned(snapshot.state, plan);
    PanesOfPlanned(snapshot.state, plan);
    forall p | p in panes
      ensures p.id in built.panes && p.id in plan.directories
      ensures forall r | RestartsWith(snapshot, options, p, r) ::
                Restarted(looks, built.panes[p.id], r, facts.shell, plan.directories[p.id])
      ensures (forall r :: !RestartsWith(snapshot, options, p, r))
              ==> Told(looks, ProgramOf(built.panes[p.id])) == None
    {
      assert PlannedPane(p, plan) in AllPanes(planned.windows);
      PlannedProgram(p, plan, built, looks);
      if p.id in plan.restarts {
        var other :| other in panes && other.id == p.id
                     && RestartsWith(snapshot, options, other, plan.restarts[p.id]);
        SamePane(panes, p, other);
      }
    }
  }

  lemma SamePane(panes: seq<Pane>, a: Pane, b: Pane)
    requires Distinct(PaneIds(panes)) && a in panes && b in panes && a.id == b.id
    ensures a == b
  {
    var i :| 0 <= i < |panes| && panes[i] == a;
    var j :| 0 <= j < |panes| && panes[j] == b;
    assert PaneIds(panes)[i] == PaneIds(panes)[j];
  }

  /** Planning changes nothing about whether the placeholder can be parked or a window zoomed. */
  lemma PlannedReady(state: State, plan: Plan, g: Graph, socketKnown: bool)
    ensures Transaction.Ready(Planned(state, plan), g, socketKnown, plan.shell)
            <==> CanPark(state, g) && Transaction.ZoomKnown(state) && socketKnown
                 && LaunchKnown(Planned(state, plan), plan.shell)
  {
    hide LaunchKnown;
    var planned := Planned(state, plan);
    assert planned.sessions == state.sessions;
    if Transaction.ZoomKnown(planned) {
      forall w | w in state.windows && w.zoomed ensures w.activePane.Some? {
        var k :| 0 <= k < |state.windows| && state.windows[k] == w;
        assert planned.windows[k] == PlannedWindow(w, plan) && planned.windows[k] in planned.windows;
      }
    }
  }

  // ----- Plans that are accepted although no restore can succeed -----

  lemma {:induction false} SamePanes(a: seq<Window>, b: seq<Window>)
    requires |a| == |b| && forall i | 0 <= i < |a| :: a[i].panes == b[i].panes
    ensures AllPanes(a) == AllPanes(b)
  {
    if a != [] {
      SamePanes(a[..|a| - 1], b[..|b| - 1]);
    }
  }

  /** Nothing in preflight asks a zoomed window for its active pane: any acceptable state stays acceptable
      when one of its windows is zoomed and has none, although no restore of it can succeed. */
  lemma ZoomWithoutActivePaneIsAccepted(state: State, i: nat)
    requires WellFormed(state) && Restorable(state) && i < |state.windows|
    ensures var w := state.windows[i].(zoomed := true, activePane := None);
            var zoomed := state.(windows := state.windows[i := w]);
            WellFormed(zoomed) && Restorable(zoomed) && !Transaction.ZoomKnown(zoomed)
  {
    hide LayoutOk, GroupsAgree, SessionOk, Owned, PaneRun;
    var w := state.windows[i].(zoomed := true, activePane := None);
    var windows := state.windows[i := w];
    var zoomed := state.(windows := windows);
    SamePanes(state.windows, windows);
    assert WindowIds(windows) == WindowIds(state.windows);
    forall x | x in windows
      ensures Owned(state.sessions, x.id) && WindowOk(x) && WindowRestorable(x)
    {
      var k :| 0 <= k < |windows| && windows[k] == x;
      assert state.windows[k] in state.windows;
    }
    assert windows[i] == w && w in windows;
  }

  /** The state with one pane running something else. */
  function WithRestart(state: State, i: nat, j: nat, restart: Restart): State
    requires i < |state.windows| && j < |state.windows[i].panes|
  {
    var pane := state.windows[i].panes[j];
    var running := pane.(process := pane.process.(restart := Some(restart)));
    state.(windows := state.windows[i := state.windows[i].(panes := state.windows[i].panes[j := running])])
  }

  /** A snapshot of another state, taken at the same time. */
  function Resealed(snapshot: Snapshot, state: State): Snapshot {
    snapshot.(state := state, semanticHash := HashOf(state), id := Stamped(snapshot.createdAt, HashOf(state)))
  }

  lemma RunningIsWellFormed(state: State, i: nat, j: nat, restart: Restart)
    requires WellFormed(state) && Restorable(state) && i < |state.windows| && j < |state.windows[i].panes|
    ensures var other := WithRestart(state, i, j, restart);
            WellFormed(other) && Restorable(other)
  {
    hide WellFormed, Restorable;
    AlikeIsWellFormed(state, WithRestart(state, i, j, restart));
  }

  /** What the panes run has no part in where they start. */
  lemma RunningResolves(state: State, i: nat, j: nat, restart: Restart, facts: Facts)
    requires i < |state.windows| && j < |state.windows[i].panes|
    requires forall p | p in AllPanes(state.windows) :: Resolves(p, facts)
    ensures forall p | p in AllPanes(WithRestart(state, i, j, restart).windows) :: Resolves(p, facts)
  {
    var windows := WithRestart(state, i, j, restart).windows;
    PanesOfWindows(state.windows);
    PanesOfWindows(windows);
    forall p | p in AllPanes(windows) ensures Resolves(p, facts) {
      var w :| w in windows && p in w.panes;
      var k :| 0 <= k < |windows| && windows[k] == w;
      var l :| 0 <= l < |w.panes| && w.panes[l] == p;
      var same := state.windows[k].panes[l];
      assert state.windows[k] in state.windows && same in state.windows[k].panes;
      assert same in AllPanes(state.windows) && p.id == same.id && p.cwd == same.cwd;
    }
  }

  /** Nothing in preflight asks whether a program can be put into a command: any accepted snapshot stays
      acceptable when one of its panes runs an allowed program that no restore can launch. */
  lemma UnlaunchableRestartIsAccepted(snapshot: Snapshot, target: Target, facts: Facts, options: Options,
                                      i: nat, j: nat, restart: Restart)
    requires Accepted(snapshot, target, facts, options) && facts.shell.Some?
    requires options.restoreProcesses && options.checkpoint.None?
    requires i < |snapshot.state.windows| && j < |snapshot.state.windows[i].panes|
    requires restart.trusted && ProcessBasename(restart) in options.allowed && !Launchable(restart)
    ensures var other := Resealed(snapshot, WithRestart(snapshot.state, i, j, restart));
            && Accepted(other, target, facts, options)
            && forall plan | PlanIsRight(other, facts, options, plan) ::
                 !LaunchKnown(Planned(other.state, plan), plan.shell)
  {
    hide WellFormed, Restorable, ProcessBasename, Launchable, PlanIsRight, LaunchKnown, Planned, Resolves;
    var other := Resealed(snapshot, WithRestart(snapshot.state, i, j, restart));
    var panes := AllPanes(other.state.windows);
    RunningIsWellFormed(snapshot.state, i, j, restart);
    if forall p | p in AllPanes(snapshot.state.windows) :: Resolves(p, facts) {
      RunningResolves(snapshot.state, i, j, restart, facts);
    }
    var window := other.state.windows[i];
    var pane := window.panes[j];
    assert window in other.state.windows && pane in window.panes;
    AllPanesPrefix(other.state.windows, i);
    assert panes[|AllPanes(other.state.windows[..i])| + j] == pane;
    assert RestartsWith(other, options, pane, restart);
    forall plan | PlanIsRight(other, facts, options, plan)
      ensures !LaunchKnown(Planned(other.state, plan), plan.shell)
    {
      PlanLaunches(other, facts, options, plan);
    }
  }

  /** One pane that fills an 80x24 window. */
  const ONE_PANE := Leaf(Geometry([56, 48], [50, 52], [48], [48]), [49])

  /** One session with one window, at index 1: what is left when its first window was closed. */
  function ClosedFirst(): State {
    var pane := SnapshotGraph.Pane("%1", 0, None, None, None, false, Process(None, None));
    var window := Window("@1", "sh", Render(ONE_PANE), 80, 24, false, None, None, [pane]);
    State([Session("$1", "work", None, None, None, None, [Link("@1", 1)])], [window], None)
  }

  lemma OnePaneIsValid()
    ensures ValidCell(ONE_PANE) && Leaves(ONE_PANE) == 1
  {
    TwoDigits(56, 48);
    TwoDigits(50, 52);
    OneDigit(48);
    OneDigit(49);
  }

  lemma ClosedFirstIsWellFormed()
    ensures WellFormed(ClosedFirst())
  {
    hide Render;
    var state := ClosedFirst();
    var session, window := state.sessions[0], state.windows[0];
    assert session.links[0] == Link("@1", 1);
    assert LinkedWindows(session.links)[0] == "@1" && WindowIds(state.windows)[0] == "@1";
    assert AllPanes([]) == [] && state.windows[..0] == [];
    assert AllPanes(state.windows) == window.panes;
  }

  lemma ClosedFirstIsRestorable()
    ensures Restorable(ClosedFirst())
  {
    hide Render, LayoutOk;
    OnePaneIsValid();
    RenderedIsOk(ONE_PANE);
    RenderLength(ONE_PANE);
    var state := ClosedFirst();
    assert Leader(state.sessions, state.sessions[0]) == state.sessions[0];
  }

  /** Preflight accepts this snapshot, and on a server that numbers windows from 0 its placeholder cannot be
      parked: index 0 is the least it does not use. */
  lemma ClosedFirstWindow(g: Graph)
    requires g.baseIndex == 0
    ensures WellFormed(ClosedFirst()) && Restorable(ClosedFirst())
    ensures UnusedWindowIndex(ClosedFirst()) == Some(g.baseIndex) && !CanPark(ClosedFirst(), g)
  {
    hide Render, WellFormed, Restorable;
    ClosedFirstIsWellFormed();
    ClosedFirstIsRestorable();
    UnusedWindowIndexIsLeast(ClosedFirst());
    assert !UsesIndex(ClosedFirst().sessions, 0);
  }

  lemma RenderLength(c: Cell)
    ensures Render(c) != []
  {
  }

  lemma PanesAreDistinct(state: State)
    requires WellFormed(state)
    ensures Distinct(PaneIds(AllPanes(state.windows)))
  {
  }
}
