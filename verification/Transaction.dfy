/** The restore transaction: old sessions step aside under backup names, the snapshot is rebuilt
    next to them, terminals move over, and then either the backups go or everything new does. */
module Transaction {
  import opened Wrappers
  import opened SnapshotGraph
  import opened RestoreIndexes
  import opened TmuxServer
  import opened Rebuild
  import opened ClientSwitching
  import opened BackupNames
  import opened Restarts

  datatype TargetSession = TargetSession(id: nat, name: string)

  datatype ApplyWarning =
    | ClientWarned(warning: ClientWarning)
    | BackupSurvives(backup: Backup)

  datatype ApplyResult =
    | Applied(clients: seq<ClientRecord>, visibility: seq<Visibility>, warnings: seq<ApplyWarning>)
    | Failed(rollbackComplete: bool)

  /** The old sessions are all there with their windows, perhaps under other names. */
  ghost predicate OriginalsLive(g0: Graph, g: Graph) {
    && (forall s | s in g0.sessions :: s in g.sessions && g.sessions[s].list == g0.sessions[s].list)
    && (forall l | l in g0.lists :: l in g.lists && g.lists[l] == g0.lists[l])
    && (forall w | w in g0.windows :: w in g.windows && g.windows[w] == g0.windows[w])
  }

  /** Every graph a run passed through from `start` on shows the old state. */
  ghost predicate Reversible(g0: Graph, start: nat, trace: seq<Graph>) {
    start <= |trace| && forall k | start <= k < |trace| :: OriginalsLive(g0, trace[k])
  }

  /** The capture names the server's sessions exactly. */
  ghost predicate Describes(target: seq<TargetSession>, g: Graph) {
    && (forall k | 0 <= k < |target| ::
          target[k].id in g.sessions && g.sessions[target[k].id].name == target[k].name)
    && (forall i, j | 0 <= i < j < |target| :: target[i].id != target[j].id && target[i].name != target[j].name)
    && (forall s | s in g.sessions :: exists k :: 0 <= k < |target| && target[k].id == s)
  }

  /** Old state live now and at every step since `trace0`. */
  ghost predicate Guarded(server: Server, g0: Graph, trace0: seq<Graph>)
    reads server
  {
    trace0 <= server.trace && Reversible(g0, |trace0|, server.trace) && OriginalsLive(g0, server.graph)
  }

  /** A command that keeps the old state live, whatever its outcome. */
  method RunGuarded(server: Server, c: Command, ghost g0: Graph, ghost trace0: seq<Graph>)
    returns (output: Option<seq<nat>>)
    requires Guarded(server, g0, trace0)
    requires Enabled(server.graph, c) ==> OriginalsLive(g0, Effect(server.graph, c))
    requires c.RenameSession? || c.KillSession? || c.SwitchClient?
    modifies server
    ensures Guarded(server, g0, trace0) && server.failedMoves == old(server.failedMoves)
    ensures server.looks == old(server.looks) && (!c.SwitchClient? ==> server.visits == old(server.visits))
    ensures output.Some? ==> Enabled(old(server.graph), c) && server.graph == Effect(old(server.graph), c)
    ensures output.None? ==> server.graph == old(server.graph)
    ensures output.None? && Enabled(old(server.graph), c) && (c.SwitchClient? ==> c.client in server.clients)
            ==> server.faults > old(server.faults)
    ensures server.faults >= old(server.faults)
    ensures ClientsFollow(old(server.clients), server.clients, c, output.Some?)
    ensures output.Some? && c.SwitchClient? && c.client in server.clients
            ==> server.clients[c.client].session == c.session
  {
    hide OriginalsLive, Reversible, Enabled, Effect, Output, ClientsFollow;
    ghost var before := server.trace;
    output := server.Execute(c);
    ReversibleGrows(g0, |trace0|, before, server.graph);
  }

  lemma LiveAfterUntouched(g0: Graph, g: Graph, after: Graph)
    requires OriginalsLive(g0, g) && Untouched(g, after)
    ensures OriginalsLive(g0, after)
  {
  }

  lemma ReversibleAfterBuild(g0: Graph, start: nat, m: Mark, trace: seq<Graph>)
    requires Reversible(g0, start, m.trace) && OriginalsLive(g0, m.graph)
    requires m.trace <= trace && forall k | |m.trace| <= k < |trace| :: Untouched(m.graph, trace[k])
    ensures Reversible(g0, start, trace)
  {
    hide OriginalsLive, Untouched;
    forall k | start <= k < |trace| ensures OriginalsLive(g0, trace[k]) {
      if k < |m.trace| {
        assert trace[k] == m.trace[k];
      } else {
        LiveAfterUntouched(g0, m.graph, trace[k]);
      }
    }
  }

  lemma ReversibleGrows(g0: Graph, start: nat, trace: seq<Graph>, g: Graph)
    requires Reversible(g0, start, trace) && OriginalsLive(g0, g)
    ensures Reversible(g0, start, trace + [g])
  {
  }

  lemma ReversibleQuiet(g0: Graph, start: nat, trace: seq<Graph>, after: seq<Graph>, g: Graph)
    requires Reversible(g0, start, trace) && OriginalsLive(g0, g) && Quiet(trace, after, g)
    ensures Reversible(g0, start, after)
  {
    forall k | start <= k < |after| ensures OriginalsLive(g0, after[k]) {
      assert k < |trace| ==> after[k] == trace[k];
    }
  }

  // ----- Backup names -----

  method MakeBackups(token: string, target: seq<TargetSession>, sessions: seq<Session>) returns (backups: seq<Backup>)
    ensures |backups| == |target|
    ensures forall k | 0 <= k < |target| :: backups[k].id == target[k].id && backups[k].originalName == target[k].name
    ensures forall i, j | 0 <= i < j < |backups| :: backups[i].temporaryName != backups[j].temporaryName
    ensures forall b, t | b in backups && t in target :: b.temporaryName != t.name
    ensures forall b, s | b in backups && s in sessions :: b.temporaryName != s.name
  {
    hide AllFirstFree;
    var reserved := (set t | t in target :: t.name) + (set s | s in sessions :: s.name);
    var names := FreeNames(token, |target|, reserved);
    backups := [];
    for k := 0 to |target|
      invariant |backups| == k
      invariant forall j | 0 <= j < k :: backups[j] == Backup(target[j].id, target[j].name, names[j])
    {
      backups := backups + [Backup(target[k].id, target[k].name, names[k])];
    }
    forall b | b in backups ensures b.temporaryName in names {
      var k :| 0 <= k < |backups| && backups[k] == b;
    }
  }

  ghost predicate BackupsFor(backups: seq<Backup>, target: seq<TargetSession>) {
    && |backups| == |target|
    && (forall k | 0 <= k < |target| :: backups[k].id == target[k].id && backups[k].originalName == target[k].name)
    && (forall i, j | 0 <= i < j < |backups| :: backups[i].temporaryName != backups[j].temporaryName)
    && (forall b, t | b in backups && t in target :: b.temporaryName != t.name)
  }

  /** After the first `count` renames: those sessions carry their temporary names, all else is as it was. */
  ghost predicate RenamedSome(g0: Graph, g: Graph, backups: seq<Backup>, count: nat) {
    && count <= |backups|
    && g.lists == g0.lists && g.windows == g0.windows && g.next == g0.next && g.baseIndex == g0.baseIndex
    && g.sessions.Keys == g0.sessions.Keys
    && (forall s | s in g0.sessions :: g.sessions[s].list == g0.sessions[s].list)
    && (forall k | 0 <= k < count ::
          backups[k].id in g.sessions && g.sessions[backups[k].id].name == backups[k].temporaryName)
    && (forall k | count <= k < |backups| ::
          backups[k].id in g.sessions && g.sessions[backups[k].id].name == backups[k].originalName)
  }

  lemma RenameOne(g0: Graph, g: Graph, target: seq<TargetSession>, backups: seq<Backup>, count: nat)
    requires Describes(target, g0) && BackupsFor(backups, target)
    requires RenamedSome(g0, g, backups, count) && count < |backups|
    ensures var c := RenameSession(backups[count].id, backups[count].temporaryName);
            Enabled(g, c) && RenamedSome(g0, Effect(g, c), backups, count + 1)
  {
    hide RenamedSome;
    assert backups[count].id in g.sessions by {
      StillThere(g0, g, backups, count);
    }
    BackupIdsDiffer(g0, target, backups, count);
    TemporaryNameFree(g0, g, target, backups, count);
    RenamedStep(g0, g, backups, count);
  }

  lemma RenamedStep(g0: Graph, g: Graph, backups: seq<Backup>, count: nat)
    requires RenamedSome(g0, g, backups, count) && count < |backups|
    requires forall k | 0 <= k < |backups| && k != count :: backups[k].id != backups[count].id
    requires Enabled(g, RenameSession(backups[count].id, backups[count].temporaryName))
    ensures RenamedSome(g0, Effect(g, RenameSession(backups[count].id, backups[count].temporaryName)), backups,
                        count + 1)
  {
    var g' := Effect(g, RenameSession(backups[count].id, backups[count].temporaryName));
    assert g'.sessions.Keys == g.sessions.Keys;
  }

  lemma StillThere(g0: Graph, g: Graph, backups: seq<Backup>, count: nat)
    requires RenamedSome(g0, g, backups, count) && count < |backups|
    ensures backups[count].id in g.sessions
  {
  }

  lemma BackupIdsDiffer(g0: Graph, target: seq<TargetSession>, backups: seq<Backup>, count: nat)
    requires Describes(target, g0) && BackupsFor(backups, target) && count < |backups|
    ensures forall k | 0 <= k < |backups| && k != count :: backups[k].id != backups[count].id
  {
    forall k | 0 <= k < |backups| && k != count ensures backups[k].id != backups[count].id {
      assert target[k].id != target[count].id;
    }
  }

  lemma TemporaryNameFree(g0: Graph, g: Graph, target: seq<TargetSession>, backups: seq<Backup>, count: nat)
    requires Describes(target, g0) && BackupsFor(backups, target)
    requires RenamedSome(g0, g, backups, count) && count < |backups|
    ensures forall s | s in g.sessions && s != backups[count].id :: g.sessions[s].name != backups[count].temporaryName
  {
    var b := backups[count];
    forall s | s in g.sessions && s != b.id ensures g.sessions[s].name != b.temporaryName {
      var k :| 0 <= k < |target| && target[k].id == s;
      if k < count {
        assert backups[k].temporaryName != b.temporaryName;
      } else {
        assert b in backups && target[k] in target;
      }
    }
  }

  lemma RenamedLive(g0: Graph, g: Graph, backups: seq<Backup>, count: nat)
    requires RenamedSome(g0, g, backups, count) && Valid(g0)
    ensures OriginalsLive(g0, g) && Valid(g)
  {
  }

  lemma NamesCleared(g0: Graph, g: Graph, target: seq<TargetSession>, backups: seq<Backup>, sessions: seq<Session>)
    requires Describes(target, g0) && BackupsFor(backups, target) && RenamedSome(g0, g, backups, |backups|)
    requires forall b, s | b in backups && s in sessions :: b.temporaryName != s.name
    ensures forall s | s in sessions :: NameFree(g, s.name)
  {
    forall s, x | s in sessions && x in g.sessions ensures g.sessions[x].name != s.name {
      var k :| 0 <= k < |target| && target[k].id == x;
      assert backups[k] in backups;
    }
  }

  method RenameToBackups(server: Server, target: seq<TargetSession>, backups: seq<Backup>)
    returns (ok: bool, renamed: nat)
    requires Valid(server.graph) && Describes(target, server.graph) && BackupsFor(backups, target)
    modifies server
    ensures renamed <= |backups| && RenamedSome(old(server.graph), server.graph, backups, renamed)
    ensures Guarded(server, old(server.graph), old(server.trace))
    ensures Kept(old(server.clients), server.clients) && server.faults >= old(server.faults)
    ensures server.failedMoves == old(server.failedMoves)
    ensures server.looks == old(server.looks) && server.visits == old(server.visits)
    ensures ok ==> renamed == |backups|
    ensures !ok ==> server.faults > old(server.faults)
  {
    hide Describes, BackupsFor, RenamedSome, Valid, OriginalsLive, Reversible;
    ghost var g0, trace0 := server.graph, server.trace;
    NoneRenamed(g0, trace0, target, backups);
    for k := 0 to |backups|
      invariant RenamedSome(g0, server.graph, backups, k)
      invariant Guarded(server, g0, trace0)
      invariant Kept(old(server.clients), server.clients) && server.faults >= old(server.faults)
      invariant server.failedMoves == old(server.failedMoves)
      invariant server.looks == old(server.looks) && server.visits == old(server.visits)
    {
      RenameOne(g0, server.graph, target, backups, k);
      var c := RenameSession(backups[k].id, backups[k].temporaryName);
      RenamedLive(g0, Effect(server.graph, c), backups, k + 1);
      var output := RunGuarded(server, c, g0, trace0);
      if output.None? {
        return false, k;
      }
    }
    return true, |backups|;
  }

  lemma NoneRenamed(g0: Graph, trace: seq<Graph>, target: seq<TargetSession>, backups: seq<Backup>)
    requires Describes(target, g0) && BackupsFor(backups, target)
    ensures RenamedSome(g0, g0, backups, 0) && OriginalsLive(g0, g0) && Reversible(g0, |trace|, trace)
  {
  }

  // ----- Properties: what the copy is told once it stands -----

  /** What the property commands address is there, and new. */
  ghost predicate Addressable(g: Graph, state: State, built: Built, bound: nat) {
    && Injective(built.windows) && Injective(built.panes) && Injective(built.sessions)
    && (forall w | w in state.windows ::
          && w.id in built.windows && built.windows[w.id] in g.windows && built.windows[w.id] >= bound
          && (forall p | p in w.panes ::
                p.id in built.panes && built.panes[p.id] in g.windows[built.windows[w.id]].panes
                && built.panes[p.id] >= bound)
          && (w.activePane.Some? ==>
                w.activePane.value in built.panes
                && built.panes[w.activePane.value] in g.windows[built.windows[w.id]].panes))
    && (forall s | s in state.sessions ::
          && s.id in built.sessions && HasList(g, built.sessions[s.id]) && built.sessions[s.id] >= bound
          && forall k | 0 <= k < |s.links| :: LinkAddressable(g, s.links[k], built, built.sessions[s.id], bound))
  }

  ghost predicate LinkAddressable(g: Graph, link: Link, built: Built, session: nat, bound: nat)
    requires HasList(g, session)
  {
    && link.windowId in built.windows && built.windows[link.windowId] in g.windows
    && built.windows[link.windowId] >= bound
    && link.index in ListOf(g, session) && ListOf(g, session)[link.index] == built.windows[link.windowId]
  }

  lemma RebuiltAddressable(gm: Graph, g: Graph, state: State, built: Built)
    requires WellFormed(state) && Rebuilt(g, state, built) && NewCopy(gm, g, built)
    ensures Addressable(g, state, built, gm.next)
  {
    hide Injective, WellFormed;
    forall w | w in state.windows
      ensures w.id in built.windows && built.windows[w.id] in g.windows && built.windows[w.id] >= gm.next
      ensures forall p | p in w.panes ::
                p.id in built.panes && built.panes[p.id] in g.windows[built.windows[w.id]].panes
                && built.panes[p.id] >= gm.next
      ensures w.activePane.Some? ==>
                w.activePane.value in built.panes
                && built.panes[w.activePane.value] in g.windows[built.windows[w.id]].panes
    {
      WindowAddressable(gm, g, state, built, w);
    }
    forall s | s in state.sessions
      ensures s.id in built.sessions && HasList(g, built.sessions[s.id]) && built.sessions[s.id] >= gm.next
      ensures forall k | 0 <= k < |s.links| ::
                LinkAddressable(g, s.links[k], built, built.sessions[s.id], gm.next)
    {
      SessionAddressable(gm, g, state, built, s);
    }
  }

  lemma WindowAddressable(gm: Graph, g: Graph, state: State, built: Built, w: Window)
    requires WellFormed(state) && Rebuilt(g, state, built) && NewCopy(gm, g, built) && w in state.windows
    ensures w.id in built.windows && built.windows[w.id] in g.windows && built.windows[w.id] >= gm.next
    ensures forall p | p in w.panes ::
              p.id in built.panes && built.panes[p.id] in g.windows[built.windows[w.id]].panes
              && built.panes[p.id] >= gm.next
    ensures w.activePane.Some? ==>
              w.activePane.value in built.panes
              && built.panes[w.activePane.value] in g.windows[built.windows[w.id]].panes
  {
    hide Injective, SessionOk, Owned, ListExact;
    assert WindowShown(g, w, built.windows, built.panes) && WindowOk(w);
    var live := g.windows[built.windows[w.id]];
    forall k | 0 <= k < |w.panes|
      ensures w.panes[k].id in built.panes && built.panes[w.panes[k].id] in live.panes
    {
      assert live.panes[k] == built.panes[w.panes[k].id];
    }
    if w.activePane.Some? {
      assert w.activePane.value in PaneIds(w.panes);
      var k :| 0 <= k < |w.panes| && PaneIds(w.panes)[k] == w.activePane.value;
      assert w.panes[k].id in built.panes;
    }
  }

  lemma SessionAddressable(gm: Graph, g: Graph, state: State, built: Built, s: Session)
    requires WellFormed(state) && Rebuilt(g, state, built) && NewCopy(gm, g, built) && s in state.sessions
    ensures s.id in built.sessions && HasList(g, built.sessions[s.id]) && built.sessions[s.id] >= gm.next
    ensures forall k | 0 <= k < |s.links| :: LinkAddressable(g, s.links[k], built, built.sessions[s.id], gm.next)
  {
    hide Injective, WindowOk, Owned;
    forall k | 0 <= k < |s.links|
      ensures LinkAddressable(g, s.links[k], built, built.sessions[s.id], gm.next)
    {
      assert SessionOk(s, Elements(WindowIds(state.windows)));
      var j :| 0 <= j < |state.windows| && WindowIds(state.windows)[j] == s.links[k].windowId;
      assert WindowShown(g, state.windows[j], built.windows, built.panes);
    }
  }

  /** Zooming needs an active pane; nothing earlier checks that a zoomed window has one. */
  ghost predicate ZoomKnown(state: State) {
    forall w | w in state.windows && w.zoomed :: w.activePane.Some?
  }

  /** One command that tells a new object something. */
  method Tell(server: Server, c: Command, ghost m: Mark) returns (ok: bool)
    requires Works(server, m) && Enabled(server.graph, c) && Addresses(m.graph, server.graph, c)
    requires c.Adjust? || c.AdjustPane?
    modifies server
    ensures Works(server, m) && server.graph == old(server.graph)
    ensures server.looks == if ok then Dress(old(server.looks), c) else old(server.looks)
    ensures !ok ==> server.faults > m.faults
  {
    hide Valid, Untouched, Works, Addresses;
    var output := RunNew(server, c, m);
    ok := output.Some?;
  }

  predicate OfWindow(slot: Slot) {
    slot.NameOf? || slot.LayoutOf? || slot.ManualSizeOf? || slot.AutomaticRenameOf? || slot.ActivePaneOf?
  }

  /** Name, layout, size policy, automatic renaming and active pane of a live window are the saved ones. */
  ghost predicate WindowTold(looks: map<Slot, Word>, w: Window, built: Built)
    requires w.id in built.windows && (w.activePane.Some? ==> w.activePane.value in built.panes)
  {
    var live := built.windows[w.id];
    && Told(looks, NameOf(live)) == Some(Words(w.name))
    && Told(looks, LayoutOf(live)) == Some(Cells(w.layout))
    && Told(looks, ManualSizeOf(live)) == None
    && Told(looks, AutomaticRenameOf(live))
       == (if w.automaticRename.Some? then Some(Flag(w.automaticRename.value)) else None)
    && Told(looks, ActivePaneOf(live))
       == (if w.activePane.Some? then Some(TmuxServer.Pane(built.panes[w.activePane.value])) else None)
  }

  /** Only properties of this window were told. */
  ghost predicate OnlyWindow(before: map<Slot, Word>, after: map<Slot, Word>, live: nat) {
    forall slot: Slot | !OfWindow(slot) || slot.id != live :: Told(after, slot) == Told(before, slot)
  }

  lemma OnlyWindowMore(before: map<Slot, Word>, looks: map<Slot, Word>, live: nat, change: Change)
    requires OnlyWindow(before, looks, live) && !change.Zoom? && !change.ShowWindow?
    ensures OnlyWindow(before, Dress(looks, Adjust(live, change)), live)
  {
  }

  /** The five commands, one after the other, tell a window all it is to be told. */
  lemma AllTold(l: map<Slot, Word>, w: Window, built: Built)
    requires w.id in built.windows && (w.activePane.Some? ==> w.activePane.value in built.panes)
    requires Told(l, ActivePaneOf(built.windows[w.id])) == None
    ensures var live := built.windows[w.id];
            var l1 := DressOne(l, live, SetLayout(w.layout));
            var l2 := DressOne(l1, live, FollowSizePolicy);
            var l3 := DressOne(l2, live, SetName(w.name));
            var l4 := DressOne(l3, live, SetAutomaticRename(w.automaticRename));
            WindowTold(if w.activePane.Some? then DressOne(l4, live,
              SelectPane(built.panes[w.activePane.value])) else l4,
                       w, built)
  {
  }

  method TellWindow(server: Server, w: Window, ghost state: State, built: Built, ghost m: Mark) returns (ok: bool)
    requires Works(server, m) && Addressable(server.graph, state, built, m.graph.next) && w in state.windows
    requires Told(server.looks, ActivePaneOf(built.windows[w.id])) == None
    modifies server
    ensures Works(server, m) && server.graph == old(server.graph)
    ensures ok ==> WindowTold(server.looks, w, built)
    ensures OnlyWindow(old(server.looks), server.looks, built.windows[w.id])
    ensures !ok ==> server.faults > m.faults
  {
    hide Works, Injective, DressOne, WindowTold, Told, OnlyWindow;
    ghost var looks := server.looks;
    var live := built.windows[w.id];
    NothingToldYet(looks, live);
    AllTold(looks, w, built);
    OnlyWindowMore(looks, server.looks, live, SetLayout(w.layout));
    ok := Tell(server, Adjust(live, SetLayout(w.layout)), m);
    if !ok { return; }
    OnlyWindowMore(looks, server.looks, live, FollowSizePolicy);
    ok := Tell(server, Adjust(live, FollowSizePolicy), m);
    if !ok { return; }
    OnlyWindowMore(looks, server.looks, live, SetName(w.name));
    ok := Tell(server, Adjust(live, SetName(w.name)), m);
    if !ok { return; }
    OnlyWindowMore(looks, server.looks, live, SetAutomaticRename(w.automaticRename));
    ok := Tell(server, Adjust(live, SetAutomaticRename(w.automaticRename)), m);
    if !ok { return; }
    if w.activePane.Some? {
      OnlyWindowMore(looks, server.looks, live, SelectPane(built.panes[w.activePane.value]));
      ok := Tell(server, Adjust(live, SelectPane(built.panes[w.activePane.value])), m);
    }
  }

  lemma NothingToldYet(looks: map<Slot, Word>, live: nat)
    ensures OnlyWindow(looks, looks, live)
  {
  }

  lemma WindowToldStays(before: map<Slot, Word>, after: map<Slot, Word>, w: Window, built: Built, other: nat)
    requires w.id in built.windows && (w.activePane.Some? ==> w.activePane.value in built.panes)
    requires WindowTold(before, w, built) && built.windows[w.id] != other
    requires forall slot: Slot | !OfWindow(slot) || slot.id != other :: Told(after, slot) == Told(before, slot)
    ensures WindowTold(after, w, built)
  {
    hide Told;
    var live := built.windows[w.id];
    assert forall slot: Slot | slot.id == live :: Told(after, slot) == Told(before, slot);
    assert NameOf(live).id == live && LayoutOf(live).id == live && ManualSizeOf(live).id == live;
    assert AutomaticRenameOf(live).id == live && ActivePaneOf(live).id == live;
  }

  /** Different saved windows are different live ones. */
  lemma WindowsDiffer(windows: seq<Window>, live: map<string, nat>, i: nat, k: nat)
    requires Distinct(WindowIds(windows)) && Injective(live) && i < |windows| && k < |windows| && i != k
    requires windows[i].id in live && windows[k].id in live
    ensures live[windows[i].id] != live[windows[k].id]
  {
    assert WindowIds(windows)[i] != WindowIds(windows)[k];
  }

  method RestoreProperties(server: Server, state: State, built: Built, ghost m: Mark) returns (ok: bool)
    requires Works(server, m) && Addressable(server.graph, state, built, m.graph.next)
    requires Distinct(WindowIds(state.windows))
    requires forall w | w in state.windows :: Told(server.looks, ActivePaneOf(built.windows[w.id])) == None
    modifies server
    ensures Works(server, m) && server.graph == old(server.graph)
    ensures ok ==> forall w | w in state.windows :: WindowTold(server.looks, w, built)
    ensures forall slot: Slot | !OfWindow(slot) :: Told(server.looks, slot) == Told(old(server.looks), slot)
    ensures !ok ==> server.faults > m.faults
  {
    hide Works, Told, WindowTold, Injective, Distinct;
    var windows := state.windows;
    for i := 0 to |windows|
      invariant Works(server, m) && server.graph == old(server.graph)
      invariant forall k | 0 <= k < i :: WindowTold(server.looks, windows[k], built)
      invariant forall k | i <= k < |windows| :: Told(server.looks, ActivePaneOf(built.windows[windows[k].id])) == None
      invariant forall slot: Slot | !OfWindow(slot) :: Told(server.looks, slot) == Told(old(server.looks), slot)
    {
      ghost var looks := server.looks;
      var live := built.windows[windows[i].id];
      ok := TellWindow(server, windows[i], state, built, m);
      if !ok { return; }
      forall k | 0 <= k < |windows| && k != i ensures built.windows[windows[k].id] != live {
        WindowsDiffer(windows, built.windows, i, k);
      }
      forall k | 0 <= k < i ensures WindowTold(server.looks, windows[k], built) {
        WindowToldStays(looks, server.looks, windows[k], built, live);
      }
      forall k | i < k < |windows| ensures Told(server.looks, ActivePaneOf(built.windows[windows[k].id])) == None {
        assert ActivePaneOf(built.windows[windows[k].id]).id != live;
      }
    }
    ok := true;
  }

  // ----- Starting what is to be restarted -----

  /** The live pane runs its program in its directory, if there is one to be restarted, and was else left alone. */
  ghost predicate ProgramTold(looks: map<Slot, Word>, p: Pane, built: Built, shell: Option<string>)
    requires p.id in built.panes
  {
    match p.process.restart
    case None => Told(looks, ProgramOf(built.panes[p.id])) == None
    case Some(restart) =>
      exists l :: Launches(restart, shell, l)
                  && Told(looks, ProgramOf(built.panes[p.id])) == Some(Running(Program(p.cwd, l)))
  }

  ghost predicate Respawned(panes: seq<Pane>, built: Built, slot: Slot)
    requires forall p | p in panes :: p.id in built.panes
  {
    exists p :: p in panes && p.process.restart.Some? && slot == ProgramOf(built.panes[p.id])
  }

  lemma PanesDiffer(panes: seq<Pane>, live: map<string, nat>, i: nat, k: nat)
    requires Distinct(PaneIds(panes)) && Injective(live) && i < |panes| && k < |panes| && i != k
    requires panes[i].id in live && panes[k].id in live
    ensures live[panes[i].id] != live[panes[k].id]
  {
    assert PaneIds(panes)[i] != PaneIds(panes)[k];
  }

  lemma PaneAddressable(g: Graph, state: State, built: Built, bound: nat, p: Pane, change: PaneChange)
    requires Addressable(g, state, built, bound) && p in AllPanes(state.windows)
    ensures p.id in built.panes && built.panes[p.id] >= bound && Enabled(g, AdjustPane(built.panes[p.id], change))
  {
    hide Injective;
    PanesOfWindows(state.windows);
    var w :| w in state.windows && p in w.panes;
    assert built.windows[w.id] in g.windows && built.panes[p.id] in g.windows[built.windows[w.id]].panes;
  }

  method StartPane(server: Server, p: Pane, shell: Option<string>, ghost state: State, built: Built, ghost m: Mark)
    returns (ok: bool)
    requires Works(server, m) && Addressable(server.graph, state, built, m.graph.next)
    requires p in AllPanes(state.windows) && p.id in built.panes
    requires Told(server.looks, ProgramOf(built.panes[p.id])) == None
    modifies server
    ensures Works(server, m) && server.graph == old(server.graph)
    ensures ok ==> ProgramTold(server.looks, p, built, shell)
    ensures ok && p.process.restart.Some? ==> Launchable(p.process.restart.value) && shell.Some?
    ensures forall slot: Slot | !(p.process.restart.Some? && slot == ProgramOf(built.panes[p.id])) ::
              Told(server.looks, slot) == Told(old(server.looks), slot)
    ensures !ok ==> server.faults > m.faults
                    || (p.process.restart.Some? && !(Launchable(p.process.restart.value) && shell.Some?))
  {
    hide Works, Addressable;
    var launch := PaneLaunch(p.process.restart, shell);
    if launch.Err? {
      return false;
    }
    ok := true;
    if launch.value.Some? {
      var l := launch.value.value;
      PaneAddressable(server.graph, state, built, m.graph.next, p, Respawn(Program(p.cwd, l)));
      ok := Tell(server, AdjustPane(built.panes[p.id], Respawn(Program(p.cwd, l))), m);
    }
  }

  /** Starts exactly the programs that are to be restarted, each in its pane. */
  method StartPanes(server: Server, shell: Option<string>, state: State, built: Built, ghost m: Mark)
    returns (ok: bool)
    requires Works(server, m) && Addressable(server.graph, state, built, m.graph.next)
    requires Distinct(PaneIds(AllPanes(state.windows)))
    requires forall p | p in AllPanes(state.windows) ::
               p.id in built.panes && Told(server.looks, ProgramOf(built.panes[p.id])) == None
    modifies server
    ensures Works(server, m) && server.graph == old(server.graph)
    ensures ok ==> LaunchKnown(state, shell)
    ensures ok ==> forall p | p in AllPanes(state.windows) :: ProgramTold(server.looks, p, built, shell)
    ensures forall slot: Slot | !Respawned(AllPanes(state.windows), built, slot) ::
              Told(server.looks, slot) == Told(old(server.looks), slot)
    ensures !ok && LaunchKnown(state, shell) ==> server.faults > m.faults
  {
    hide Works, Told, ProgramTold, Distinct, Launchable, LaunchKnown;
    var panes := AllPanes(state.windows);
    LaunchesKnown(state, shell);
    for i := 0 to |panes|
      invariant Works(server, m) && server.graph == old(server.graph)
      invariant forall k | 0 <= k < i :: ProgramTold(server.looks, panes[k], built, shell)
      invariant forall k | 0 <= k < i && panes[k].process.restart.Some? ::
                  Launchable(panes[k].process.restart.value) && shell.Some?
      invariant forall k | i <= k < |panes| :: Told(server.looks, ProgramOf(built.panes[panes[k].id])) == None
      invariant forall slot: Slot | !Respawned(panes, built, slot) ::
                  Told(server.looks, slot) == Told(old(server.looks), slot)
    {
      ghost var looks := server.looks;
      assert panes[i] in panes;
      ok := StartPane(server, panes[i], shell, state, built, m);
      if !ok { return; }
      forall k | 0 <= k < |panes| && k != i
        ensures ProgramOf(built.panes[panes[k].id]) != ProgramOf(built.panes[panes[i].id])
      {
        assert panes[k] in panes;
        PanesDiffer(panes, built.panes, i, k);
      }
      forall k | 0 <= k < i ensures ProgramTold(server.looks, panes[k], built, shell) {
        ProgramStays(looks, server.looks, panes[k], built, shell);
      }
      assert panes[i].process.restart.Some? ==> Respawned(panes, built, ProgramOf(built.panes[panes[i].id]));
    }
    ok := true;
  }

  lemma LaunchesKnown(state: State, shell: Option<string>)
    ensures LaunchKnown(state, shell)
            <==> forall p | p in AllPanes(state.windows) && p.process.restart.Some? ::
                   Launchable(p.process.restart.value) && shell.Some?
  {
    hide Launchable;
    PanesOfWindows(state.windows);
  }

  lemma ProgramStays(before: map<Slot, Word>, after: map<Slot, Word>, p: Pane, built: Built, shell: Option<string>)
    requires p.id in built.panes && ProgramTold(before, p, built, shell)
    requires Told(after, ProgramOf(built.panes[p.id])) == Told(before, ProgramOf(built.panes[p.id]))
    ensures ProgramTold(after, p, built, shell)
  {
  }

  // ----- Zoom, titles, and the windows that are shown -----

  ghost predicate ZoomTold(looks: map<Slot, Word>, w: Window, built: Built)
    requires w.id in built.windows
  {
    Told(looks, ZoomOf(built.windows[w.id])) == if w.zoomed then Some(Flag(true)) else None
  }

  method RestoreZoomed(server: Server, state: State, built: Built, ghost m: Mark) returns (ok: bool)
    requires Works(server, m) && Addressable(server.graph, state, built, m.graph.next)
    requires Distinct(WindowIds(state.windows))
    requires forall w | w in state.windows :: Told(server.looks, ZoomOf(built.windows[w.id])) == None
    modifies server
    ensures Works(server, m) && server.graph == old(server.graph)
    ensures ok ==> ZoomKnown(state)
    ensures ok ==> forall w | w in state.windows :: ZoomTold(server.looks, w, built)
    ensures forall slot: Slot | !slot.ZoomOf? :: Told(server.looks, slot) == Told(old(server.looks), slot)
    ensures !ok && ZoomKnown(state) ==> server.faults > m.faults
  {
    hide Works, Distinct, Injective;
    var windows := state.windows;
    for i := 0 to |windows|
      invariant Works(server, m) && server.graph == old(server.graph)
      invariant forall k | 0 <= k < i && windows[k].zoomed :: windows[k].activePane.Some?
      invariant forall k | 0 <= k < i :: ZoomTold(server.looks, windows[k], built)
      invariant forall k | i <= k < |windows| :: Told(server.looks, ZoomOf(built.windows[windows[k].id])) == None
      invariant forall slot: Slot | !slot.ZoomOf? :: Told(server.looks, slot) == Told(old(server.looks), slot)
    {
      var w := windows[i];
      assert w in windows;
      if w.zoomed {
        if w.activePane.None? {
          return false;
        }
        ok := Tell(server, Adjust(built.windows[w.id], Zoom(built.panes[w.activePane.value])), m);
        if !ok { return; }
        forall k | 0 <= k < |windows| && k != i ensures built.windows[windows[k].id] != built.windows[w.id] {
          assert windows[k] in windows;
          WindowsDiffer(windows, built.windows, i, k);
        }
      }
    }
    ok := true;
  }

  ghost predicate TitleTold(looks: map<Slot, Word>, p: Pane, built: Built)
    requires p.id in built.panes
  {
    Told(looks, TitleOf(built.panes[p.id])) == if p.title.Some? then Some(Words(p.title.value)) else None
  }

  method RestoreTitles(server: Server, state: State, built: Built, ghost m: Mark) returns (ok: bool)
    requires Works(server, m) && Addressable(server.graph, state, built, m.graph.next)
    requires Distinct(PaneIds(AllPanes(state.windows)))
    requires forall p | p in AllPanes(state.windows) ::
               p.id in built.panes && Told(server.looks, TitleOf(built.panes[p.id])) == None
    modifies server
    ensures Works(server, m) && server.graph == old(server.graph)
    ensures ok ==> forall p | p in AllPanes(state.windows) :: TitleTold(server.looks, p, built)
    ensures forall slot: Slot | !slot.TitleOf? :: Told(server.looks, slot) == Told(old(server.looks), slot)
    ensures !ok ==> server.faults > m.faults
  {
    hide Works, Distinct, Injective, Addressable;
    var panes := AllPanes(state.windows);
    AddressableIds(server.graph, state, built, m.graph.next);
    for i := 0 to |panes|
      invariant Works(server, m) && server.graph == old(server.graph)
      invariant forall k | 0 <= k < i :: TitleTold(server.looks, panes[k], built)
      invariant forall k | i <= k < |panes| :: Told(server.looks, TitleOf(built.panes[panes[k].id])) == None
      invariant forall slot: Slot | !slot.TitleOf? :: Told(server.looks, slot) == Told(old(server.looks), slot)
    {
      var p := panes[i];
      assert p in panes;
      if p.title.Some? {
        PaneAddressable(server.graph, state, built, m.graph.next, p, SetTitle(p.title.value));
        ok := Tell(server, AdjustPane(built.panes[p.id], SetTitle(p.title.value)), m);
        if !ok { return; }
        forall k | 0 <= k < |panes| && k != i ensures built.panes[panes[k].id] != built.panes[p.id] {
          assert panes[k] in panes;
          PanesDiffer(panes, built.panes, i, k);
        }
      }
    }
    ok := true;
  }

  lemma AddressableIds(g: Graph, state: State, built: Built, bound: nat)
    requires Addressable(g, state, built, bound)
    ensures Injective(built.windows) && Injective(built.panes) && Injective(built.sessions)
  {
  }

  function FindLink(links: seq<Link>, window: Option<string>): (r: Option<Link>)
    ensures r.Some? ==> r.value in links && Some(r.value.windowId) == window
    ensures r.None? && window.Some? ==> forall l | l in links :: l.windowId != window.value
  {
    if window.None? || links == [] then None
    else if links[0].windowId == window.value then Some(links[0])
    else FindLink(links[1..], window)
  }

  ghost predicate ShownAt(s: Session, window: string, index: int) {
    exists l :: l in s.links && l.windowId == window && l.index == index
  }

  /** The session shows its active window, and came there from its last one, as far as it had them. */
  ghost predicate SessionTold(looks: map<Slot, Word>, s: Session, built: Built)
    requires s.id in built.sessions
  {
    var live := built.sessions[s.id];
    && (match (s.activeWindow, s.lastWindow)
        case (Some(a), _) => exists i :: ShownAt(s, a, i) && Told(looks, CurrentOf(live)) == Some(Position(i))
        case (None, Some(l)) => exists i :: ShownAt(s, l, i) && Told(looks, CurrentOf(live)) == Some(Position(i))
        case (None, None) => Told(looks, CurrentOf(live)) == None)
    && (if s.activeWindow.Some? && s.lastWindow.Some? && s.activeWindow != s.lastWindow
        then exists i :: ShownAt(s, s.lastWindow.value, i) && Told(looks, PreviousOf(live)) == Some(Position(i))
        else Told(looks, PreviousOf(live)) == None)
  }

  predicate OfSession(slot: Slot) {
    slot.CurrentOf? || slot.PreviousOf?
  }

  /** Only what this session shows was told. */
  ghost predicate OnlySession(before: map<Slot, Word>, after: map<Slot, Word>, live: nat) {
    forall slot: Slot | !OfSession(slot) || slot.id != live :: Told(after, slot) == Told(before, slot)
  }

  /** What one or two commands make a session show. */
  function ShowBoth(l: map<Slot, Word>, live: nat, last: Option<Link>, active: Option<Link>): map<Slot, Word> {
    var l1 := if last.Some? then DressOne(l, 0, ShowWindow(live, last.value.index)) else l;
    if active.Some? then DressOne(l1, 0, ShowWindow(live, active.value.index)) else l1
  }

  lemma BothShown(l: map<Slot, Word>, s: Session, built: Built, state: State)
    requires s.id in built.sessions && SessionOk(s, Elements(WindowIds(state.windows)))
    requires Told(l, CurrentOf(built.sessions[s.id])) == None && Told(l, PreviousOf(built.sessions[s.id])) == None
    ensures var live := built.sessions[s.id];
            var after := ShowBoth(l, live, FindLink(s.links, s.lastWindow), FindLink(s.links, s.activeWindow));
            SessionTold(after, s, built) && OnlySession(l, after, live)
  {
    hide SessionOk;
    LinkFound(s, s.lastWindow, state);
    LinkFound(s, s.activeWindow, state);
    if s.activeWindow.Some? && s.lastWindow.Some? {
      IndexesDiffer(s, FindLink(s.links, s.activeWindow).value, FindLink(s.links, s.lastWindow).value, state);
    }
  }

  lemma OneShown(l: map<Slot, Word>, live: nat, index: int)
    ensures OnlySession(l, DressOne(l, 0, ShowWindow(live, index)), live) && OnlySession(l, l, live)
  {
  }

  method TellSession(server: Server, s: Session, ghost state: State, built: Built, ghost m: Mark) returns (ok: bool)
    requires Works(server, m) && Addressable(server.graph, state, built, m.graph.next) && s in state.sessions
    requires SessionOk(s, Elements(WindowIds(state.windows)))
    requires Told(server.looks, CurrentOf(built.sessions[s.id])) == None
    requires Told(server.looks, PreviousOf(built.sessions[s.id])) == None
    modifies server
    ensures Works(server, m) && server.graph == old(server.graph)
    ensures ok ==> SessionTold(server.looks, s, built)
    ensures OnlySession(old(server.looks), server.looks, built.sessions[s.id])
    ensures !ok ==> server.faults > m.faults
  {
    hide Works, Injective, Told, SessionTold, SessionOk, OnlySession;
    ghost var looks := server.looks;
    var live := built.sessions[s.id];
    ok := true;
    var last := FindLink(s.links, s.lastWindow);
    var active := FindLink(s.links, s.activeWindow);
    LinkFound(s, s.lastWindow, state);
    LinkFound(s, s.activeWindow, state);
    BothShown(looks, s, built, state);
    OneShown(looks, live, if last.Some? then last.value.index else 0);
    if last.Some? {
      ShownAnywhere(looks, built.windows[last.value.windowId], live, last.value.index);
      ok := Tell(server, Adjust(built.windows[last.value.windowId], ShowWindow(live, last.value.index)), m);
      if !ok { return; }
    }
    if active.Some? {
      ShownAnywhere(server.looks, built.windows[active.value.windowId], live, active.value.index);
      ok := Tell(server, Adjust(built.windows[active.value.windowId], ShowWindow(live, active.value.index)), m);
    }
  }

  lemma ShownAnywhere(l: map<Slot, Word>, window: nat, live: nat, index: int)
    ensures Dress(l, Adjust(window, ShowWindow(live, index))) == DressOne(l, 0, ShowWindow(live, index))
  {
  }

  /** A well-formed session links its active and its last window. */
  lemma LinkFound(s: Session, window: Option<string>, state: State)
    requires SessionOk(s, Elements(WindowIds(state.windows))) && (window == s.activeWindow || window == s.lastWindow)
    ensures FindLink(s.links, window).Some? <==> window.Some?
    ensures window.Some? ==> ShownAt(s, window.value, FindLink(s.links, window).value.index)
                             && exists k :: 0 <= k < |s.links| && s.links[k] == FindLink(s.links, window).value
  {
    if window.Some? {
      var k :| 0 <= k < |s.links| && LinkedWindows(s.links)[k] == window.value;
      assert s.links[k] in s.links;
    }
  }

  lemma IndexesDiffer(s: Session, a: Link, b: Link, state: State)
    requires SessionOk(s, Elements(WindowIds(state.windows))) && a in s.links && b in s.links
    ensures a.index == b.index <==> a.windowId == b.windowId
  {
    var i :| 0 <= i < |s.links| && s.links[i] == a;
    var j :| 0 <= j < |s.links| && s.links[j] == b;
    assert LinkIndexes(s.links)[i] == a.index && LinkIndexes(s.links)[j] == b.index;
    assert LinkedWindows(s.links)[i] == a.windowId && LinkedWindows(s.links)[j] == b.windowId;
  }

  lemma SessionToldStays(before: map<Slot, Word>, after: map<Slot, Word>, s: Session, built: Built, other: nat)
    requires s.id in built.sessions && SessionTold(before, s, built) && built.sessions[s.id] != other
    requires forall slot: Slot | !OfSession(slot) || slot.id != other :: Told(after, slot) == Told(before, slot)
    ensures SessionTold(after, s, built)
  {
    hide Told, ShownAt;
    var live := built.sessions[s.id];
    assert CurrentOf(live).id == live && PreviousOf(live).id == live;
  }

  method RestoreSelections(server: Server, state: State, built: Built, ghost m: Mark) returns (ok: bool)
    requires Works(server, m) && Addressable(server.graph, state, built, m.graph.next)
    requires Distinct(SessionIds(state.sessions))
    requires forall s | s in state.sessions :: SessionOk(s, Elements(WindowIds(state.windows)))
    requires forall s | s in state.sessions ::
               && Told(server.looks, CurrentOf(built.sessions[s.id])) == None
               && Told(server.looks, PreviousOf(built.sessions[s.id])) == None
    modifies server
    ensures Works(server, m) && server.graph == old(server.graph)
    ensures ok ==> forall s | s in state.sessions :: SessionTold(server.looks, s, built)
    ensures forall slot: Slot | !OfSession(slot) :: Told(server.looks, slot) == Told(old(server.looks), slot)
    ensures !ok ==> server.faults > m.faults
  {
    hide Works, Told, SessionTold, Injective, Distinct, SessionOk;
    var sessions := state.sessions;
    for i := 0 to |sessions|
      invariant Works(server, m) && server.graph == old(server.graph)
      invariant forall k | 0 <= k < i :: SessionTold(server.looks, sessions[k], built)
      invariant forall k | i <= k < |sessions| ::
                  && Told(server.looks, CurrentOf(built.sessions[sessions[k].id])) == None
                  && Told(server.looks, PreviousOf(built.sessions[sessions[k].id])) == None
      invariant forall slot: Slot | !OfSession(slot) :: Told(server.looks, slot) == Told(old(server.looks), slot)
    {
      ghost var looks := server.looks;
      var live := built.sessions[sessions[i].id];
      ok := TellSession(server, sessions[i], state, built, m);
      if !ok { return; }
      forall k | 0 <= k < |sessions| && k != i ensures built.sessions[sessions[k].id] != live {
        SessionsDiffer(sessions, built.sessions, i, k);
      }
      forall k | 0 <= k < i ensures SessionTold(server.looks, sessions[k], built) {
        SessionToldStays(looks, server.looks, sessions[k], built, live);
      }
      forall k | i < k < |sessions|
        ensures Told(server.looks, CurrentOf(built.sessions[sessions[k].id])) == None
        ensures Told(server.looks, PreviousOf(built.sessions[sessions[k].id])) == None
      {
        assert CurrentOf(built.sessions[sessions[k].id]).id != live;
        assert PreviousOf(built.sessions[sessions[k].id]).id != live;
      }
    }
    ok := true;
  }

  lemma SessionsDiffer(sessions: seq<Session>, live: map<string, nat>, i: nat, k: nat)
    requires Distinct(SessionIds(sessions)) && Injective(live) && i < |sessions| && k < |sessions| && i != k
    requires sessions[i].id in live && sessions[k].id in live
    ensures live[sessions[i].id] != live[sessions[k].id]
  {
    assert SessionIds(sessions)[i] != SessionIds(sessions)[k];
  }

  /** Nothing was told yet to what was created after the bound, but how to be named and sized meanwhile. */
  ghost predicate Blank(looks: map<Slot, Word>, bound: nat) {
    forall slot: Slot | slot.id >= bound && !OfMaking(slot) && !slot.AttachedTo? :: Told(looks, slot) == None
  }

  /** Windows, panes and sessions of the copy were told what the saved ones were. */
  ghost predicate Dressed(looks: map<Slot, Word>, state: State, built: Built, shell: Option<string>) {
    && (forall w | w in state.windows ::
          && w.id in built.windows && (w.activePane.Some? ==> w.activePane.value in built.panes)
          && WindowTold(looks, w, built) && ZoomTold(looks, w, built))
    && (forall p | p in AllPanes(state.windows) ::
          p.id in built.panes && ProgramTold(looks, p, built, shell) && TitleTold(looks, p, built))
    && (forall s | s in state.sessions :: s.id in built.sessions && SessionTold(looks, s, built))
  }

  lemma BlankParts(looks: map<Slot, Word>, g: Graph, state: State, built: Built, bound: nat)
    requires Blank(looks, bound) && Addressable(g, state, built, bound)
    ensures forall w | w in state.windows ::
              && Told(looks, ActivePaneOf(built.windows[w.id])) == None
              && Told(looks, ZoomOf(built.windows[w.id])) == None
    ensures forall p | p in AllPanes(state.windows) ::
              && p.id in built.panes
              && Told(looks, ProgramOf(built.panes[p.id])) == None
              && Told(looks, TitleOf(built.panes[p.id])) == None
    ensures forall s | s in state.sessions ::
              && Told(looks, CurrentOf(built.sessions[s.id])) == None
              && Told(looks, PreviousOf(built.sessions[s.id])) == None
  {
    hide Injective, Told, Blank, LinkAddressable;
    PanesOfWindows(state.windows);
    forall w | w in state.windows
      ensures Told(looks, ActivePaneOf(built.windows[w.id])) == None && Told(looks, ZoomOf(built.windows[w.id])) == None
    {
      BlankAt(looks, bound, built.windows[w.id]);
    }
    forall p | p in AllPanes(state.windows)
      ensures p.id in built.panes
      ensures Told(looks, ProgramOf(built.panes[p.id])) == None && Told(looks, TitleOf(built.panes[p.id])) == None
    {
      var w :| w in state.windows && p in w.panes;
      BlankAt(looks, bound, built.panes[p.id]);
    }
    forall s | s in state.sessions
      ensures Told(looks, CurrentOf(built.sessions[s.id])) == None
      ensures Told(looks, PreviousOf(built.sessions[s.id])) == None
    {
      BlankAt(looks, bound, built.sessions[s.id]);
    }
  }

  lemma BlankAt(looks: map<Slot, Word>, bound: nat, id: nat)
    requires Blank(looks, bound) && id >= bound
    ensures Told(looks, ActivePaneOf(id)) == None && Told(looks, ZoomOf(id)) == None
    ensures Told(looks, ProgramOf(id)) == None && Told(looks, TitleOf(id)) == None
    ensures Told(looks, CurrentOf(id)) == None && Told(looks, PreviousOf(id)) == None
  {
    hide Told;
    assert ActivePaneOf(id).id == id && ZoomOf(id).id == id && ProgramOf(id).id == id;
    assert TitleOf(id).id == id && CurrentOf(id).id == id && PreviousOf(id).id == id;
  }

  lemma StateParts(state: State)
    requires WellFormed(state)
    ensures Distinct(WindowIds(state.windows)) && Distinct(SessionIds(state.sessions))
    ensures Distinct(PaneIds(AllPanes(state.windows)))
    ensures forall s | s in state.sessions :: SessionOk(s, Elements(WindowIds(state.windows)))
  {
  }

  /** Dresses the copy. Without tmux failures that succeeds exactly when every zoomed window has an active pane and
      every program can be put into a command. */
  method FinishSessions(server: Server, state: State, built: Built, shell: Option<string>, ghost m: Mark)
    returns (ok: bool)
    requires Works(server, m) && WellFormed(state) && Rebuilt(server.graph, state, built)
    requires NewCopy(m.graph, server.graph, built) && Blank(server.looks, m.graph.next)
    modifies server
    ensures Works(server, m) && server.graph == old(server.graph)
    ensures ok ==> ZoomKnown(state) && LaunchKnown(state, shell)
    ensures ok ==> Dressed(server.looks, state, built, shell)
    ensures ok ==> forall slot: Slot | slot.AttachedTo? :: Told(server.looks, slot) == Told(old(server.looks), slot)
    ensures !ok && ZoomKnown(state) && LaunchKnown(state, shell) ==> server.faults > m.faults
  {
    hide Works, Rebuilt, WellFormed, Addressable, LaunchKnown, Blank, NewCopy, Told, WindowTold, ZoomTold, ProgramTold,
         TitleTold, SessionTold, Distinct, SessionOk, ZoomKnown, Dressed;
    StateParts(state);
    RebuiltAddressable(m.graph, server.graph, state, built);
    BlankParts(server.looks, server.graph, state, built, m.graph.next);
    AddressableWindows(server.graph, state, built, m.graph.next);
    ok := RestoreProperties(server, state, built, m);
    if !ok { return; }
    ghost var l1 := server.looks;
    ok := StartPanes(server, shell, state, built, m);
    if !ok { return; }
    ghost var l2 := server.looks;
    ok := RestoreZoomed(server, state, built, m);
    if !ok { return; }
    ghost var l3 := server.looks;
    ok := RestoreSelections(server, state, built, m);
    if !ok { return; }
    ghost var l4 := server.looks;
    ok := RestoreTitles(server, state, built, m);
    if !ok { return; }
    NoWindowSlot(state, built);
    AllDressed(l1, l2, l3, l4, server.looks, state, built, shell);
  }

  lemma AddressableWindows(g: Graph, state: State, built: Built, bound: nat)
    requires Addressable(g, state, built, bound)
    ensures forall w | w in state.windows ::
              w.id in built.windows && (w.activePane.Some? ==> w.activePane.value in built.panes)
    ensures forall s | s in state.sessions :: s.id in built.sessions
  {
  }

  lemma NoWindowSlot(state: State, built: Built)
    requires forall p | p in AllPanes(state.windows) :: p.id in built.panes
    ensures forall slot: Slot :: Respawned(AllPanes(state.windows), built, slot) ==> slot.ProgramOf?
  {
  }

  /** No later step undoes an earlier one. */
  lemma AllDressed(l1: map<Slot, Word>, l2: map<Slot, Word>, l3: map<Slot, Word>, l4: map<Slot, Word>,
                   l5: map<Slot, Word>, state: State, built: Built, shell: Option<string>)
    requires forall w | w in state.windows ::
               w.id in built.windows && (w.activePane.Some? ==> w.activePane.value in built.panes)
    requires forall p | p in AllPanes(state.windows) :: p.id in built.panes
    requires forall s | s in state.sessions :: s.id in built.sessions
    requires forall w | w in state.windows :: WindowTold(l1, w, built) && ZoomTold(l3, w, built)
    requires forall p | p in AllPanes(state.windows) :: ProgramTold(l2, p, built, shell) && TitleTold(l5, p, built)
    requires forall s | s in state.sessions :: SessionTold(l4, s, built)
    requires forall slot: Slot | !slot.ProgramOf? :: Told(l2, slot) == Told(l1, slot)
    requires forall slot: Slot | !slot.ZoomOf? :: Told(l3, slot) == Told(l2, slot)
    requires forall slot: Slot | !OfSession(slot) :: Told(l4, slot) == Told(l3, slot)
    requires forall slot: Slot | !slot.TitleOf? :: Told(l5, slot) == Told(l4, slot)
    ensures Dressed(l5, state, built, shell)
  {
    hide Told;
    forall w | w in state.windows ensures WindowTold(l5, w, built) && ZoomTold(l5, w, built) {
      WindowKept(l1, l2, l3, l4, l5, w, built);
    }
    forall p | p in AllPanes(state.windows) ensures ProgramTold(l5, p, built, shell) {
      assert Told(l5, ProgramOf(built.panes[p.id])) == Told(l2, ProgramOf(built.panes[p.id]));
    }
    forall s | s in state.sessions ensures SessionTold(l5, s, built) {
      assert Told(l5, CurrentOf(built.sessions[s.id])) == Told(l4, CurrentOf(built.sessions[s.id]));
      assert Told(l5, PreviousOf(built.sessions[s.id])) == Told(l4, PreviousOf(built.sessions[s.id]));
    }
  }

  lemma WindowKept(l1: map<Slot, Word>, l2: map<Slot, Word>, l3: map<Slot, Word>, l4: map<Slot, Word>,
                   l5: map<Slot, Word>, w: Window, built: Built)
    requires w.id in built.windows && (w.activePane.Some? ==> w.activePane.value in built.panes)
    requires WindowTold(l1, w, built) && ZoomTold(l3, w, built)
    requires forall slot: Slot | !slot.ProgramOf? :: Told(l2, slot) == Told(l1, slot)
    requires forall slot: Slot | !slot.ZoomOf? :: Told(l3, slot) == Told(l2, slot)
    requires forall slot: Slot | !OfSession(slot) :: Told(l4, slot) == Told(l3, slot)
    requires forall slot: Slot | !slot.TitleOf? :: Told(l5, slot) == Told(l4, slot)
    ensures WindowTold(l5, w, built) && ZoomTold(l5, w, built)
  {
    hide Told;
    assert forall slot: Slot | OfWindow(slot) :: Told(l5, slot) == Told(l1, slot);
    assert forall slot: Slot | slot.ZoomOf? :: Told(l5, slot) == Told(l3, slot);
    var live := built.windows[w.id];
    assert OfWindow(NameOf(live)) && OfWindow(LayoutOf(live)) && OfWindow(ManualSizeOf(live));
    assert OfWindow(AutomaticRenameOf(live)) && OfWindow(ActivePaneOf(live)) && ZoomOf(live).ZoomOf?;
  }

  // ----- Rolling back -----

  /** The first rows' terminals, where still attached, are on the session they were listed on. */
  ghost predicate Homed(rows: seq<ClientRow>, count: nat, clients: map<string, Client>) {
    forall k | 0 <= k < count && k < |rows| && !rows[k].control && rows[k].name in clients ::
      clients[rows[k].name].session == rows[k].session
  }

  ghost predicate RowsKnown(rows: seq<ClientRow>, g0: Graph, clients: map<string, Client>) {
    && NamesDiffer(rows)
    && (forall k | 0 <= k < |rows| ::
          && rows[k].session in g0.sessions
          && (rows[k].name in clients ==> clients[rows[k].name].control == rows[k].control))
  }

  /** Every ordinary terminal that is still attached is on the session it was on. */
  ghost predicate AtHome(homes: map<string, Client>, clients: map<string, Client>) {
    forall n | n in clients && !clients[n].control :: n in homes && clients[n].session == homes[n].session
  }

  ghost predicate HasRow(rows: seq<ClientRow>, name: string, session: nat) {
    exists k :: 0 <= k < |rows| && rows[k].name == name && !rows[k].control && rows[k].session == session
  }

  /** Every ordinary terminal that is still attached was listed, with the session it was on. */
  ghost predicate Covered(rows: seq<ClientRow>, homes: map<string, Client>, clients: map<string, Client>) {
    forall n | n in clients && !clients[n].control :: n in homes && HasRow(rows, n, homes[n].session)
  }

  /** The terminals are listed, or have not been touched. */
  ghost predicate Settled(rows: seq<ClientRow>, homes: map<string, Client>, clients: map<string, Client>) {
    Covered(rows, homes, clients) || (rows == [] && AtHome(homes, clients))
  }

  lemma CoveredFewer(rows: seq<ClientRow>, homes: map<string, Client>, before: map<string, Client>,
                     after: map<string, Client>)
    requires Covered(rows, homes, before)
    requires after.Keys <= before.Keys && forall n | n in after :: after[n].control == before[n].control
    ensures Covered(rows, homes, after)
  {
    hide HasRow;
  }

  lemma HomedIsHome(rows: seq<ClientRow>, homes: map<string, Client>, clients: map<string, Client>)
    requires Settled(rows, homes, clients) && Homed(rows, |rows|, clients)
    ensures AtHome(homes, clients)
  {
    if Covered(rows, homes, clients) {
      forall n | n in clients && !clients[n].control ensures n in homes && clients[n].session == homes[n].session {
        assert HasRow(rows, n, homes[n].session);
      }
    }
  }

  lemma KeptIsHome(homes: map<string, Client>, clients: map<string, Client>)
    requires Kept(homes, clients)
    ensures Settled([], homes, clients)
  {
  }

  lemma ListedIsCovered(rows: seq<ClientRow>, homes: map<string, Client>, clients: map<string, Client>)
    requires Lists(rows, clients) && Kept(homes, clients)
    ensures Covered(rows, homes, clients)
  {
    forall n | n in clients && !clients[n].control ensures HasRow(rows, n, homes[n].session) {
      var k :| 0 <= k < |rows| && rows[k].name == n;
      assert clients[n] == Client(rows[k].session, rows[k].control, rows[k].activity);
    }
  }

  /** Sessions may have gone or have other names, but those left use the lists they used, as they were. */
  ghost predicate ListsKept(before: Graph, after: Graph) {
    && after.baseIndex == before.baseIndex
    && forall x | x in after.sessions ::
         && x in before.sessions && after.sessions[x].list == before.sessions[x].list
         && (HasList(before, x) ==> HasList(after, x) && ListOf(after, x) == ListOf(before, x))
  }

  lemma ListsKeptStep(before: Graph, g: Graph, c: Command)
    requires ListsKept(before, g) && Enabled(g, c) && (c.KillSession? || c.RenameSession?)
    ensures ListsKept(before, Effect(g, c))
  {
  }

  /** A session left over is one whose window never left the place `new-session` put it. */
  ghost predicate Stray(g0: Graph, g: Graph, orphan: Option<nat>) {
    orphan.Some? && orphan.value in g.sessions ==>
      g0.next <= orphan.value && HasList(g, orphan.value) && ListOf(g, orphan.value).Keys == {g.baseIndex}
  }

  /** A session that may have been left over is still live, under the name it was given. */
  ghost predicate LeftAlone(before: Graph, after: Graph, orphan: Option<nat>) {
    orphan.Some? && orphan.value in before.sessions ==>
      orphan.value in after.sessions && after.sessions[orphan.value] == before.sessions[orphan.value]
  }

  /** The name that a session left over has taken. */
  ghost function TakenName(g: Graph, orphan: Option<nat>): Option<string> {
    if orphan.Some? && orphan.value in g.sessions then Some(g.sessions[orphan.value].name) else None
  }

  lemma TrackedIsStray(g0: Graph, gm: Graph, half: Graph, g: Graph, backups: seq<Backup>, renamed: nat,
                       created: seq<nat>, orphan: Option<nat>)
    requires RenamedSome(g0, gm, backups, renamed) && Tracked(gm, half, created, orphan) && ListsKept(half, g)
    ensures Stray(g0, g, orphan)
  {
  }

  lemma RowsStillKnown(rows: seq<ClientRow>, g0: Graph, before: map<string, Client>, after: map<string, Client>)
    requires RowsKnown(rows, g0, before)
    requires after.Keys <= before.Keys && forall n | n in after :: after[n].control == before[n].control
    ensures RowsKnown(rows, g0, after)
  {
  }

  lemma HomedNext(rows: seq<ClientRow>, k: nat, before: map<string, Client>, after: map<string, Client>)
    requires Homed(rows, k, before) && k < |rows| && NamesDiffer(rows)
    requires OnlyMoved(before, after, rows[k].name)
    requires !rows[k].control && rows[k].name in after ==> after[rows[k].name].session == rows[k].session
    ensures Homed(rows, k + 1, after)
  {
  }

  lemma {:induction false} BackupFound(backups: seq<Backup>, session: nat)
    requires exists k :: 0 <= k < |backups| && backups[k].id == session
    ensures FindBackup(backups, session).Some? && FindBackup(backups, session).value.id == session
    decreases |backups|
  {
    if backups[0].id != session {
      var k :| 0 <= k < |backups| && backups[k].id == session;
      assert backups[1..][k - 1] == backups[k];
      BackupFound(backups[1..], session);
    }
  }

  ghost predicate InSessions(clients: map<string, Client>, g: Graph) {
    forall n | n in clients :: clients[n].session in g.sessions
  }

  ghost predicate CoversSessions(backups: seq<Backup>, g0: Graph) {
    forall s | s in g0.sessions :: exists k :: 0 <= k < |backups| && backups[k].id == s
  }

  method SwitchBack(server: Server, rows: seq<ClientRow>, backups: seq<Backup>, ghost homes: map<string, Client>,
                    ghost g0: Graph, ghost trace0: seq<Graph>) returns (complete: bool)
    requires Guarded(server, g0, trace0) && RowsKnown(rows, g0, server.clients) && CoversSessions(backups, g0)
    requires Settled(rows, homes, server.clients)
    modifies server
    ensures Guarded(server, g0, trace0) && server.graph == old(server.graph)
    ensures server.faults >= old(server.faults) && server.failedMoves == old(server.failedMoves)
    ensures server.looks == old(server.looks)
    ensures complete ==> AtHome(homes, server.clients)
    ensures !complete ==> server.faults > old(server.faults)
  {
    hide Reversible, CoversSessions, Homed, NamesDiffer, Settled, AtHome, Covered;
    complete := true;
    HomedNone(rows, server.clients);
    for k := 0 to |rows|
      invariant Settled(rows, homes, server.clients)
      invariant Guarded(server, g0, trace0) && server.graph == old(server.graph)
      invariant server.faults >= old(server.faults) && server.failedMoves == old(server.failedMoves)
      invariant server.looks == old(server.looks)
      invariant server.clients.Keys <= old(server.clients).Keys
      invariant RowsKnown(rows, g0, server.clients)
      invariant complete ==> Homed(rows, k, server.clients)
      invariant !complete ==> server.faults > old(server.faults)
    {
      ghost var before := server.clients;
      if !rows[k].control {
        SessionCovered(backups, g0, rows[k].session);
        var backup := FindBackup(backups, rows[k].session);
        var output := RunGuarded(server, SwitchClient(rows[k].name, backup.value.id), g0, trace0);
        if output.None? {
          var attached := server.ListClients();
          if attached.None? || OrdinaryAttached(attached.value, rows[k].name) {
            complete := false;
          }
        }
        RowsStillKnown(rows, g0, before, server.clients);
        SettledFewer(rows, homes, before, server.clients);
      }
      if complete {
        HomedNext(rows, k, before, server.clients);
      }
    }
    if complete {
      HomedIsHome(rows, homes, server.clients);
    }
  }

  lemma SettledFewer(rows: seq<ClientRow>, homes: map<string, Client>, before: map<string, Client>,
                     after: map<string, Client>)
    requires Settled(rows, homes, before) && rows != []
    requires after.Keys <= before.Keys && forall n | n in after :: after[n].control == before[n].control
    ensures Settled(rows, homes, after)
  {
    CoveredFewer(rows, homes, before, after);
  }

  lemma HomedNone(rows: seq<ClientRow>, clients: map<string, Client>)
    ensures Homed(rows, 0, clients)
  {
  }

  lemma SessionCovered(backups: seq<Backup>, g0: Graph, session: nat)
    requires CoversSessions(backups, g0) && session in g0.sessions
    ensures FindBackup(backups, session).Some? && FindBackup(backups, session).value.id == session
  {
    BackupFound(backups, session);
  }

  /** Besides the old sessions only the created ones below `count`, and the orphan, are left. */
  ghost predicate KilledDownTo(gm: Graph, g: Graph, created: seq<nat>, count: nat, orphan: Option<nat>) {
    && Untouched(gm, g)
    && count <= |created|
    && (forall k | 0 <= k < count :: created[k] in g.sessions)
    && (forall x | x in g.sessions ::
          x in gm.sessions || orphan == Some(x) || exists k :: 0 <= k < count && created[k] == x)
    && (orphan.Some? ==> orphan.value in g.sessions)
  }

  ghost predicate CreatedAfter(gm: Graph, created: seq<nat>, orphan: Option<nat>) {
    && Valid(gm) && Tidy(gm) && Distinct(created)
    && (forall x | x in created :: x >= gm.next && orphan != Some(x))
    && (orphan.Some? ==> orphan.value >= gm.next)
  }

  lemma KillStart(gm: Graph, g: Graph, created: seq<nat>, orphan: Option<nat>)
    requires Valid(gm) && Tidy(gm) && Untouched(gm, g) && Tracked(gm, g, created, orphan)
    ensures KilledDownTo(gm, g, created, |created|, orphan) && CreatedAfter(gm, created, orphan)
  {
    hide Tidy;
  }

  lemma RenamedTidy(g0: Graph, gm: Graph, backups: seq<Backup>, count: nat)
    requires RenamedSome(g0, gm, backups, count) && Tidy(g0)
    ensures Tidy(gm)
  {
    forall l | l in gm.lists ensures exists s :: s in gm.sessions && gm.sessions[s].list == l {
      var s :| s in g0.sessions && g0.sessions[s].list == l;
      assert gm.sessions[s].list == l;
    }
  }

  lemma KillStep(gm: Graph, g: Graph, created: seq<nat>, count: nat, orphan: Option<nat>)
    requires CreatedAfter(gm, created, orphan) && count < |created|
    requires KilledDownTo(gm, g, created, count + 1, orphan)
    ensures var c := KillSession(created[count]);
            Enabled(g, c) && KilledDownTo(gm, Effect(g, c), created, count, orphan)
  {
    hide Tidy;
    assert created[count] in created;
    forall k | 0 <= k < count ensures created[k] != created[count] {}
    KillSessionKeepsUntouched(gm, g, KillSession(created[count]));
  }

  /** Whatever the old sessions use is still there when a new session goes. */
  lemma KillKeepsLive(g0: Graph, g: Graph, x: nat)
    requires OriginalsLive(g0, g) && Tidy(g0) && x !in g0.sessions && x in g.sessions
    ensures OriginalsLive(g0, Effect(g, KillSession(x)))
  {
    var after := Effect(g, KillSession(x));
    forall l | l in g0.lists ensures l in after.lists {
      var s :| s in g0.sessions && g0.sessions[s].list == l;
      assert s in g.sessions && s != x && g.sessions[s].list == l;
    }
    forall w | w in g0.windows ensures w in after.windows {
      var l :| l in g0.lists && Contains(g0.lists[l], w);
      assert l in after.lists && Contains(after.lists[l], w);
    }
  }

  lemma NewIsNotOld(g0: Graph, gm: Graph, created: seq<nat>, orphan: Option<nat>, k: nat)
    requires CreatedAfter(gm, created, orphan) && k < |created| && g0.sessions.Keys == gm.sessions.Keys
    ensures created[k] !in g0.sessions && orphan != Some(created[k])
  {
    assert created[k] in created;
  }

  /** A kill of a new session moves none of the terminals that are back on old sessions. */
  lemma HomeAfterKill(homes: map<string, Client>, g0: Graph, before: map<string, Client>, after: map<string,
                      Client>, x: nat)
    requires AtHome(homes, before) && x !in g0.sessions && InSessions(homes, g0)
    requires after.Keys <= before.Keys && forall n | n in after :: after[n].control == before[n].control
    requires forall n | n in after :: after[n] == before[n] || before[n].session == x
    ensures AtHome(homes, after)
  {
  }

  lemma HomeAfterDetach(homes: map<string, Client>, before: map<string, Client>, after: map<string, Client>)
    requires AtHome(homes, before) && Kept(before, after)
    ensures AtHome(homes, after)
  {
  }

  method KillCreated(server: Server, created: seq<nat>, complete0: bool, ghost homes: map<string, Client>,
                     ghost gm: Graph,
                     ghost orphan: Option<nat>, ghost g0: Graph, ghost trace0: seq<Graph>)
    returns (complete: bool)
    requires Guarded(server, g0, trace0) && InSessions(homes, g0) && Tidy(g0)
    requires CreatedAfter(gm, created, orphan) && g0.sessions.Keys == gm.sessions.Keys
    requires KilledDownTo(gm, server.graph, created, |created|, orphan)
    requires complete0 ==> AtHome(homes, server.clients)
    modifies server
    ensures Guarded(server, g0, trace0) && ListsKept(old(server.graph), server.graph)
    ensures LeftAlone(old(server.graph), server.graph, orphan)
    ensures server.faults >= old(server.faults) && server.failedMoves == old(server.failedMoves)
    ensures server.looks == old(server.looks)
    ensures complete ==> complete0 && KilledDownTo(gm, server.graph, created, 0, orphan)
    ensures complete ==> AtHome(homes, server.clients)
    ensures !complete ==> !complete0 || server.faults > old(server.faults)
  {
    hide OriginalsLive, Reversible, AtHome, KilledDownTo, CreatedAfter, ListsKept, InSessions, Tidy, KeptLists, OnlyIn;
    complete := complete0;
    var clean := true;
    NothingMoved(server.graph);
    for k := |created| downto 0
      invariant Guarded(server, g0, trace0) && ListsKept(old(server.graph), server.graph)
      invariant LeftAlone(old(server.graph), server.graph, orphan)
      invariant server.faults >= old(server.faults) && server.failedMoves == old(server.failedMoves)
      invariant server.looks == old(server.looks)
      invariant complete <==> complete0 && clean
      invariant !clean ==> server.faults > old(server.faults)
      invariant clean ==> KilledDownTo(gm, server.graph, created, k, orphan)
      invariant complete ==> AtHome(homes, server.clients)
    {
      ghost var before := server.clients;
      NewIsNotOld(g0, gm, created, orphan, k);
      if clean {
        KillStep(gm, server.graph, created, k, orphan);
      }
      if created[k] in server.graph.sessions {
        KillKeepsLive(g0, server.graph, created[k]);
        ListsKeptStep(old(server.graph), server.graph, KillSession(created[k]));
      }
      var output := RunGuarded(server, KillSession(created[k]), g0, trace0);
      if output.None? {
        complete := false;
        clean := false;
      }
      if complete {
        HomeAfterKill(homes, g0, before, server.clients, created[k]);
      }
    }
  }

  lemma NothingMoved(g: Graph)
    ensures ListsKept(g, g)
  {
  }

  /** Everything old is back as it was, and nothing else is live but the orphan. */
  ghost predicate RestoredExactly(g0: Graph, g: Graph, orphan: Option<nat>) {
    && OriginalsLive(g0, g)
    && (forall s | s in g0.sessions :: g.sessions[s] == g0.sessions[s])
    && (forall x | x in g.sessions :: x in g0.sessions || orphan == Some(x))
  }

  /** The name a session ends with when nothing fails: its own, unless that has been taken. */
  function NameAfter(b: Backup, taken: Option<string>): string {
    if taken == Some(b.originalName) then b.temporaryName else b.originalName
  }

  /** The sessions of the first `count` backups still carry temporary names, the others their own,
      except the one whose name the orphan has taken. */
  ghost predicate NamesAt(g0: Graph, g: Graph, backups: seq<Backup>, count: nat, orphan: Option<nat>) {
    && count <= |backups| && OriginalsLive(g0, g)
    && (forall k | 0 <= k < count ::
          backups[k].id in g.sessions && g.sessions[backups[k].id].name == backups[k].temporaryName)
    && (forall k | count <= k < |backups| ::
          backups[k].id in g.sessions
          && g.sessions[backups[k].id].name == NameAfter(backups[k], TakenName(g, orphan)))
    && (forall x | x in g.sessions :: x in g0.sessions || orphan == Some(x))
    && (orphan.Some? ==> orphan.value in g.sessions && orphan.value !in g0.sessions)
  }

  /** A session can take its own name back exactly when the orphan has not taken it. */
  lemma NameBackFree(g0: Graph, g: Graph, target: seq<TargetSession>, backups: seq<Backup>, count: nat,
                     orphan: Option<nat>)
    requires Describes(target, g0) && BackupsFor(backups, target) && count < |backups|
    requires NamesAt(g0, g, backups, count + 1, orphan)
    ensures Enabled(g, RenameSession(backups[count].id, backups[count].originalName))
            <==> TakenName(g, orphan) != Some(backups[count].originalName)
  {
    assert target[count].id in g0.sessions;
    forall t | t in g.sessions && t != backups[count].id && t in g0.sessions
      ensures g.sessions[t].name != backups[count].originalName
    {
      var k :| 0 <= k < |target| && target[k].id == t;
      OtherNameDiffers(g0, g, target, backups, count, orphan, k);
    }
  }

  lemma OtherNameDiffers(g0: Graph, g: Graph, target: seq<TargetSession>, backups: seq<Backup>, count: nat,
                         orphan: Option<nat>, k: nat)
    requires Describes(target, g0) && BackupsFor(backups, target) && count < |backups| && k < |backups| && k != count
    requires NamesAt(g0, g, backups, count + 1, orphan)
    ensures backups[k].id in g.sessions && g.sessions[backups[k].id].name != backups[count].originalName
  {
    hide NamesAt, Describes;
    NameIsOneOfTwo(g0, g, backups, count + 1, orphan, k);
    TargetNamesDiffer(target, g0, k, count);
    assert backups[k] in backups && target[count] in target;
  }

  lemma TargetNamesDiffer(target: seq<TargetSession>, g0: Graph, i: nat, j: nat)
    requires Describes(target, g0) && i < |target| && j < |target| && i != j
    ensures target[i].name != target[j].name
  {
  }

  lemma NameIsOneOfTwo(g0: Graph, g: Graph, backups: seq<Backup>, count: nat, orphan: Option<nat>, k: nat)
    requires NamesAt(g0, g, backups, count, orphan) && k < |backups|
    ensures backups[k].id in g.sessions
    ensures var name := g.sessions[backups[k].id].name;
            name == backups[k].temporaryName || name == backups[k].originalName
  {
    hide OriginalsLive, TakenName;
  }

  lemma NamesStart(g0: Graph, gm: Graph, g: Graph, backups: seq<Backup>, renamed: nat, created: seq<nat>,
                   orphan: Option<nat>)
    requires RenamedSome(g0, gm, backups, renamed) && OriginalsLive(g0, g) && CreatedAfter(gm, created, orphan)
    requires KilledDownTo(gm, g, created, 0, orphan) && (orphan.Some? ==> renamed == |backups|)
    ensures NamesAt(g0, g, backups, renamed, orphan)
  {
  }

  /** A name that was refused stays temporary, and so it should. */
  lemma NamesRefused(g0: Graph, g: Graph, backups: seq<Backup>, count: nat, orphan: Option<nat>)
    requires NamesAt(g0, g, backups, count + 1, orphan) && count < |backups|
    requires TakenName(g, orphan) == Some(backups[count].originalName)
    ensures NamesAt(g0, g, backups, count, orphan)
  {
  }

  lemma NamesStep(g0: Graph, g: Graph, target: seq<TargetSession>, backups: seq<Backup>, count: nat,
                  orphan: Option<nat>)
    requires Describes(target, g0) && BackupsFor(backups, target) && count < |backups|
    requires NamesAt(g0, g, backups, count + 1, orphan)
    requires Enabled(g, RenameSession(backups[count].id, backups[count].originalName))
    requires TakenName(g, orphan) != Some(backups[count].originalName)
    ensures NamesAt(g0, Effect(g, RenameSession(backups[count].id, backups[count].originalName)), backups, count,
                    orphan)
  {
    hide NamesAt;
    BackupIdsDiffer(g0, target, backups, count);
    NamesMove(g0, g, backups, count, orphan);
  }

  lemma NamesMove(g0: Graph, g: Graph, backups: seq<Backup>, count: nat, orphan: Option<nat>)
    requires NamesAt(g0, g, backups, count + 1, orphan) && count < |backups|
    requires forall k | 0 <= k < |backups| && k != count :: backups[k].id != backups[count].id
    requires Enabled(g, RenameSession(backups[count].id, backups[count].originalName))
    requires TakenName(g, orphan) != Some(backups[count].originalName)
    requires backups[count].id in g0.sessions
    ensures NamesAt(g0, Effect(g, RenameSession(backups[count].id, backups[count].originalName)), backups, count,
                    orphan)
  {
    var after := Effect(g, RenameSession(backups[count].id, backups[count].originalName));
    assert TakenName(after, orphan) == TakenName(g, orphan);
  }

  /** No session's own name has been taken. */
  ghost predicate Unblocked(backups: seq<Backup>, from: nat, count: nat, taken: Option<string>) {
    forall k | from <= k < count && k < |backups| :: taken != Some(backups[k].originalName)
  }

  lemma NamesEnd(g0: Graph, g: Graph, target: seq<TargetSession>, backups: seq<Backup>, renamed: nat,
                 orphan: Option<nat>)
    requires Describes(target, g0) && BackupsFor(backups, target) && NamesAt(g0, g, backups, 0, orphan)
    requires Unblocked(backups, 0, renamed, TakenName(g, orphan)) && (orphan.Some? ==> renamed == |backups|)
    ensures RestoredExactly(g0, g, orphan)
  {
    forall s | s in g0.sessions ensures g.sessions[s] == g0.sessions[s] {
      var k :| 0 <= k < |target| && target[k].id == s;
      assert g.sessions[backups[k].id].name == backups[k].originalName;
    }
  }

  lemma RenameKeepsLive(g0: Graph, g: Graph, s: nat, name: string)
    requires OriginalsLive(g0, g) && s in g.sessions
    ensures OriginalsLive(g0, g.(sessions := g.sessions[s := g.sessions[s].(name := name)]))
  {
  }

  lemma BackupIsOld(g0: Graph, target: seq<TargetSession>, backups: seq<Backup>, k: nat)
    requires Describes(target, g0) && BackupsFor(backups, target) && k < |backups|
    ensures backups[k].id in g0.sessions
  {
    assert target[k].id in g0.sessions;
  }

  lemma RenameLeavesAlone(before: Graph, g: Graph, s: nat, name: string, orphan: Option<nat>)
    requires LeftAlone(before, g, orphan) && orphan != Some(s) && s in g.sessions
    ensures LeftAlone(before, g.(sessions := g.sessions[s := g.sessions[s].(name := name)]), orphan)
    ensures orphan.Some? && orphan.value in before.sessions ==> TakenName(g, orphan) == TakenName(before, orphan)
  {
  }

  method RenameBack(server: Server, backups: seq<Backup>, renamed: nat, complete0: bool,
                    ghost target: seq<TargetSession>,
                    ghost homes: map<string, Client>, ghost orphan: Option<nat>, ghost g0: Graph,
                    ghost trace0: seq<Graph>)
    returns (complete: bool)
    requires Guarded(server, g0, trace0) && renamed <= |backups|
    requires Describes(target, g0) && BackupsFor(backups, target)
    requires orphan.Some? ==> renamed == |backups| && orphan.value !in g0.sessions
    requires orphan.Some? ==> orphan.value in server.graph.sessions
    requires complete0 ==> NamesAt(g0, server.graph, backups, renamed, orphan)
    requires complete0 ==> AtHome(homes, server.clients)
    modifies server
    ensures Guarded(server, g0, trace0)
    ensures server.faults >= old(server.faults) && server.failedMoves == old(server.failedMoves)
    ensures server.looks == old(server.looks)
    ensures ListsKept(old(server.graph), server.graph) && LeftAlone(old(server.graph), server.graph, orphan)
    ensures complete ==> complete0 && RestoredExactly(g0, server.graph, orphan)
    ensures complete0 ==> AtHome(homes, server.clients)
    ensures complete0 && server.faults == old(server.faults) ==>
              && NamesAt(g0, server.graph, backups, 0, orphan)
              && (complete <==> Unblocked(backups, 0, renamed, TakenName(old(server.graph), orphan)))
  {
    hide OriginalsLive, Reversible, AtHome, ListsKept, NamesAt, Describes, BackupsFor, RestoredExactly, LeftAlone,
         TakenName, Enabled;
    complete := complete0;
    ghost var smooth := complete0;
    ghost var start := server.graph;
    ghost var taken := TakenName(start, orphan);
    NothingMoved(start);
    LeftAsIs(start, orphan);
    for k := renamed downto 0
      invariant Guarded(server, g0, trace0)
      invariant server.faults >= old(server.faults) && server.failedMoves == old(server.failedMoves)
      invariant server.looks == old(server.looks)
      invariant ListsKept(start, server.graph) && LeftAlone(start, server.graph, orphan)
      invariant smooth ==> NamesAt(g0, server.graph, backups, k, orphan)
      invariant smooth ==> (complete <==> Unblocked(backups, k, renamed, taken))
      invariant complete ==> smooth
      invariant smooth ==> complete0
      invariant complete0 ==> AtHome(homes, server.clients)
      invariant complete0 && !smooth ==> server.faults > old(server.faults)
    {
      ghost var before, g := server.clients, server.graph;
      var c := RenameSession(backups[k].id, backups[k].originalName);
      BackupIsOld(g0, target, backups, k);
      TakenStays(start, g, orphan);
      if smooth {
        NameBackFree(g0, g, target, backups, k, orphan);
      }
      if Enabled(g, c) {
        RenamesKnown(g, backups[k].id, backups[k].originalName);
        RenameKeepsLive(g0, g, backups[k].id, backups[k].originalName);
        RenameLeavesAlone(start, g, backups[k].id, backups[k].originalName, orphan);
        ListsKeptStep(start, g, c);
        if smooth {
          NamesStep(g0, g, target, backups, k, orphan);
        }
      } else if smooth {
        NamesRefused(g0, g, backups, k, orphan);
      }
      var output := RunGuarded(server, c, g0, trace0);
      if output.None? {
        complete := false;
        smooth := smooth && !Enabled(g, c);
      }
      if complete0 {
        HomeAfterDetach(homes, before, server.clients);
      }
    }
    TakenStays(start, server.graph, orphan);
    if complete {
      NamesEnd(g0, server.graph, target, backups, renamed, orphan);
    }
  }

  lemma RenamesKnown(g: Graph, s: nat, name: string)
    requires Enabled(g, RenameSession(s, name))
    ensures s in g.sessions
  {
  }

  lemma LeftAsIs(g: Graph, orphan: Option<nat>)
    ensures LeftAlone(g, g, orphan)
  {
  }

  lemma TakenStays(before: Graph, g: Graph, orphan: Option<nat>)
    requires LeftAlone(before, g, orphan) && (orphan.Some? ==> orphan.value in before.sessions)
    ensures TakenName(g, orphan) == TakenName(before, orphan)
    ensures orphan.Some? ==> orphan.value in g.sessions
  {
  }

  /** Puts everything back. Without faults of tmux during the rollback this fails in one case only: a session
      left over carries the name of an old session, which then keeps its temporary name. */
  method Rollback(server: Server, rows: seq<ClientRow>, backups: seq<Backup>, renamed: nat, created: seq<nat>,
                  ghost target: seq<TargetSession>, ghost homes: map<string, Client>, ghost gm: Graph,
                  ghost orphan: Option<nat>, ghost g0: Graph, ghost trace0: seq<Graph>)
    returns (complete: bool)
    requires Guarded(server, g0, trace0) && RowsKnown(rows, g0, server.clients)
    requires Settled(rows, homes, server.clients) && InSessions(homes, g0)
    requires Describes(target, g0) && BackupsFor(backups, target) && Tidy(g0)
    requires RenamedSome(g0, gm, backups, renamed) && Valid(gm) && (orphan.Some? ==> renamed == |backups|)
    requires Untouched(gm, server.graph) && Tracked(gm, server.graph, created, orphan)
    modifies server
    ensures Guarded(server, g0, trace0)
    ensures server.faults >= old(server.faults) && server.failedMoves == old(server.failedMoves)
    ensures server.looks == old(server.looks)
    ensures complete ==> RestoredExactly(g0, server.graph, orphan) && AtHome(homes, server.clients)
    ensures Stray(g0, server.graph, orphan) && LeftAlone(old(server.graph), server.graph, orphan)
    ensures server.faults == old(server.faults) ==>
              && NamesAt(g0, server.graph, backups, 0, orphan)
              && AtHome(homes, server.clients)
              && (complete <==> Unblocked(backups, 0, |backups|, TakenName(old(server.graph), orphan)))
  {
    hide OriginalsLive, Reversible, AtHome, Settled, ListsKept, Stray, InSessions, NamesAt, Describes, BackupsFor,
         RestoredExactly, RenamedSome, Valid, Untouched, LeftAlone, TakenName, Tidy, Tracked, KilledDownTo,
         CreatedAfter, CoversSessions, RowsKnown;
    RenamedTidy(g0, gm, backups, renamed);
    KillStart(gm, server.graph, created, orphan);
    BackupsCover(g0, gm, target, backups, renamed);
    OrphanIsNew(gm, server.graph, created, orphan);
    ghost var half := server.graph;
    complete := SwitchBack(server, rows, backups, homes, g0, trace0);
    complete := KillCreated(server, created, complete, homes, gm, orphan, g0, trace0);
    ghost var killed := server.graph;
    TakenStays(half, killed, orphan);
    if complete {
      NamesStart(g0, gm, server.graph, backups, renamed, created, orphan);
    }
    RenamedCount(g0, gm, backups, renamed);
    complete := RenameBack(server, backups, renamed, complete, target, homes, orphan, g0, trace0);
    ListsKeptOn(half, killed, server.graph);
    LeftAloneOn(half, killed, server.graph, orphan);
    TrackedIsStray(g0, gm, half, server.graph, backups, renamed, created, orphan);
    NothingTaken(half, orphan);
  }

  lemma NothingTaken(g: Graph, orphan: Option<nat>)
    ensures orphan.None? ==> TakenName(g, orphan).None?
  {
  }

  lemma OrphanIsNew(gm: Graph, g: Graph, created: seq<nat>, orphan: Option<nat>)
    requires Valid(gm) && Tracked(gm, g, created, orphan)
    ensures orphan.Some? ==> orphan.value in g.sessions && orphan.value !in gm.sessions
  {
  }

  lemma LeftAloneOn(a: Graph, b: Graph, c: Graph, orphan: Option<nat>)
    requires LeftAlone(a, b, orphan) && LeftAlone(b, c, orphan)
    ensures LeftAlone(a, c, orphan)
  {
  }

  lemma ListsKeptOn(a: Graph, b: Graph, c: Graph)
    requires ListsKept(a, b) && ListsKept(b, c)
    ensures ListsKept(a, c)
  {
  }

  lemma BackupsCover(g0: Graph, gm: Graph, target: seq<TargetSession>, backups: seq<Backup>, renamed: nat)
    requires Describes(target, g0) && BackupsFor(backups, target) && RenamedSome(g0, gm, backups, renamed)
    ensures CoversSessions(backups, g0) && g0.sessions.Keys == gm.sessions.Keys
  {
    forall s | s in g0.sessions ensures exists k :: 0 <= k < |backups| && backups[k].id == s {
      var k :| 0 <= k < |target| && target[k].id == s;
      assert backups[k].id == s;
    }
  }

  lemma RenamedCount(g0: Graph, gm: Graph, backups: seq<Backup>, renamed: nat)
    requires RenamedSome(g0, gm, backups, renamed)
    ensures renamed <= |backups|
  {
  }

  // ----- Committing -----

  /** Killing a session that is not part of the copy leaves the copy as it is: every list and every window
      of the copy is in use by one of its sessions. */
  lemma CopySurvives(g: Graph, state: State, built: Built, x: nat)
    requires Rebuilt(g, state, built) && WellFormed(state) && x in g.sessions
    requires forall s | s in state.sessions :: s.id in built.sessions ==> built.sessions[s.id] != x
    ensures Rebuilt(Effect(g, KillSession(x)), state, built)
  {
    hide Injective, ListExact, WellFormed, WindowShown;
    var after := Effect(g, KillSession(x));
    forall s | s in state.sessions
      ensures HasList(after, built.sessions[s.id])
                && ListOf(after, built.sessions[s.id]) == ListOf(g, built.sessions[s.id])
      ensures after.sessions[built.sessions[s.id]] == g.sessions[built.sessions[s.id]]
    {
      assert built.sessions[s.id] != x;
    }
    forall w | w in state.windows ensures WindowShown(after, w, built.windows, built.panes) {
      WindowInUse(g, state, built, w);
      var s :| s in state.sessions && Contains(ListOf(g, built.sessions[s.id]), built.windows[w.id]);
      assert Contains(after.lists[after.sessions[built.sessions[s.id]].list], built.windows[w.id]);
      WindowStays(g, after, w, built);
    }
  }

  lemma WindowStays(g: Graph, after: Graph, w: Window, built: Built)
    requires WindowShown(g, w, built.windows, built.panes)
    requires built.windows[w.id] in after.windows
               && after.windows[built.windows[w.id]] == g.windows[built.windows[w.id]]
    ensures WindowShown(after, w, built.windows, built.panes)
  {
  }

  lemma WindowInUse(g: Graph, state: State, built: Built, w: Window)
    requires Rebuilt(g, state, built) && WellFormed(state) && w in state.windows
    ensures w.id in built.windows && built.windows[w.id] in g.windows
    ensures exists s :: s in state.sessions && Contains(ListOf(g, built.sessions[s.id]), built.windows[w.id])
  {
    hide Injective;
    assert WindowShown(g, w, built.windows, built.panes);
    assert Owned(state.sessions, w.id);
    var i, k :| 0 <= i < |state.sessions| && 0 <= k < |state.sessions[i].links|
                && state.sessions[i].links[k].windowId == w.id;
    var s := state.sessions[i];
    assert s in state.sessions && ListExact(ListOf(g, built.sessions[s.id]), s.links, built.windows);
    assert ListOf(g, built.sessions[s.id])[s.links[k].index] == built.windows[w.id];
  }

  ghost predicate SurvivorsWarned(g: Graph, backups: seq<Backup>, count: nat, warnings: seq<ApplyWarning>) {
    forall k | 0 <= k < |backups| ::
      backups[k].id in g.sessions <==> (k >= count || BackupSurvives(backups[k]) in warnings)
  }

  method Commit(server: Server, backups: seq<Backup>, warnings0: seq<ApplyWarning>, state: State, ghost built: Built)
    returns (warnings: seq<ApplyWarning>)
    requires Rebuilt(server.graph, state, built) && WellFormed(state)
    requires forall i, j | 0 <= i < j < |backups| :: backups[i].id != backups[j].id
    requires forall k | 0 <= k < |backups| :: backups[k].id in server.graph.sessions
    requires forall k, s | 0 <= k < |backups| && s in state.sessions && s.id in built.sessions ::
               built.sessions[s.id] != backups[k].id
    requires forall b :: BackupSurvives(b) !in warnings0
    modifies server
    ensures Rebuilt(server.graph, state, built)
    ensures old(server.trace) <= server.trace
    ensures forall k | |old(server.trace)| <= k < |server.trace| :: Rebuilt(server.trace[k], state, built)
    ensures SurvivorsWarned(server.graph, backups, |backups|, warnings)
    ensures server.graph.sessions.Keys <= old(server.graph).sessions.Keys
    ensures server.failedMoves == old(server.failedMoves)
    ensures server.looks == old(server.looks) && server.visits == old(server.visits)
    ensures server.clients.Keys <= old(server.clients).Keys
    ensures forall n | n in server.clients :: server.clients[n].control == old(server.clients)[n].control
    ensures warnings0 <= warnings
    ensures forall b | BackupSurvives(b) in warnings :: b in backups
    ensures server.faults - old(server.faults) >= |warnings| - |warnings0|
  {
    hide Rebuilt, WellFormed, KeptLists, OnlyIn;
    warnings := warnings0;
    for i := 0 to |backups|
      invariant Rebuilt(server.graph, state, built)
      invariant old(server.trace) <= server.trace
      invariant forall k | |old(server.trace)| <= k < |server.trace| :: Rebuilt(server.trace[k], state, built)
      invariant SurvivorsWarned(server.graph, backups, i, warnings)
      invariant server.graph.sessions.Keys <= old(server.graph).sessions.Keys
      invariant server.failedMoves == old(server.failedMoves)
      invariant server.looks == old(server.looks) && server.visits == old(server.visits)
      invariant server.clients.Keys <= old(server.clients).Keys
      invariant forall n | n in server.clients :: server.clients[n].control == old(server.clients)[n].control
      invariant warnings0 <= warnings
      invariant forall b | BackupSurvives(b) in warnings :: b in backups[..i]
      invariant server.faults - old(server.faults) >= |warnings| - |warnings0|
    {
      var b := backups[i];
      ghost var g := server.graph;
      assert b !in backups[..i];
      assert b.id in g.sessions;
      CopySurvives(g, state, built, b.id);
      var output := server.Execute(KillSession(b.id));
      if output.None? {
        warnings := warnings + [BackupSurvives(b)];
      }
    }
  }

  // ----- The transaction -----

  /** What a fault-free restore needs besides a snapshot that passed preflight. */
  ghost predicate Ready(state: State, g: Graph, socketKnown: bool, shell: Option<string>) {
    CanPark(state, g) && ZoomKnown(state) && socketKnown && LaunchKnown(state, shell)
  }

  /** How far the reversible part came: the old state under backup names, and what is new. */
  ghost predicate Standstill(server: Server, g0: Graph, trace0: seq<Graph>, gm: Graph, backups: seq<Backup>,
                             renamed: nat, created: seq<nat>, orphan: Option<nat>, rows: seq<ClientRow>)
    reads server
  {
    && Guarded(server, g0, trace0)
    && RenamedSome(g0, gm, backups, renamed) && Valid(gm)
    && Untouched(gm, server.graph) && Tracked(gm, server.graph, created, orphan)
    && RowsKnown(rows, g0, server.clients)
    && (orphan.Some? ==> renamed == |backups|)
  }

  /** A session left over is named like a saved session. */
  ghost predicate NamedLikeSaved(g: Graph, state: State, orphan: Option<nat>) {
    orphan.Some? ==> exists s :: s in state.sessions && Named(g, orphan.value, s.name)
  }

  /** What a failed build leaves over when no command failed that tmux would have accepted: the first session
      of the snapshot, exactly if the server numbers windows from the least index nobody uses. */
  ghost predicate OrphanExactly(g0: Graph, g: Graph, state: State, orphan: Option<nat>)
    requires state.sessions != []
  {
    && (orphan.Some? <==> UnusedWindowIndex(state) == Some(g0.baseIndex))
    && (orphan.Some? ==> Named(g, orphan.value, state.sessions[0].name))
  }

  lemma RowsListed(rows: seq<ClientRow>, g0: Graph, g: Graph, before: map<string, Client>, clients: map<string, Client>)
    requires Lists(rows, clients) && Kept(before, clients) && InSessions(before, g0)
    ensures RowsKnown(rows, g0, clients)
    ensures forall r | r in rows && r.name in clients :: clients[r.name].control == r.control
  {
    forall r | r in rows && r.name in clients ensures clients[r.name].control == r.control {
      var k :| 0 <= k < |rows| && rows[k] == r;
    }
  }

  lemma NothingCreated(gm: Graph)
    ensures Untouched(gm, gm) && Tracked(gm, gm, [], None)
  {
  }

  lemma RowsEmpty(g0: Graph, clients: map<string, Client>)
    ensures RowsKnown([], g0, clients)
  {
  }

  lemma SameBase(g0: Graph, gm: Graph, backups: seq<Backup>, renamed: nat, state: State)
    requires RenamedSome(g0, gm, backups, renamed)
    ensures CanPark(state, g0) <==> CanPark(state, gm)
  {
  }

  lemma OrphanKnown(g0: Graph, gm: Graph, g: Graph, backups: seq<Backup>, renamed: nat, state: State,
                    orphan: Option<nat>)
    requires RenamedSome(g0, gm, backups, renamed) && state.sessions != []
    requires orphan.Some? <==> UnusedWindowIndex(state) == Some(gm.baseIndex)
    requires orphan.Some? ==> Named(g, orphan.value, state.sessions[0].name)
    ensures OrphanExactly(g0, g, state, orphan)
  {
  }

  lemma ParkedNoOrphan(g0: Graph, gm: Graph, g: Graph, backups: seq<Backup>, renamed: nat, state: State)
    requires RenamedSome(g0, gm, backups, renamed) && state.sessions != [] && CanPark(state, gm)
    ensures OrphanExactly(g0, g, state, None)
  {
  }

  lemma CopyFacts(g: Graph, state: State, built: Built, gm: Graph)
    requires Rebuilt(g, state, built) && NewCopy(gm, g, built)
    ensures Injective(built.sessions)
    ensures forall s | s in state.sessions :: s.id in built.sessions && built.sessions[s.id] in g.sessions
    ensures forall id | id in built.sessions :: built.sessions[id] in g.sessions
  {
  }

  lemma RowControls(rows: seq<ClientRow>, g0: Graph, clients: map<string, Client>)
    requires RowsKnown(rows, g0, clients)
    ensures NamesDiffer(rows)
    ensures forall r | r in rows && r.name in clients :: clients[r.name].control == r.control
  {
    forall r | r in rows && r.name in clients ensures clients[r.name].control == r.control {
      var k :| 0 <= k < |rows| && rows[k] == r;
    }
  }

  lemma AfterWorld(server: Server, m: Mark, g0: Graph, trace0: seq<Graph>, rows: seq<ClientRow>,
                   homes: map<string, Client>)
    requires Works(server, m) && trace0 <= m.trace
    requires Reversible(g0, |trace0|, m.trace) && OriginalsLive(g0, m.graph)
    requires RowsKnown(rows, g0, m.clients) && Covered(rows, homes, m.clients)
    ensures Guarded(server, g0, trace0) && Untouched(m.graph, server.graph)
    ensures RowsKnown(rows, g0, server.clients) && Covered(rows, homes, server.clients)
    ensures server.faults >= m.faults && server.failedMoves == m.failedMoves
    ensures Remembered(m.graph.next, m.looks, server.looks) && server.visits == m.visits
  {
    hide OriginalsLive, Untouched, Valid, Reversible, RowsKnown, Covered, Remembered;
    ReversibleAfterBuild(g0, |trace0|, m, server.trace);
    LiveAfterUntouched(g0, m.graph, server.graph);
    RowsStillKnown(rows, g0, m.clients, server.clients);
    CoveredFewer(rows, homes, m.clients, server.clients);
  }

  lemma NoStray(g0: Graph, g: Graph, state: State)
    ensures Stray(g0, g, None) && NamedLikeSaved(g, state, None)
  {
  }

  /** The connection that finishes a restore was attached to the first session of the copy. */
  ghost predicate AttachedToCopy(looks: map<Slot, Word>, state: State, built: Built) {
    && state.sessions != [] && state.sessions[0].id in built.sessions
    && Told(looks, AttachedTo(built.sessions[state.sessions[0].id])) == Some(Flag(true))
  }

  /** Opens the connection that the rest of the run uses. */
  method ConnectToCopy(server: Server, state: State, built: Built, ghost m: Mark) returns (ok: bool)
    requires Works(server, m) && state.sessions != []
    requires Rebuilt(server.graph, state, built) && NewCopy(m.graph, server.graph, built)
    requires Blank(server.looks, m.graph.next)
    modifies server`faults, server`looks
    ensures Works(server, m) && Blank(server.looks, m.graph.next)
    ensures ok ==> AttachedToCopy(server.looks, state, built)
    ensures !ok ==> server.faults > m.faults && server.looks == old(server.looks)
  {
    hide Valid, Untouched, Injective, WindowShown, ListExact;
    assert state.sessions[0] in state.sessions;
    var first := built.sessions[state.sessions[0].id];
    ok := server.Connect(first);
  }

  lemma WorldStarts(server: Server, m: Mark)
    requires m == Mark(server.graph, server.trace, server.clients, server.faults, server.failedMoves, server.looks,
                       server.visits)
    requires Valid(server.graph)
    ensures World(server, m)
  {
    NothingCreated(server.graph);
  }

  lemma CoveredSettles(rows: seq<ClientRow>, homes: map<string, Client>, clients: map<string, Client>)
    requires Covered(rows, homes, clients)
    ensures Settled(rows, homes, clients)
  {
  }

  /** Renames the old sessions and notes where the terminals are. */
  method StepAside(server: Server, target: seq<TargetSession>, backups: seq<Backup>, ghost state: State)
    returns (rows: Option<seq<ClientRow>>, renamed: nat)
    requires Valid(server.graph) && Describes(target, server.graph) && BackupsFor(backups, target)
    requires InSessions(server.clients, server.graph)
    requires forall b, s | b in backups && s in state.sessions :: b.temporaryName != s.name
    modifies server
    ensures Guarded(server, old(server.graph), old(server.trace)) && Valid(server.graph)
    ensures RenamedSome(old(server.graph), server.graph, backups, renamed)
    ensures Kept(old(server.clients), server.clients) && server.failedMoves == old(server.failedMoves)
    ensures server.looks == old(server.looks) && server.visits == old(server.visits)
    ensures rows.None? ==> server.faults > old(server.faults)
    ensures server.faults >= old(server.faults)
    ensures rows.Some? ==>
              && renamed == |backups|
              && RowsKnown(rows.value, old(server.graph), server.clients)
              && Covered(rows.value, old(server.clients), server.clients)
              && (forall s | s in state.sessions :: NameFree(server.graph, s.name))
              && (CanPark(state, old(server.graph)) <==> CanPark(state, server.graph))
  {
    hide Valid, Describes, BackupsFor, OriginalsLive, Reversible, RenamedSome, RowsKnown, NameFree, InSessions,
         CanPark, Covered, Lists;
    ghost var g0, clients0 := server.graph, server.clients;
    var ok;
    ok, renamed := RenameToBackups(server, target, backups);
    RenamedLive(g0, server.graph, backups, renamed);
    if !ok {
      return None, renamed;
    }
    rows := server.ListClients();
    if rows.None? {
      return;
    }
    SameBase(g0, server.graph, backups, renamed, state);
    ListedIsCovered(rows.value, clients0, server.clients);
    RowsListed(rows.value, g0, server.graph, clients0, server.clients);
    NamesCleared(g0, server.graph, target, backups, state.sessions);
  }

  method BuildAndSwitch(server: Server, target: seq<TargetSession>, backups: seq<Backup>, state: State,
                        socketKnown: bool, shell: Option<string>)
    returns (done: Option<SwitchResult>, rows: seq<ClientRow>, renamed: nat, created: seq<nat>, ghost built: Built,
             ghost gm: Graph, ghost orphan: Option<nat>, ghost attached: seq<ClientRow>, ghost ordered: seq<ClientRow>)
    requires Valid(server.graph) && Describes(target, server.graph) && BackupsFor(backups, target)
    requires Buildable(state) && InSessions(server.clients, server.graph)
    requires forall b, s | b in backups && s in state.sessions :: b.temporaryName != s.name
    requires OnlyBelow(server.looks, server.graph.next)
    modifies server
    ensures Standstill(server, old(server.graph), old(server.trace), gm, backups, renamed, created, orphan, rows)
    ensures Settled(rows, old(server.clients), server.clients)
    ensures done.Some? ==> Covered(rows, old(server.clients), server.clients)
    ensures server.faults >= old(server.faults)
    ensures Remembered(old(server.graph).next, old(server.looks), server.looks)
    ensures server.failedMoves == old(server.failedMoves) + (if orphan.Some? then 1 else 0)
    ensures NamedLikeSaved(server.graph, state, orphan)
    ensures done.None? && server.faults == old(server.faults)
            ==> OrphanExactly(old(server.graph), server.graph, state, orphan)
    ensures done.None? && Ready(state, old(server.graph), socketKnown, shell)
            ==> server.faults > old(server.faults)
    ensures done.Some? ==>
              && Ready(state, old(server.graph), socketKnown, shell) && orphan.None?
              && Rebuilt(server.graph, state, built) && NewCopy(gm, server.graph, built)
              && NothingElse(gm, server.graph, state, built)
              && Dressed(server.looks, state, built, shell) && AttachedToCopy(server.looks, state, built)
              && InActivityOrder(rows, ordered)
              && ClientsAccounted(state, backups, built, ordered, done.value, attached, old(server.visits),
                   server.visits)
  {
    hide Valid, Describes, BackupsFor, OriginalsLive, Reversible, RenamedSome, Untouched, Tracked, RowsKnown,
         Buildable, Rebuilt, NameFree, InSessions, CanPark, ZoomKnown, LaunchKnown, ClientsAccounted, NewCopy,
         NothingElse, AtHome, Covered, Lists, OrphanExactly, NamedLikeSaved, UnusedWindowIndex, World, Works,
         Undressed, Remembered, Dressed, Blank, OnlyBelow, InActivityOrder, Settled, Kept, Injective, AttachedToCopy,
         Told;
    ghost var g0, trace0, clients0 := server.graph, server.trace, server.clients;
    done, rows, created, orphan, attached, ordered := None, [], [], None, [], [];
    built := Built(map[], map[], map[]);
    var listed;
    listed, renamed := StepAside(server, target, backups, state);
    gm := server.graph;
    NothingCreated(gm);
    RememberedAll(g0.next, server.looks);
    RowsEmpty(g0, server.clients);
    KeptIsHome(clients0, server.clients);
    NoStray(g0, gm, state);
    if listed.None? {
      return;
    }
    rows := listed.value;
    ghost var m := Mark(gm, server.trace, server.clients, server.faults, server.failedMoves,
                         server.looks, server.visits);
    WorldStarts(server, m);
    var copy;
    copy, created, orphan := BuildSnapshot(server, state, m);
    BuildableParts(state);
    SameNext(g0, gm, backups, renamed);
    WorldWorks(server, Missed(m, orphan));
    AfterWorld(server, Missed(m, orphan), g0, trace0, rows, clients0);
    CoveredSettles(rows, clients0, server.clients);
    LikeSaved(server.graph, state, orphan);
    if copy.None? {
      if server.faults == m.faults {
        OrphanKnown(g0, gm, server.graph, backups, renamed, state, orphan);
      }
      return;
    }
    ParkedNoOrphan(g0, gm, server.graph, backups, renamed, state);
    if !socketKnown {
      return;
    }
    built := copy.value;
    BlankBuilt(m.looks, server.looks, m.graph.next);
    var ok := ConnectToCopy(server, state, copy.value, m);
    if !ok {
      return;
    }
    ghost var looks := server.looks;
    ok := FinishSessions(server, state, copy.value, shell, m);
    AfterWorld(server, m, g0, trace0, rows, clients0);
    CoveredSettles(rows, clients0, server.clients);
    if !ok {
      return;
    }
    AttachedStays(looks, server.looks, state, built);
    CopyFacts(server.graph, state, built, gm);
    RowControls(rows, g0, server.clients);
    ghost var clients, trace := server.clients, server.trace;
    done, attached, ordered := SwitchClients(server, rows, backups, copy.value, state);
    ReversibleQuiet(g0, |trace0|, trace, server.trace, server.graph);
    RowsStillKnown(rows, g0, clients, server.clients);
    CoveredFewer(rows, clients0, clients, server.clients);
    CoveredSettles(rows, clients0, server.clients);
  }

  /** Nothing has been told to what does not exist yet. */
  ghost predicate OnlyBelow(looks: map<Slot, Word>, bound: nat) {
    forall slot | slot in looks :: slot.id < bound
  }

  lemma BlankBuilt(before: map<Slot, Word>, looks: map<Slot, Word>, bound: nat)
    requires OnlyBelow(before, bound) && Undressed(before, looks)
    ensures Blank(looks, bound)
  {
  }

  lemma AttachedStays(looks: map<Slot, Word>, after: map<Slot, Word>, state: State, built: Built)
    requires AttachedToCopy(looks, state, built)
    requires forall slot: Slot | slot.AttachedTo? :: Told(after, slot) == Told(looks, slot)
    ensures AttachedToCopy(after, state, built)
  {
  }

  lemma RememberedAll(bound: nat, looks: map<Slot, Word>)
    ensures Remembered(bound, looks, looks)
  {
  }

  lemma SameNext(g0: Graph, gm: Graph, backups: seq<Backup>, renamed: nat)
    requires RenamedSome(g0, gm, backups, renamed)
    ensures g0.next == gm.next
  {
  }

  lemma WorldWorks(server: Server, m: Mark)
    requires World(server, m)
    ensures Works(server, m) && Undressed(m.looks, server.looks)
  {
  }

  lemma LikeSaved(g: Graph, state: State, orphan: Option<nat>)
    requires orphan.Some? ==> exists s :: s in state.sessions && Named(g, orphan.value, s.name)
    ensures NamedLikeSaved(g, state, orphan)
  {
  }

  /** At no step of the run were both the old and the restored state incomplete. */
  ghost predicate NeverNeither(g0: Graph, trace0: seq<Graph>, trace: seq<Graph>, state: State, built: Built) {
    && trace0 <= trace
    && forall k | |trace0| <= k < |trace| :: OriginalsLive(g0, trace[k]) || Rebuilt(trace[k], state, built)
  }

  lemma ReversibleIsSafe(g0: Graph, trace0: seq<Graph>, trace: seq<Graph>, state: State, built: Built)
    requires trace0 <= trace && Reversible(g0, |trace0|, trace)
    ensures NeverNeither(g0, trace0, trace, state, built)
  {
  }

  lemma CommittedIsSafe(g0: Graph, trace0: seq<Graph>, mid: seq<Graph>, trace: seq<Graph>, state: State, built: Built)
    requires trace0 <= mid <= trace && Reversible(g0, |trace0|, mid)
    requires forall k | |mid| <= k < |trace| :: Rebuilt(trace[k], state, built)
    ensures NeverNeither(g0, trace0, trace, state, built)
  {
    hide Rebuilt, OriginalsLive;
    forall k | |trace0| <= k < |trace| ensures OriginalsLive(g0, trace[k]) || Rebuilt(trace[k], state, built) {
      assert k < |mid| ==> trace[k] == mid[k];
    }
  }

  lemma BackupsLive(server: Server, g0: Graph, trace0: seq<Graph>, target: seq<TargetSession>, backups: seq<Backup>,
                    gm: Graph, renamed: nat, state: State, built: Built)
    requires Guarded(server, g0, trace0) && Describes(target, g0) && BackupsFor(backups, target)
    requires RenamedSome(g0, gm, backups, renamed) && Valid(gm) && NewCopy(gm, server.graph, built)
    ensures forall i, j | 0 <= i < j < |backups| :: backups[i].id != backups[j].id
    ensures forall k | 0 <= k < |backups| :: backups[k].id in server.graph.sessions
    ensures forall k, s | 0 <= k < |backups| && s in state.sessions && s.id in built.sessions ::
              built.sessions[s.id] != backups[k].id
  {
    forall i, j | 0 <= i < j < |backups| ensures backups[i].id != backups[j].id {
      assert target[i].id != target[j].id;
    }
    forall k | 0 <= k < |backups| ensures backups[k].id in server.graph.sessions && backups[k].id < gm.next {
      assert target[k].id in g0.sessions;
    }
  }

  /** Live are the copies of the saved sessions, and backups that could not be removed. */
  ghost predicate OnlyCopies(g: Graph, state: State, built: Built, backups: seq<Backup>) {
    forall x | x in g.sessions ::
      || (exists k :: 0 <= k < |backups| && backups[k].id == x)
      || (exists s :: s in state.sessions && s.id in built.sessions && built.sessions[s.id] == x)
  }

  lemma CopiesOnly(g0: Graph, gm: Graph, g: Graph, after: Graph, state: State, built: Built, backups: seq<Backup>)
    requires NothingElse(gm, g, state, built) && g0.sessions.Keys == gm.sessions.Keys && CoversSessions(backups, g0)
    requires after.sessions.Keys <= g.sessions.Keys
    ensures OnlyCopies(after, state, built, backups)
  {
  }

  /** The first saved session is named like one of the server's sessions. */
  predicate NameCollides(target: seq<TargetSession>, state: State)
    requires state.sessions != []
  {
    exists k :: 0 <= k < |target| && target[k].name == state.sessions[0].name
  }

  lemma OrphanStays(g0: Graph, before: Graph, after: Graph, state: State, orphan: Option<nat>)
    requires LeftAlone(before, after, orphan) && NamedLikeSaved(before, state, orphan)
    ensures NamedLikeSaved(after, state, orphan)
    ensures orphan.Some? ==> orphan.value in after.sessions
    ensures state.sessions != [] && OrphanExactly(g0, before, state, orphan) ==> OrphanExactly(g0, after, state, orphan)
  {
  }

  lemma BlockedExactly(g0: Graph, g: Graph, target: seq<TargetSession>, backups: seq<Backup>, state: State,
                       orphan: Option<nat>)
    requires BackupsFor(backups, target) && state.sessions != [] && OrphanExactly(g0, g, state, orphan)
    ensures Unblocked(backups, 0, |backups|, TakenName(g, orphan))
            <==> !(UnusedWindowIndex(state) == Some(g0.baseIndex) && NameCollides(target, state))
  {
    if orphan.Some? {
      assert TakenName(g, orphan) == Some(state.sessions[0].name);
      forall k | 0 <= k < |target| ensures backups[k].originalName == target[k].name {}
    }
  }

  /** Replaces the server's sessions by the snapshot, or puts everything back. */
  method ApplyInner(server: Server, token: string, target: seq<TargetSession>, state: State, socketKnown: bool,
                    shell: Option<string>)
    returns (result: ApplyResult, backups: seq<Backup>, rows: seq<ClientRow>, ghost built: Built,
             ghost orphan: Option<nat>, ghost attached: seq<ClientRow>, ghost ordered: seq<ClientRow>)
    requires Valid(server.graph) && Tidy(server.graph) && Describes(target, server.graph)
    requires Buildable(state) && InSessions(server.clients, server.graph)
    requires OnlyBelow(server.looks, server.graph.next)
    modifies server
    ensures NeverNeither(old(server.graph), old(server.trace), server.trace, state, built)
    ensures result.Applied? ==>
              && Ready(state, old(server.graph), socketKnown, shell)
              && Rebuilt(server.graph, state, built)
              && OnlyCopies(server.graph, state, built, backups)
              && SurvivorsWarned(server.graph, backups, |backups|, result.warnings)
              && Dressed(server.looks, state, built, shell) && AttachedToCopy(server.looks, state, built)
              && InActivityOrder(rows, ordered)
              && ClientsApplied(state, backups, built, ordered, result, attached, old(server.visits), server.visits)
              && Covered(rows, old(server.clients), server.clients)
    ensures result.Failed? ==> OriginalsLive(old(server.graph), server.graph)
    ensures result.Failed? && Ready(state, old(server.graph), socketKnown, shell)
            ==> server.faults > old(server.faults)
    ensures result.Failed? && result.rollbackComplete ==>
              && RestoredExactly(old(server.graph), server.graph, orphan)
              && AtHome(old(server.clients), server.clients)
    ensures orphan.Some? <==> server.failedMoves > old(server.failedMoves)
    ensures orphan.Some? ==> result.Failed? && orphan.value in server.graph.sessions
    ensures Stray(old(server.graph), server.graph, orphan) && NamedLikeSaved(server.graph, state, orphan)
    ensures result.Failed? && server.faults == old(server.faults) ==>
              && OrphanExactly(old(server.graph), server.graph, state, orphan)
              && NamesAt(old(server.graph), server.graph, backups, 0, orphan)
              && AtHome(old(server.clients), server.clients)
              && (result.rollbackComplete
                  <==> !(UnusedWindowIndex(state) == Some(old(server.graph).baseIndex) && NameCollides(target, state)))
    ensures Remembered(old(server.graph).next, old(server.looks), server.looks)
    ensures BackupsFor(backups, target)
  {
    hide Valid, Tidy, Describes, OriginalsLive, Reversible, RenamedSome, Untouched, Tracked, RowsKnown, Buildable,
         Rebuilt, InSessions, Ready, ClientsAccounted, NewCopy, NeverNeither, SurvivorsWarned, RestoredExactly, AtHome,
         Covered, Settled, Stray, NothingElse, OnlyCopies, NamedLikeSaved, OrphanExactly, NamesAt, LeftAlone,
         Unblocked, NameCollides, TakenName, WellFormed, UnusedWindowIndex, CoversSessions, Dressed, Remembered,
         OnlyBelow, InActivityOrder;
    ghost var g0, trace0 := server.graph, server.trace;
    backups := MakeBackups(token, target, state.sessions);
    assert BackupsFor(backups, target);
    hide BackupsFor;
    BuildableParts(state);
    var done, renamed, created;
    ghost var gm;
    done, rows, renamed, created, built, gm, orphan, attached, ordered :=
      BuildAndSwitch(server, target, backups, state, socketKnown, shell);
    ghost var mid := server.trace;
    ghost var half := server.graph;
    match done {
      case Some(switched) =>
        BackupsLive(server, g0, trace0, target, backups, gm, renamed, state, built);
        BackupsCover(g0, gm, target, backups, renamed);
        var warnings := ClientWarnings(switched.warnings);
        ghost var clientWarnings := warnings;
        ghost var homes, clients := old(server.clients), server.clients;
        warnings := Commit(server, backups, warnings, state, built);
        CopiesOnly(g0, gm, half, server.graph, state, built, backups);
        CoveredFewer(rows, homes, clients, server.clients);
        CommittedIsSafe(g0, trace0, mid, server.trace, state, built);
        NoStray(g0, server.graph, state);
        result := Applied(switched.clients, switched.visibility, warnings);
        assert Survivors(warnings, clientWarnings, switched.warnings);
      case None =>
        ghost var faults := server.faults;
        var complete :=
          Rollback(server, rows, backups, renamed, created, target, old(server.clients), gm, orphan, g0, trace0);
        ReversibleIsSafe(g0, trace0, server.trace, state, built);
        OrphanStays(g0, half, server.graph, state, orphan);
        if server.faults == old(server.faults) {
          BlockedExactly(g0, half, target, backups, state, orphan);
        }
        result := ApplyResult.Failed(complete);
    }
  }

  function ClientWarnings(warnings: seq<ClientWarning>): (r: seq<ApplyWarning>)
    ensures |r| == |warnings|
    ensures forall k | 0 <= k < |warnings| :: r[k] == ClientWarned(warnings[k])
  {
    seq(|warnings|, i requires 0 <= i < |warnings| => ClientWarned(warnings[i]))
  }

  ghost predicate Survivors(all: seq<ApplyWarning>, first: seq<ApplyWarning>, clients: seq<ClientWarning>) {
    first <= all && first == ClientWarnings(clients)
  }

  /** The report's client part, before the warnings about backups. */
  ghost predicate ClientsApplied(state: State, backups: seq<Backup>, built: Built, ordinary: seq<ClientRow>,
                                 result: ApplyResult, attached: seq<ClientRow>, visits0: map<string, seq<nat>>,
                                 visits: map<string, seq<nat>>)
    requires result.Applied? && state.sessions != [] && forall s | s in state.sessions :: s.id in built.sessions
  {
    exists warnings: seq<ClientWarning> ::
      Survivors(result.warnings, ClientWarnings(warnings), warnings)
      && ClientsAccounted(state, backups, built, ordinary, SwitchResult(result.clients, result.visibility, warnings),
                          attached, visits0, visits)
  }
}
