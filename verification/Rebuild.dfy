/** Rebuilding a snapshot on a live server: leaders first with their placeholder windows parked
    out of the way, then windows and panes, cross-session links, removal of the placeholders, and
    grouped sessions last. */
module Rebuild {
  import opened Wrappers
  import opened SnapshotGraph
  import opened RestoreIndexes
  import opened TmuxServer

  // ----- What is rebuilt, and what counts as a faithful copy -----

  function SessionNames(sessions: seq<Session>): (names: seq<string>) {
    seq(|sessions|, i requires 0 <= i < |sessions| => sessions[i].name)
  }

  /** Grouped sessions link the same windows at the same indexes as their leader. */
  ghost predicate GroupsAgree(sessions: seq<Session>) {
    forall s | s in sessions :: Elements(s.links) == Elements(Leader(sessions, s).links)
  }

  /** The graph half of what preflight accepts. */
  ghost predicate Buildable(state: State) {
    && WellFormed(state)
    && state.sessions != []
    && Distinct(SessionNames(state.sessions))
    && (forall s | s in state.sessions :: s.links != [])
    && (forall w | w in state.windows :: w.panes != [])
    && GroupsAgree(state.sessions)
  }

  /** Saved ids to live ids. */
  datatype Built = Built(sessions: map<string, nat>, windows: map<string, nat>, panes: map<string, nat>)

  ghost predicate Injective(ids: map<string, nat>) {
    forall a, b | a in ids && b in ids && a != b :: ids[a] != ids[b]
  }

  /** The live list holds exactly the saved (window, index) pairs. */
  ghost predicate ListExact(list: map<int, nat>, links: seq<Link>, windows: map<string, nat>) {
    && (forall k | 0 <= k < |links| ::
          links[k].windowId in windows && links[k].index in list
          && list[links[k].index] == windows[links[k].windowId])
    && (forall i | i in list :: exists k :: 0 <= k < |links| && links[k].index == i)
  }

  /** The live window holds the saved panes in order, each at its saved index and started where it should be;
      it was given the saved size if there is one. A pane that is to be restarted only holds its place. */
  ghost predicate WindowShown(g: Graph, w: Window, windows: map<string, nat>, panes: map<string, nat>) {
    && w.id in windows && windows[w.id] in g.windows
    && var live := g.windows[windows[w.id]];
       && |live.panes| == |w.panes| && |live.starts| == |w.panes|
       && (if w.width > 0 && w.height > 0 then live.size == Some((w.width, w.height)) else live.size.None?)
       && forall k | 0 <= k < |w.panes| ::
            && w.panes[k].id in panes
            && live.panes[k] == panes[w.panes[k].id]
            && live.starts[k] == Start(w.panes[k].cwd, w.panes[k].process.restart.Some?)
            && live.paneBase + k == w.panes[k].index
  }

  /** The live server carries an isomorphic copy of the saved graph next to what it had before. */
  ghost predicate Rebuilt(g: Graph, state: State, built: Built) {
    && Injective(built.sessions) && Injective(built.windows) && Injective(built.panes)
    && (forall s | s in state.sessions ::
          && s.id in built.sessions
          && HasList(g, built.sessions[s.id])
          && g.sessions[built.sessions[s.id]].name == s.name
          && ListExact(ListOf(g, built.sessions[s.id]), s.links, built.windows))
    && (forall a, b | a in state.sessions && b in state.sessions ::
          g.sessions[built.sessions[a.id]].list == g.sessions[built.sessions[b.id]].list
          <==> a == b || (a.group.Some? && a.group == b.group))
    && (forall w | w in state.windows :: WindowShown(g, w, built.windows, built.panes))
  }

  /** Every part of the copy is newer than `before`, and its sessions are live. */
  ghost predicate NewCopy(before: Graph, g: Graph, built: Built) {
    && (forall id | id in built.sessions :: before.next <= built.sessions[id] && built.sessions[id] in g.sessions)
    && (forall id | id in built.windows :: before.next <= built.windows[id])
    && (forall id | id in built.panes :: before.next <= built.panes[id])
  }

  /** Besides the sessions of `before` only copies of saved sessions are live. */
  ghost predicate NothingElse(before: Graph, g: Graph, state: State, built: Built) {
    forall x | x in g.sessions && x !in before.sessions ::
      exists s :: s in state.sessions && s.id in built.sessions && built.sessions[s.id] == x
  }

  // ----- Bookkeeping shared by every phase -----

  /** Where the build started: everything in this graph has to stay exactly as it is. */
  datatype Mark = Mark(
    graph: Graph, trace: seq<Graph>, clients: map<string, Client>, faults: nat, failedMoves: nat,
    looks: map<Slot, Word>, visits: map<string, seq<nat>>)

  /** The mark of a build in which one `move-window` failed, which is what leaves an orphan. */
  ghost function Missed(m: Mark, orphan: Option<nat>): Mark {
    if orphan.Some? then m.(failedMoves := m.failedMoves + 1) else m
  }

  ghost predicate Kept(before: map<string, Client>, after: map<string, Client>) {
    && after.Keys <= before.Keys
    && forall n | n in after :: after[n] == before[n]
  }

  /** The saved sessions by id and by name, with the id of the leader whose list each one uses. */
  datatype Index = Index(saved: map<string, Session>, primary: map<string, string>, named: map<string, string>)

  ghost predicate Indexed(ix: Index) {
    && (forall id | id in ix.saved ::
          && ix.saved[id].id == id && id in ix.primary
          && ix.saved[id].name in ix.named && ix.named[ix.saved[id].name] == id)
    && (forall id | id in ix.saved ::
          && ix.primary[id] in ix.saved && ix.primary[id] in ix.primary
          && ix.primary[ix.primary[id]] == ix.primary[id])
  }

  /** Nothing old was touched, and nobody was moved. */
  ghost predicate Works(server: Server, m: Mark)
    reads server
  {
    && Valid(m.graph) && Valid(server.graph)
    && Untouched(m.graph, server.graph)
    && m.trace <= server.trace
    && (forall k | |m.trace| <= k < |server.trace| :: Untouched(m.graph, server.trace[k]))
    && Kept(m.clients, server.clients)
    && m.faults <= server.faults
    && m.failedMoves == server.failedMoves
    && Remembered(m.graph.next, m.looks, server.looks)
    && m.visits == server.visits
  }

  /** What a window and its panes are told while they are made. */
  predicate OfMaking(slot: Slot) {
    slot.ManualSizeOf? || slot.AutomaticRenameOf? || slot.EnlargedOf?
  }

  /** Nothing was told anything yet but to make room, and to leave names and sizes alone. */
  ghost predicate Undressed(before: map<Slot, Word>, looks: map<Slot, Word>) {
    forall slot: Slot :: !OfMaking(slot) ==> Told(looks, slot) == Told(before, slot)
  }

  ghost predicate World(server: Server, m: Mark)
    reads server
  {
    Works(server, m) && Undressed(m.looks, server.looks)
  }

  /** One command: it addresses only what the build created. */
  method RunNew(server: Server, c: Command, ghost m: Mark) returns (output: Option<seq<nat>>)
    requires Works(server, m) && Addresses(m.graph, server.graph, c)
    requires !c.SwitchClient? && !c.KillSession?
    modifies server
    ensures Works(server, if output.None? && c.MoveWindow? then m.(failedMoves := m.failedMoves + 1) else m)
    ensures output.Some? ==>
              && Enabled(old(server.graph), c)
              && server.graph == Effect(old(server.graph), c)
              && output.value == Output(old(server.graph), c)
              && server.looks == Dress(old(server.looks), c)
    ensures output.None? ==> server.graph == old(server.graph) && server.looks == old(server.looks)
    ensures output.None? && Enabled(old(server.graph), c) ==> server.faults > m.faults
  {
    hide Valid, Untouched, Enabled, Effect, Output, Dress, Addresses, Remembered;
    ghost var g, looks := server.graph, server.looks;
    output := server.Execute(c);
    if output.Some? {
      EffectValid(g, c);
      KeepsUntouched(m.graph, g, c);
      LooksStayed(m.graph, g, c, m.looks, looks);
    }
  }

  /** One build command. */
  method Run(server: Server, c: Command, ghost m: Mark) returns (output: Option<seq<nat>>)
    requires World(server, m) && Addresses(m.graph, server.graph, c)
    requires !c.SwitchClient? && !c.KillSession?
    requires (c.Adjust? ==> c.change.SetAutomaticRename?) && (c.AdjustPane? ==> c.paneChange.Enlarge?)
    modifies server
    ensures World(server, if output.None? && c.MoveWindow? then m.(failedMoves := m.failedMoves + 1) else m)
    ensures output.Some? ==>
              && Enabled(old(server.graph), c)
              && server.graph == Effect(old(server.graph), c)
              && output.value == Output(old(server.graph), c)
    ensures output.None? ==> server.graph == old(server.graph)
    ensures server.looks == if output.Some? then Dress(old(server.looks), c) else old(server.looks)
    ensures output.None? && Enabled(old(server.graph), c) ==> server.faults > m.faults
  {
    hide Valid, Untouched, Enabled, Effect, Output, Addresses, Remembered;
    output := RunNew(server, c, m);
  }

  /** The sessions on the server are the old ones, the recorded new ones and at most one other,
      whose only window still sits where `new-session` put it. */
  ghost predicate Tracked(before: Graph, g: Graph, created: seq<nat>, orphan: Option<nat>) {
    && Distinct(created)
    && (forall x | x in created :: before.next <= x && x in g.sessions)
    && (orphan.Some? ==>
          && before.next <= orphan.value && orphan.value !in created
          && HasList(g, orphan.value) && ListOf(g, orphan.value).Keys == {g.baseIndex})
    && (forall x | x in g.sessions :: x in before.sessions || x in created || orphan == Some(x))
  }

  /** `origin` inverts `ids`: which saved session each new live session stands for. A live session
      uses the list of its leader's live session. */
  ghost predicate SessionsBuilt(before: Graph, g: Graph, ix: Index, ids: map<string, nat>, origin: map<nat, string>)
  {
    && (forall x | x in origin ::
          && before.next <= x && x in g.sessions
          && origin[x] in ix.saved && origin[x] in ix.primary && ix.primary[origin[x]] in ids
          && origin[x] in ids && ids[origin[x]] == x
          && g.sessions[x] == SessionRecord(ix.saved[origin[x]].name, ids[ix.primary[origin[x]]])
          && ids[ix.primary[origin[x]]] in g.lists)
    && (forall id | id in ids :: ids[id] in origin && origin[ids[id]] == id)
  }

  function Spare(placeholders: map<string, nat>, id: string, parked: int): map<int, nat> {
    if id in placeholders then map[parked := placeholders[id]] else map[]
  }

  /** The list shows the placed windows at their saved indexes, the spare entries, and no more. */
  ghost predicate ListShows(list: map<int, nat>, links: seq<Link>, windows: map<string, nat>,
                            placed: set<string>, spare: map<int, nat>)
  {
    && (forall i | i in spare :: i in list && list[i] == spare[i])
    && (forall k | 0 <= k < |links| && links[k].windowId in placed ::
          links[k].windowId in windows && links[k].index in list
          && list[links[k].index] == windows[links[k].windowId])
    && (forall i | i in list ::
          i in spare || exists k :: 0 <= k < |links| && links[k].index == i && links[k].windowId in placed)
  }

  ghost predicate PlaceholdersLive(before: Graph, g: Graph, ids: map<string, nat>, placeholders: map<string, nat>) {
    && Injective(placeholders)
    && (forall id | id in placeholders ::
          id in ids && before.next <= placeholders[id] < g.next && placeholders[id] in g.windows)
  }

  lemma ListShowsFree(list: map<int, nat>, links: seq<Link>, windows: map<string, nat>,
                      placed: set<string>, spare: map<int, nat>, window: string, index: int)
    requires ListShows(list, links, windows, placed, spare)
    requires Distinct(LinkIndexes(links)) && HasLink(links, window, index)
    requires window !in placed && index !in spare
    ensures index !in list
  {
    var k :| 0 <= k < |links| && links[k].windowId == window && links[k].index == index;
    forall j | 0 <= j < |links| && links[j].index == index ensures links[j].windowId == window {
      assert LinkIndexes(links)[j] == LinkIndexes(links)[k];
    }
  }

  lemma ListShowsAdd(list: map<int, nat>, links: seq<Link>, windows: map<string, nat>,
                     placed: set<string>, spare: map<int, nat>, window: string, index: int, live: nat)
    requires ListShows(list, links, windows, placed, spare)
    requires Distinct(LinkedWindows(links)) && Distinct(LinkIndexes(links)) && HasLink(links, window, index)
    requires window !in placed && index !in spare
    ensures ListShows(list[index := live], links, windows[window := live], placed + {window}, spare)
  {
    var k :| 0 <= k < |links| && links[k].windowId == window && links[k].index == index;
    forall j | 0 <= j < |links| && j != k
      ensures links[j].windowId != window && links[j].index != index
    {
      assert LinkedWindows(links)[j] == links[j].windowId && LinkedWindows(links)[k] == window;
      assert LinkIndexes(links)[j] == links[j].index && LinkIndexes(links)[k] == index;
    }
  }

  // ----- Phase one: a session for every leader -----

  ghost predicate HoldsOnly(list: map<int, nat>, index: int, window: nat) {
    index in list && list[index] == window && forall i | i in list :: i == index
  }

  /** Each session made so far holds nothing but its placeholder, parked at the unused index. */
  ghost predicate Skeleton(before: Graph, g: Graph, ix: Index,
                           ids: map<string, nat>, origin: map<nat, string>, placeholders: map<string, nat>,
                           parked: int)
  {
    && SessionsBuilt(before, g, ix, ids, origin)
    && PlaceholdersLive(before, g, ids, placeholders)
    && (forall id | id in ids ::
          && id in placeholders && id in ix.primary && ix.primary[id] == id
          && ids[id] in g.lists && HoldsOnly(g.lists[ids[id]], parked, placeholders[id]))
  }

  ghost function PrimaryAdded(g: Graph, name: string, parked: int): Graph {
    g.(sessions := g.sessions[g.next := SessionRecord(name, g.next)],
       lists := g.lists[g.next := map[parked := g.next + 1]],
       windows := g.windows[g.next + 1 := WindowRecord([g.next + 2], [PLAIN], g.paneBaseIndex, None)],
       next := g.next + 3)
  }

  /** One `new-session` and the `move-window` that parks its first window. When only the second
      fails, the session is left behind as an orphan. */
  method CreateParked(server: Server, name: string, parked: int, ghost m: Mark)
    returns (made: Option<(nat, nat)>, ghost orphan: Option<nat>)
    requires World(server, m) && NameFree(server.graph, name)
    modifies server
    ensures World(server, Missed(m, orphan))
    ensures made.None? && server.faults == m.faults ==> orphan.Some?
    ensures made.Some? ==>
              && orphan.None?
              && m.graph.baseIndex != parked
              && made.value == (old(server.graph).next, old(server.graph).next + 1)
              && server.graph == PrimaryAdded(old(server.graph), name, parked)
    ensures made.None? && m.graph.baseIndex != parked ==> server.faults > m.faults
    ensures made.None? && orphan.None? ==> server.graph == old(server.graph)
    ensures made.None? && orphan.Some? ==>
              && orphan.value == old(server.graph).next
              && server.graph == Effect(old(server.graph), NewSession(name))
  {
    hide Valid, Untouched, Works, Undressed;
    orphan := None;
    ghost var g := server.graph;
    WorldBase(server, m);
    NextOk(m.graph, g);
    var output := Run(server, NewSession(name), m);
    if output.None? {
      return None, None;
    }
    var live, placeholder := output.value[0], output.value[1];
    ParkEffect(g, name, parked);
    output := Run(server, MoveWindow(placeholder, live, parked), m);
    if output.None? {
      return None, Some(live);
    }
    return Some((live, placeholder)), None;
  }

  /** tmux takes the move exactly when the new window does not already sit at the parked index. */
  lemma ParkEffect(g: Graph, name: string, parked: int)
    requires Valid(g) && NameFree(g, name)
    ensures var made := Effect(g, NewSession(name));
            var park := MoveWindow(g.next + 1, g.next, parked);
            && (Enabled(made, park) <==> g.baseIndex != parked)
            && (g.baseIndex != parked ==> Effect(made, park) == PrimaryAdded(g, name, parked))
  {
    var made := Effect(g, NewSession(name));
    var list := made.lists[g.next];
    assert list == map[g.baseIndex := g.next + 1];
    assert list[g.baseIndex] == g.next + 1;
    assert Without(list, g.next + 1)[parked := g.next + 1] == map[parked := g.next + 1];
    if g.baseIndex != parked {
      var after := Effect(made, MoveWindow(g.next + 1, g.next, parked));
      assert after.lists == g.lists[g.next := map[parked := g.next + 1]];
    }
  }

  lemma TrackedGrows(before: Graph, g: Graph, after: Graph, created: seq<nat>, record: SessionRecord)
    requires Valid(g) && Untouched(before, g) && Tracked(before, g, created, None)
    requires after.sessions == g.sessions[g.next := record]
    ensures Tracked(before, after, created + [g.next], None)
    ensures Elements(created + [g.next]) == Elements(created) + {g.next}
  {
    DistinctAppend(created, g.next);
    forall x | x in created + [g.next] ensures before.next <= x && x in after.sessions {
      assert x in created || x == g.next;
    }
  }

  lemma SessionsGrow(before: Graph, g: Graph, after: Graph, ix: Index, ids: map<string, nat>, origin: map<nat,
                     string>, id: string)
    requires Valid(g) && before.next <= g.next && Indexed(ix)
    requires SessionsBuilt(before, g, ix, ids, origin)
    requires id in ix.saved && id !in ids && ix.primary[id] in ids[id := g.next]
    requires after.sessions == g.sessions[g.next := SessionRecord(ix.saved[id].name, ids[id := g.next][ix.primary[id]])]
    requires g.lists.Keys <= after.lists.Keys && ids[id := g.next][ix.primary[id]] in after.lists
    ensures SessionsBuilt(before, after, ix, ids[id := g.next], origin[g.next := id])
  {
  }

  lemma SkeletonEmpty(g: Graph, ix: Index, parked: int)
    ensures Skeleton(g, g, ix, map[], map[], map[], parked) && Tracked(g, g, [], None)
  {
  }

  lemma SkeletonGrows(before: Graph, g: Graph, ix: Index,
                      ids: map<string, nat>, origin: map<nat, string>, placeholders: map<string, nat>, parked: int,
                      id: string)
    requires Valid(g) && Untouched(before, g) && Indexed(ix)
    requires Skeleton(before, g, ix, ids, origin, placeholders, parked)
    requires id in ix.saved && ix.primary[id] == id && id !in ids
    ensures Skeleton(before, PrimaryAdded(g, ix.saved[id].name, parked), ix, ids[id := g.next],
                     origin[g.next := id], placeholders[id := g.next + 1], parked)
  {
    hide SessionsBuilt, PlaceholdersLive;
    var after := PrimaryAdded(g, ix.saved[id].name, parked);
    SessionsGrow(before, g, after, ix, ids, origin, id);
    PlaceholdersGrow(before, g, after, ids, placeholders, id);
  }

  lemma PlaceholdersGrow(before: Graph, g: Graph, after: Graph, ids: map<string, nat>, placeholders: map<string, nat>,
                         id: string)
    requires before.next <= g.next && PlaceholdersLive(before, g, ids, placeholders)
    requires after.next > g.next + 1 && after.windows.Keys == g.windows.Keys + {g.next + 1}
    ensures PlaceholdersLive(before, after, ids[id := g.next], placeholders[id := g.next + 1])
  {
  }

  predicate Named(g: Graph, session: nat, name: string) {
    session in g.sessions && g.sessions[session].name == name
  }

  method CreatePrimary(server: Server, session: Session, parked: int, ghost ix: Index, ghost ids: map<string, nat>,
                       ghost origin: map<nat, string>,
                       ghost placeholders: map<string, nat>, ghost created: seq<nat>, ghost m: Mark)
    returns (made: Option<(nat, nat)>, ghost orphan: Option<nat>)
    requires World(server, m) && Indexed(ix)
    requires Tracked(m.graph, server.graph, created, None) && Elements(created) == origin.Keys
    requires Skeleton(m.graph, server.graph, ix, ids, origin, placeholders, parked)
    requires session.id in ix.saved && ix.saved[session.id] == session
    requires ix.primary[session.id] == session.id && session.id !in ids
    requires NameFree(m.graph, session.name)
    modifies server
    ensures World(server, Missed(m, orphan))
    ensures made.None? && server.faults == m.faults ==> orphan.Some?
    ensures made.None? ==> Tracked(m.graph, server.graph, created, orphan)
    ensures made.None? && orphan.Some? ==> Named(server.graph, orphan.value, session.name)
    ensures made.None? && m.graph.baseIndex != parked ==> server.faults > m.faults
    ensures made.Some? ==>
              && orphan.None? && m.graph.baseIndex != parked
              && Tracked(m.graph, server.graph, created + [made.value.0], None)
              && Elements(created + [made.value.0]) == origin.Keys + {made.value.0}
              && Skeleton(m.graph, server.graph, ix, ids[session.id := made.value.0],
                          origin[made.value.0 := session.id], placeholders[session.id := made.value.1], parked)
  {
    hide SessionsBuilt, PlaceholdersLive, Tracked, Indexed, Untouched, Valid;
    ghost var g := server.graph;
    FreshName(m.graph, g, ix, ids, origin, created, session.id);
    made, orphan := CreateParked(server, session.name, parked, m);
    if made.None? {
      TrackedOrphan(m.graph, g, server.graph, created, orphan, session.name);
    } else {
      SkeletonGrows(m.graph, g, ix, ids, origin, placeholders, parked, session.id);
      TrackedGrows(m.graph, g, server.graph, created, server.graph.sessions[g.next]);
    }
  }

  method CreatePrimaries(server: Server, sessions: seq<Session>, primary: map<string, string>, deferred: set<string>,
                         parked: int, ghost ix: Index, ghost m: Mark)
    returns (ok: bool, ids: map<string, nat>, placeholders: map<string, nat>, created: seq<nat>,
             ghost origin: map<nat, string>, ghost orphan: Option<nat>)
    requires World(server, m) && server.graph == m.graph
    requires Indexed(ix) && ix.primary == primary
    requires forall k | 0 <= k < |sessions| :: sessions[k].id in ix.saved && ix.saved[sessions[k].id] == sessions[k]
    requires forall i, j | 0 <= i < j < |sessions| :: sessions[i].id != sessions[j].id
    requires |sessions| > 0 && ix.primary[sessions[0].id] == sessions[0].id
    requires forall id | id in ix.saved :: id in deferred <==> ix.primary[id] != id
    requires forall id | id in ix.saved :: NameFree(m.graph, ix.saved[id].name)
    modifies server
    ensures World(server, Missed(m, orphan))
    ensures Tracked(m.graph, server.graph, created, orphan)
    ensures !ok && server.faults == m.faults
            ==> orphan.Some? && Named(server.graph, orphan.value, sessions[0].name)
    ensures orphan.Some? ==> exists k :: 0 <= k < |sessions| && Named(server.graph, orphan.value, sessions[k].name)
    ensures ok ==> orphan.None? && m.graph.baseIndex != parked
    ensures !ok && m.graph.baseIndex != parked ==> server.faults > m.faults
    ensures ok ==> Skeleton(m.graph, server.graph, ix, ids, origin, placeholders, parked)
    ensures ok ==> Elements(created) == origin.Keys
    ensures ok ==> forall k | 0 <= k < |sessions| && ix.primary[sessions[k].id] == sessions[k].id ::
              sessions[k].id in ids
  {
    hide Tracked, Skeleton, NameFree, Valid, Untouched;
    SkeletonEmpty(m.graph, ix, parked);
    ids, placeholders, created, origin, orphan := map[], map[], [], map[], None;
    for i := 0 to |sessions|
      invariant World(server, m) && orphan.None?
      invariant i > 0 ==> m.graph.baseIndex != parked
      invariant Tracked(m.graph, server.graph, created, None)
      invariant Elements(created) == origin.Keys
      invariant Skeleton(m.graph, server.graph, ix, ids, origin, placeholders, parked)
      invariant forall k | 0 <= k < i && ix.primary[sessions[k].id] == sessions[k].id :: sessions[k].id in ids
      invariant forall k | i <= k < |sessions| :: sessions[k].id !in ids
    {
      var session := sessions[i];
      if session.id !in deferred {
        var made;
        made, orphan := CreatePrimary(server, session, parked, ix, ids, origin, placeholders, created, m);
        if made.None? {
          ok := false;
          return;
        }
        created := created + [made.value.0];
        ids := ids[session.id := made.value.0];
        placeholders := placeholders[session.id := made.value.1];
        origin := origin[made.value.0 := session.id];
      }
    }
    ok := true;
  }

  lemma TrackedOrphan(before: Graph, g: Graph, after: Graph, created: seq<nat>, orphan: Option<nat>, name: string)
    requires Valid(g) && Untouched(before, g) && Tracked(before, g, created, None)
    requires orphan.None? ==> after == g
    requires orphan.Some? ==> NameFree(g, name) && orphan.value == g.next && after == Effect(g, NewSession(name))
    ensures Tracked(before, after, created, orphan)
  {
  }

  lemma {:induction false} FirstIsLeader(sessions: seq<Session>)
    requires sessions != []
    ensures Leader(sessions, sessions[0]) == sessions[0]
  {
    if sessions[0].group.Some? {
      FirstMember(sessions, sessions[0].group.value);
    }
  }

  lemma {:induction false} FirstMember(sessions: seq<Session>, group: string)
    requires sessions != [] && sessions[0].group == Some(group)
    ensures Members(sessions, group) != [] && Members(sessions, group)[0] == sessions[0]
  {
    if |sessions| > 1 {
      FirstMember(sessions[..|sessions| - 1], group);
    } else {
      assert sessions[..0] == [];
    }
  }

  /** No live session carries the name of a session that is still to be created. */
  lemma FreshName(before: Graph, g: Graph, ix: Index, ids: map<string, nat>, origin: map<nat, string>,
                  created: seq<nat>, id: string)
    requires Untouched(before, g) && Tracked(before, g, created, None) && Indexed(ix)
    requires SessionsBuilt(before, g, ix, ids, origin) && Elements(created) == origin.Keys
    requires id in ix.saved && id !in ids && NameFree(before, ix.saved[id].name)
    ensures NameFree(g, ix.saved[id].name)
  {
    forall x | x in g.sessions ensures g.sessions[x].name != ix.saved[id].name {
      if x !in before.sessions {
        assert x in origin;
      }
    }
  }

  // ----- Phase two: windows and panes -----

  lemma InjectiveAdd(ids: map<string, nat>, key: string, live: nat)
    requires Injective(ids) && forall a | a in ids :: ids[a] != live
    ensures Injective(ids[key := live])
  {
  }

  function MinIndex(panes: seq<Pane>): int
    requires panes != []
  {
    if |panes| == 1 then panes[0].index
    else
      var rest := MinIndex(panes[1..]);
      if panes[0].index <= rest then panes[0].index else rest
  }

  lemma {:induction false} MinIndexIsFirst(panes: seq<Pane>)
    requires panes != [] && (PaneRun(panes) || forall k | 0 <= k < |panes| :: panes[k].index == panes[0].index + k)
    ensures MinIndex(panes) == panes[0].index
  {
    if |panes| > 1 {
      MinIndexIsFirst(panes[1..]);
    }
  }

  function SizeOf(w: Window): Option<(nat, nat)> {
    if w.width > 0 && w.height > 0 then Some((w.width, w.height)) else None
  }

  /** A pane that is to be restarted is created with a command that only holds its place. */
  function StartOf(p: Pane): Start {
    Start(p.cwd, p.process.restart.Some?)
  }

  /** A live window holds the first `count` saved panes in order, each at its saved index; they
      were created at or after `low`. `last` is the pane the next split goes after. */
  ghost predicate PanesMade(low: nat, next: nat, live: WindowRecord, w: Window, count: nat, last: nat,
                            panes0: map<string, nat>, panes: map<string, nat>)
  {
    && 0 < count <= |w.panes|
    && |live.panes| == count && |live.starts| == count && live.panes[count - 1] == last
    && live.size == SizeOf(w)
    && Distinct(live.panes)
    && (forall k | 0 <= k < count ::
          && w.panes[k].id in panes
          && low <= live.panes[k] < next
          && live.panes[k] == panes[w.panes[k].id]
          && live.starts[k] == StartOf(w.panes[k])
          && live.paneBase + k == w.panes[k].index)
    && (forall p | p in panes0 :: p in panes && panes[p] == panes0[p])
    && (forall p | p in panes :: panes[p] < next && (p in panes0 || (low <= panes[p] && p in PaneIds(w.panes))))
    && Injective(panes)
  }

  /** From `g0` to `g` one window was added to one list, with its first `count` panes. */
  ghost predicate WindowMade(g0: Graph, g: Graph, list: nat, index: int, live: nat, w: Window, count: nat, last: nat,
                             panes0: map<string, nat>, panes: map<string, nat>)
  {
    && g0.next <= live < g.next
    && g.sessions == g0.sessions
    && list in g0.lists && g.lists == g0.lists[list := PutAt(g0.lists[list], index, live)]
    && live in g.windows
    && (forall v | v in g0.windows :: v in g.windows && g.windows[v] == g0.windows[v])
    && PanesMade(g0.next, g.next, g.windows[live], w, count, last, panes0, panes)
  }

  ghost predicate FreshPanes(w: Window, panes: map<string, nat>, bound: nat) {
    && Injective(panes)
    && (forall p | p in panes :: panes[p] < bound)
    && Distinct(PaneIds(w.panes))
    && (forall k | 0 <= k < |w.panes| :: w.panes[k].id !in panes)
  }

  /** The graph after the new window was given its saved size, if there is one. */
  function Sized(g: Graph, live: nat, w: Window): Graph
    requires live in g.windows
  {
    if SizeOf(w).Some? then Effect(g, ResizeWindow(live, w.width, w.height)) else g
  }

  lemma WindowStart(before: Graph, g: Graph, session: nat, index: int, w: Window, panes: map<string, nat>)
    requires w.panes != [] && Valid(g) && Untouched(before, g)
    requires Enabled(g, NewWindow(session, index, StartOf(w.panes[0])))
    requires PaneRun(w.panes) && FreshPanes(w, panes, g.next)
    ensures before.next <= g.next
    ensures var made := Effect(g, NewWindow(session, index, StartOf(w.panes[0])));
            && g.next in made.windows && g.next in Sized(made, g.next, w).windows
            && var based := Effect(Sized(made, g.next, w), SetPaneBase(g.next, MinIndex(w.panes)));
               && g.next in based.windows
               && WindowMade(g, based, g.sessions[session].list, index, g.next, w, 1, g.next + 1,
                             panes, panes[w.panes[0].id := g.next + 1])
  {
    hide PanesMade, FreshPanes, PaneRun;
    MinIndexIsFirst(w.panes);
    PanesStart(w, panes, g.next);
  }

  lemma PanesStart(w: Window, panes: map<string, nat>, low: nat)
    requires PaneRun(w.panes) && w.panes != [] && FreshPanes(w, panes, low)
    ensures PanesMade(low, low + 2,
                      WindowRecord([low + 1], [StartOf(w.panes[0])], w.panes[0].index, SizeOf(w)), w, 1, low + 1,
                      panes, panes[w.panes[0].id := low + 1])
  {
    hide Injective;
    assert PaneIds(w.panes)[0] == w.panes[0].id;
    InjectiveAdd(panes, w.panes[0].id, low + 1);
  }

  lemma PanesSplit(low: nat, next: nat, live: WindowRecord, w: Window, count: nat, last: nat,
                   panes0: map<string, nat>, panes: map<string, nat>)
    requires low <= next && PanesMade(low, next, live, w, count, last, panes0, panes)
    requires PaneRun(w.panes) && count < |w.panes| && FreshPanes(w, panes0, low)
    ensures PanesMade(low, next + 1,
                      live.(panes := live.panes + [next], starts := live.starts + [StartOf(w.panes[count])]),
                      w, count + 1, next, panes0, panes[w.panes[count].id := next])
  {
    hide Injective;
    DistinctAppend(live.panes, next);
    assert PaneIds(w.panes)[count] == w.panes[count].id;
    forall k | 0 <= k < count ensures w.panes[k].id != w.panes[count].id {
      assert PaneIds(w.panes)[k] != PaneIds(w.panes)[count];
    }
    InjectiveAdd(panes, w.panes[count].id, next);
  }

  lemma WindowSplit(g0: Graph, g: Graph, list: nat, index: int, live: nat, w: Window, count: nat, last: nat,
                    panes0: map<string, nat>, panes: map<string, nat>)
    requires Valid(g0) && WindowMade(g0, g, list, index, live, w, count, last, panes0, panes)
    requires PaneRun(w.panes) && count < |w.panes| && FreshPanes(w, panes0, g0.next)
    ensures last >= g0.next
    ensures Enabled(g, SplitWindow(last, StartOf(w.panes[count])))
    ensures var after := Effect(g, SplitWindow(last, StartOf(w.panes[count])));
            && live in after.windows
            && WindowMade(g0, after, list, index, live, w, count + 1, g.next, panes0,
                          panes[w.panes[count].id := g.next])
  {
    hide PanesMade, FreshPanes, PaneRun;
    PanesSplit(g0.next, g.next, g.windows[live], w, count, last, panes0, panes);
    SplitPlace(g0.next, g.next, g.windows[live], w, count, last, panes0, panes);
    forall v | v in g0.windows
      ensures TmuxServer.Split(g0.windows[v], last, g.next, StartOf(w.panes[count])) == g0.windows[v]
    {
      assert last !in g0.windows[v].panes;
      InsertStartElsewhere(g0.windows[v].panes, g0.windows[v].starts, last, StartOf(w.panes[count]));
    }
  }

  lemma SplitPlace(low: nat, next: nat, live: WindowRecord, w: Window, count: nat, last: nat,
                   panes0: map<string, nat>, panes: map<string, nat>)
    requires PanesMade(low, next, live, w, count, last, panes0, panes)
    ensures last >= low && last in live.panes
    ensures InsertAfter(live.panes, last, next) == live.panes + [next]
    ensures count < |w.panes| ==>
              InsertStart(live.panes, live.starts, last, StartOf(w.panes[count]))
              == live.starts + [StartOf(w.panes[count])]
  {
    hide Injective;
    assert live.panes[count - 1] == last;
    InsertAfterLast(live.panes, next);
    if count < |w.panes| {
      InsertStartLast(live.panes, live.starts, StartOf(w.panes[count]));
    }
  }

  lemma LastInside(g0: Graph, g: Graph, list: nat, index: int, live: nat, w: Window, count: nat, last: nat,
                   panes0: map<string, nat>, panes: map<string, nat>)
    requires WindowMade(g0, g, list, index, live, w, count, last, panes0, panes)
    ensures live >= g0.next && live in g.windows && last in g.windows[live].panes && last >= g0.next
  {
    hide Injective;
  }

  /** A command that changes nothing the copy is judged by. */
  method Tweak(server: Server, c: Command, ghost m: Mark) returns (done: bool)
    requires World(server, m) && Enabled(server.graph, c)
    requires || (c.Adjust? && c.change.SetAutomaticRename? && c.window >= m.graph.next)
             || (c.AdjustPane? && c.paneChange.Enlarge? && c.pane >= m.graph.next)
    modifies server
    ensures World(server, m) && server.graph == old(server.graph)
    ensures done ==> server.looks == Dress(old(server.looks), c)
    ensures !done ==> server.faults > m.faults
  {
    hide Valid, Untouched, Works, Undressed;
    var output := Run(server, c, m);
    done := output.Some?;
  }

  /** The window with its first pane. */
  method StartWindow(server: Server, w: Window, session: nat, index: int, ghost before: map<string, nat>, ghost m: Mark)
    returns (made: Option<(nat, nat)>)
    requires w.panes != [] && World(server, m) && Enabled(server.graph, NewWindow(session, index, StartOf(w.panes[0])))
    requires server.graph.sessions[session].list >= m.graph.next
    requires PaneRun(w.panes) && FreshPanes(w, before, server.graph.next)
    modifies server
    ensures World(server, m) && m.graph.next <= old(server.graph).next
    ensures server.graph.sessions == old(server.graph).sessions
    ensures made.None? ==> server.faults > m.faults
    ensures made.Some? ==>
              WindowMade(old(server.graph), server.graph, old(server.graph).sessions[session].list, index,
                         made.value.0, w, 1, made.value.1, before, before[w.panes[0].id := made.value.1])
  {
    hide Valid, Untouched, WindowMade, FreshPanes, PaneRun, Works, Undressed, Split;
    WorldBase(server, m);
    WindowStart(m.graph, server.graph, session, index, w, before);
    var output := Run(server, NewWindow(session, index, StartOf(w.panes[0])), m);
    if output.None? {
      return None;
    }
    var live, first := output.value[0], output.value[1];
    if w.width > 0 && w.height > 0 {
      output := Run(server, ResizeWindow(live, w.width, w.height), m);
      if output.None? {
        return None;
      }
    }
    output := Run(server, SetPaneBase(live, MinIndex(w.panes)), m);
    if output.None? {
      return None;
    }
    made := Some((live, first));
  }

  /** The window keeps its name while it is made, and each of its first `count` panes but the first was enlarged
      before the next one was split off. */
  ghost predicate Readied(looks: map<Slot, Word>, live: nat, w: Window, count: nat, panes: map<string, nat>) {
    && count <= |w.panes| && Told(looks, AutomaticRenameOf(live)) == Some(Flag(false))
    && forall k | 1 <= k < count :: w.panes[k].id in panes && Roomy(looks, panes[w.panes[k].id])
  }

  ghost predicate Roomy(looks: map<Slot, Word>, pane: nat) {
    Told(looks, EnlargedOf(pane)) == Some(Flag(true))
  }

  lemma FirstReadied(looks: map<Slot, Word>, live: nat, w: Window, panes: map<string, nat>)
    requires w.panes != []
    ensures Readied(Dress(looks, Adjust(live, SetAutomaticRename(Some(false)))), live, w, 1, panes)
  {
  }

  lemma NextReadied(looks: map<Slot, Word>, live: nat, w: Window, count: nat, panes: map<string, nat>, pane: nat)
    requires Readied(looks, live, w, count, panes) && count < |w.panes| && Distinct(PaneIds(w.panes))
    ensures Readied(Dress(looks, AdjustPane(pane, Enlarge)), live, w, count + 1, panes[w.panes[count].id := pane])
  {
    forall k | 1 <= k < count ensures w.panes[k].id != w.panes[count].id {
      assert PaneIds(w.panes)[k] != PaneIds(w.panes)[count];
    }
  }

  lemma FreshAreDistinct(w: Window, panes: map<string, nat>, bound: nat)
    requires FreshPanes(w, panes, bound)
    ensures Distinct(PaneIds(w.panes))
  {
  }

  method CreateWindow(server: Server, w: Window, session: nat, index: int, before: map<string, nat>, ghost m: Mark)
    returns (made: Option<nat>, panes: map<string, nat>)
    requires w.panes != [] && World(server, m) && Enabled(server.graph, NewWindow(session, index, StartOf(w.panes[0])))
    requires server.graph.sessions[session].list >= m.graph.next
    requires PaneRun(w.panes) && FreshPanes(w, before, server.graph.next)
    modifies server
    ensures World(server, m)
    ensures server.graph.sessions == old(server.graph).sessions
    ensures made.None? ==> server.faults > m.faults
    ensures made.Some? ==> exists last ::
              WindowMade(old(server.graph), server.graph, old(server.graph).sessions[session].list, index,
                         made.value, w, |w.panes|, last, before, panes)
    ensures made.Some? ==> Readied(server.looks, made.value, w, |w.panes|, panes)
  {
    hide Valid, Untouched, WindowMade, FreshPanes, PaneRun, Works, Undressed, Split, Readied, Distinct;
    ghost var g0 := server.graph;
    FreshAreDistinct(w, before, g0.next);
    ghost var list := g0.sessions[session].list;
    panes := before;
    WorldBase(server, m);
    var started := StartWindow(server, w, session, index, before, m);
    if started.None? {
      return None, panes;
    }
    var live, last := started.value.0, started.value.1;
    panes := panes[w.panes[0].id := last];
    LastInside(g0, server.graph, list, index, live, w, 1, last, before, panes);
    FirstReadied(server.looks, live, w, panes);
    var done := Tweak(server, Adjust(live, SetAutomaticRename(Some(false))), m);
    if !done {
      return None, panes;
    }
    for j := 1 to |w.panes|
      invariant World(server, m) && server.graph.sessions == g0.sessions
      invariant WindowMade(g0, server.graph, list, index, live, w, j, last, before, panes)
      invariant Readied(server.looks, live, w, j, panes)
    {
      WindowSplit(g0, server.graph, list, index, live, w, j, last, before, panes);
      var output := Run(server, SplitWindow(last, StartOf(w.panes[j])), m);
      if output.None? {
        return None, panes;
      }
      last := output.value[0];
      NextReadied(server.looks, live, w, j, panes, last);
      panes := panes[w.panes[j].id := last];
      LastInside(g0, server.graph, list, index, live, w, j + 1, last, before, panes);
      done := Tweak(server, AdjustPane(last, Enlarge), m);
      if !done {
        return None, panes;
      }
    }
    made := Some(live);
  }

  lemma WorldBase(server: Server, m: Mark)
    requires Works(server, m)
    ensures Valid(server.graph) && Untouched(m.graph, server.graph)
  {
  }

  /** What stays fixed once the leaders' sessions exist. */
  datatype Site = Site(before: Graph, ix: Index, ids: map<string, nat>, origin: map<nat, string>, parked: int)

  ghost predicate IsLeader(site: Site, id: string) {
    id in site.ids && id in site.ix.saved && id in site.ix.primary && site.ix.primary[id] == id
  }

  /** A leader's list shows what has been placed in it. */
  ghost predicate ListOk(g: Graph, site: Site, windows: map<string, nat>, placed: map<string, set<string>>,
                         placeholders: map<string, nat>, id: string)
    requires IsLeader(site, id)
  {
    && id in placed && site.ids[id] in g.lists
    && ListShows(g.lists[site.ids[id]], site.ix.saved[id].links, windows, placed[id],
                 Spare(placeholders, id, site.parked))
  }

  ghost predicate ListsOk(g: Graph, site: Site, windows: map<string, nat>, placed: map<string, set<string>>,
                          placeholders: map<string, nat>)
  {
    forall id | IsLeader(site, id) :: ListOk(g, site, windows, placed, placeholders, id)
  }

  ghost predicate Standing(g: Graph, site: Site, windows: map<string, nat>, placed: map<string, set<string>>,
                           placeholders: map<string, nat>)
  {
    && Indexed(site.ix)
    && SessionsBuilt(site.before, g, site.ix, site.ids, site.origin)
    && PlaceholdersLive(site.before, g, site.ids, placeholders)
    && ListsOk(g, site, windows, placed, placeholders)
  }

  ghost predicate LinksTidy(saved: map<string, Session>, parked: int) {
    forall id | id in saved ::
      && Distinct(LinkedWindows(saved[id].links))
      && Distinct(LinkIndexes(saved[id].links))
      && parked !in LinkIndexes(saved[id].links)
  }

  lemma LeaderList(g: Graph, site: Site, id: string)
    requires SessionsBuilt(site.before, g, site.ix, site.ids, site.origin) && IsLeader(site, id)
    ensures HasList(g, site.ids[id]) && g.sessions[site.ids[id]].list == site.ids[id]
    ensures site.ids[id] >= site.before.next
  {
    assert site.ids[id] in site.origin;
  }

  /** A window that is not placed yet finds its saved index free. */
  lemma FreeOn(g: Graph, site: Site, windows: map<string, nat>, placed: map<string, set<string>>,
               placeholders: map<string, nat>, id: string, w: string, index: int)
    requires Standing(g, site, windows, placed, placeholders) && IsLeader(site, id)
    requires LinksTidy(site.ix.saved, site.parked) && HasLink(site.ix.saved[id].links, w, index)
    requires id in placed && w !in placed[id]
    ensures HasList(g, site.ids[id]) && g.sessions[site.ids[id]].list == site.ids[id]
    ensures site.ids[id] >= site.before.next && index !in g.lists[site.ids[id]]
  {
    hide SessionsBuilt, ListShows;
    LeaderList(g, site, id);
    assert ListOk(g, site, windows, placed, placeholders, id);
    NotParked(site, id, w, index);
    ListShowsFree(g.lists[site.ids[id]], site.ix.saved[id].links, windows, placed[id],
                  Spare(placeholders, id, site.parked), w, index);
  }

  lemma NotParked(site: Site, id: string, w: string, index: int)
    requires LinksTidy(site.ix.saved, site.parked) && id in site.ix.saved
    requires HasLink(site.ix.saved[id].links, w, index)
    ensures index != site.parked
  {
    var links := site.ix.saved[id].links;
    var k :| 0 <= k < |links| && links[k].windowId == w && links[k].index == index;
    assert LinkIndexes(links)[k] == index;
  }

  lemma SessionsKept(before: Graph, g: Graph, after: Graph, ix: Index, ids: map<string, nat>, origin: map<nat, string>)
    requires SessionsBuilt(before, g, ix, ids, origin)
    requires after.sessions == g.sessions && g.lists.Keys <= after.lists.Keys
    ensures SessionsBuilt(before, after, ix, ids, origin)
  {
  }

  lemma PlaceOn(g: Graph, after: Graph, site: Site, windows: map<string, nat>, placed: map<string, set<string>>,
                placeholders: map<string, nat>, id: string, w: string, index: int, live: nat)
    requires Standing(g, site, windows, placed, placeholders) && IsLeader(site, id)
    requires LinksTidy(site.ix.saved, site.parked) && HasLink(site.ix.saved[id].links, w, index)
    requires id in placed && w !in placed[id] && (w in windows ==> windows[w] == live)
    requires after.sessions == g.sessions && g.next <= after.next && site.ids[id] in g.lists
    requires after.lists == g.lists[site.ids[id] := PutAt(g.lists[site.ids[id]], index, live)]
    requires g.windows.Keys <= after.windows.Keys
    ensures Standing(after, site, windows[w := live], placed[id := placed[id] + {w}], placeholders)
  {
    hide SessionsBuilt, ListOk, IsLeader, LinksTidy, HasLink, Indexed;
    SessionsKept(site.before, g, after, site.ix, site.ids, site.origin);
    var placed' := placed[id := placed[id] + {w}];
    forall other | IsLeader(site, other) ensures ListOk(after, site, windows[w := live], placed', placeholders, other) {
      PlaceOne(g, after, site, windows, placed, placeholders, id, w, index, live, other);
    }
  }

  lemma PlaceOne(g: Graph, after: Graph, site: Site, windows: map<string, nat>, placed: map<string, set<string>>,
                 placeholders: map<string, nat>, id: string, w: string, index: int, live: nat, other: string)
    requires SessionsBuilt(site.before, g, site.ix, site.ids, site.origin)
    requires IsLeader(site, id) && ListOk(g, site, windows, placed, placeholders, id)
    requires IsLeader(site, other) && ListOk(g, site, windows, placed, placeholders, other)
    requires LinksTidy(site.ix.saved, site.parked) && HasLink(site.ix.saved[id].links, w, index)
    requires w !in placed[id] && (w in windows ==> windows[w] == live)
    requires after.lists == g.lists[site.ids[id] := PutAt(g.lists[site.ids[id]], index, live)]
    ensures ListOk(after, site, windows[w := live], placed[id := placed[id] + {w}], placeholders, other)
  {
    hide SessionsBuilt, ListShows;
    if other == id {
      NotParked(site, id, w, index);
      ListShowsAdd(g.lists[site.ids[id]], site.ix.saved[id].links, windows, placed[id],
                   Spare(placeholders, id, site.parked), w, index, live);
    } else {
      LeadersApart(g, site, other, id);
      ListShowsMore(g.lists[site.ids[other]], site.ix.saved[other].links, windows, placed[other],
                    Spare(placeholders, other, site.parked), w, live);
    }
  }

  lemma LeadersApart(g: Graph, site: Site, a: string, b: string)
    requires SessionsBuilt(site.before, g, site.ix, site.ids, site.origin)
    requires a in site.ids && b in site.ids && a != b
    ensures site.ids[a] != site.ids[b]
  {
  }

  lemma ListShowsMore(list: map<int, nat>, links: seq<Link>, windows: map<string, nat>, placed: set<string>,
                      spare: map<int, nat>, w: string, live: nat)
    requires ListShows(list, links, windows, placed, spare) && (w in windows ==> windows[w] == live)
    ensures ListShows(list, links, windows[w := live], placed, spare)
  {
  }

  /** The first windows of the snapshot exist, with their panes. */
  ghost predicate WindowsBuilt(before: Graph, g: Graph, done: seq<Window>, windows: map<string, nat>,
                               panes: map<string, nat>)
  {
    && Injective(windows) && Injective(panes)
    && (forall id | id in windows :: before.next <= windows[id] < g.next && id in WindowIds(done))
    && (forall p | p in panes :: before.next <= panes[p] < g.next && p in PaneIds(AllPanes(done)))
    && (forall k | 0 <= k < |done| :: WindowShown(g, done[k], windows, panes))
  }

  lemma WindowsEmpty(before: Graph, g: Graph)
    ensures WindowsBuilt(before, g, [], map[], map[])
  {
  }

  lemma WindowShownKept(g: Graph, after: Graph, w: Window, windows: map<string, nat>, windows': map<string, nat>,
                        panes: map<string, nat>, panes': map<string, nat>)
    requires WindowShown(g, w, windows, panes)
    requires w.id in windows' && windows'[w.id] == windows[w.id]
    requires windows[w.id] in after.windows && after.windows[windows[w.id]] == g.windows[windows[w.id]]
    requires forall p | p in panes :: p in panes' && panes'[p] == panes[p]
    ensures WindowShown(after, w, windows', panes')
  {
  }

  lemma WindowsGrow(before: Graph, g: Graph, after: Graph, all: seq<Window>, i: nat, windows: map<string, nat>,
                    panes: map<string, nat>, panes': map<string, nat>, list: nat, index: int, live: nat, last: nat)
    requires i < |all| && before.next <= g.next && Distinct(WindowIds(all))
    requires WindowsBuilt(before, g, all[..i], windows, panes)
    requires WindowMade(g, after, list, index, live, all[i], |all[i].panes|, last, panes, panes')
    ensures WindowsBuilt(before, after, all[..i + 1], windows[all[i].id := live], panes')
  {
    hide Injective, WindowShown;
    var done, done' := all[..i], all[..i + 1];
    var windows' := windows[all[i].id := live];
    assert done' == done + [all[i]] && done'[..i] == done;
    assert WindowIds(done') == WindowIds(done) + [all[i].id];
    assert PaneIds(AllPanes(done')) == PaneIds(AllPanes(done)) + PaneIds(all[i].panes);
    InjectiveAdd(windows, all[i].id, live);
    forall k | 0 <= k < |done'| ensures WindowShown(after, done'[k], windows', panes') {
      if k < i {
        assert WindowIds(all)[k] != WindowIds(all)[i];
        assert WindowShown(g, done[k], windows, panes);
        ShownIn(g, done[k], windows, panes);
        WindowShownKept(g, after, done[k], windows, windows', panes, panes');
      } else {
        JustShown(g, after, list, index, live, all[i], last, panes, panes', windows');
      }
    }
  }

  lemma ShownIn(g: Graph, w: Window, windows: map<string, nat>, panes: map<string, nat>)
    requires WindowShown(g, w, windows, panes)
    ensures w.id in windows && windows[w.id] in g.windows
  {
  }

  lemma JustShown(g: Graph, after: Graph, list: nat, index: int, live: nat, w: Window, last: nat,
                  panes: map<string, nat>, panes': map<string, nat>, windows: map<string, nat>)
    requires WindowMade(g, after, list, index, live, w, |w.panes|, last, panes, panes')
    requires w.id in windows && windows[w.id] == live
    ensures WindowShown(after, w, windows, panes')
  {
  }

  lemma PanesAhead(before: Graph, g: Graph, all: seq<Window>, i: nat, windows: map<string, nat>, panes: map<string,
                   nat>)
    requires i < |all| && PanesUnique(all) && WindowsBuilt(before, g, all[..i], windows, panes)
    ensures FreshPanes(all[i], panes, g.next)
  {
    hide Injective, WindowShown;
    AllPanesContain(all, i);
    var early, mine := AllPanes(all[..i]), all[i].panes;
    var both := early + mine;
    assert forall k | 0 <= k < |both| :: AllPanes(all)[k] == both[k] && PaneIds(AllPanes(all))[k] == both[k].id;
    forall k | 0 <= k < |mine| ensures mine[k].id !in panes {
      forall j | 0 <= j < |early| ensures PaneIds(early)[j] != mine[k].id {
        assert both[j] == early[j] && both[|early| + k] == mine[k];
        assert PaneIds(AllPanes(all))[j] != PaneIds(AllPanes(all))[|early| + k];
      }
    }
  }

  /** Every window has owners, each owner's leader links the window at the owner's index, and every
      leader that links a window is among its owners. */
  ghost predicate OwnersKnown(site: Site, owners: map<string, seq<Owner>>) {
    && (forall w, k | w in owners && 0 <= k < |owners[w]| :: OwnerOk(site, owners[w][k], w))
    && (forall w | w in owners :: owners[w] != [])
    && (forall w, id | w in owners && IsLeader(site, id) && w in LinkedWindows(site.ix.saved[id].links) ::
          exists k :: 0 <= k < |owners[w]| && owners[w][k].session == id)
  }

  ghost predicate OwnerOk(site: Site, o: Owner, w: string) {
    && o.session in site.ix.primary
    && IsLeader(site, site.ix.primary[o.session])
    && HasLink(site.ix.saved[site.ix.primary[o.session]].links, w, o.index)
  }

  /** A window is first placed with the leader of its first owner. */
  ghost predicate PlacedAtHosts(site: Site, owners: map<string, seq<Owner>>, windows: map<string, nat>,
                                placed: map<string, set<string>>)
  {
    forall id, w | id in placed ::
      w in placed[id] <==> w in windows && w in owners && HostOf(site, owners, w, id)
  }

  ghost predicate HostOf(site: Site, owners: map<string, seq<Owner>>, w: string, id: string)
    requires w in owners
  {
    owners[w] != [] && owners[w][0].session in site.ix.primary && site.ix.primary[owners[w][0].session] == id
  }

  method PlaceWindow(server: Server, all: seq<Window>, i: nat, owner: Owner, ids: map<string, nat>,
                     primary: map<string, string>, panes: map<string, nat>, ghost windows: map<string, nat>,
                     ghost placed: map<string, set<string>>, ghost placeholders: map<string, nat>,
                     ghost site: Site, ghost m: Mark)
    returns (made: Option<nat>, panes': map<string, nat>, ghost placed': map<string, set<string>>)
    requires World(server, m) && site.before == m.graph && ids == site.ids && primary == site.ix.primary
    requires i < |all| && PanesUnique(all) && Distinct(WindowIds(all))
    requires PaneRun(all[i].panes) && all[i].panes != []
    requires WindowsBuilt(m.graph, server.graph, all[..i], windows, panes)
    requires Standing(server.graph, site, windows, placed, placeholders)
    requires LinksTidy(site.ix.saved, site.parked) && OwnerOk(site, owner, all[i].id)
    requires primary[owner.session] in placed && all[i].id !in placed[primary[owner.session]]
    requires all[i].id !in windows
    modifies server
    ensures World(server, m)
    ensures server.graph.sessions == old(server.graph).sessions
    ensures made.None? ==> server.faults > m.faults
    ensures made.Some? ==>
              && placed' == placed[primary[owner.session] := placed[primary[owner.session]] + {all[i].id}]
              && old(server.graph).next <= made.value < server.graph.next
              && WindowsBuilt(m.graph, server.graph, all[..i + 1], windows[all[i].id := made.value], panes')
              && Standing(server.graph, site, windows[all[i].id := made.value], placed', placeholders)
  {
    hide Valid, Untouched, WindowsBuilt, Standing, LinksTidy, PanesUnique, PaneRun, HasLink, FreshPanes;
    var w := all[i];
    ghost var g := server.graph;
    var canonical := primary[owner.session];
    var session := ids[canonical];
    FreeOn(g, site, windows, placed, placeholders, canonical, w.id, owner.index);
    PanesAhead(m.graph, g, all, i, windows, panes);
    placed' := placed;
    made, panes' := CreateWindow(server, w, session, owner.index, panes, m);
    if made.Some? {
      ghost var last :|
        WindowMade(g, server.graph, session, owner.index, made.value, w, |w.panes|, last, panes, panes');
      NextOk(m.graph, g);
      WindowsGrow(m.graph, g, server.graph, all, i, windows, panes, panes', session, owner.index, made.value, last);
      MadeWindows(g, server.graph, session, owner.index, made.value, w, |w.panes|, last, panes, panes');
      PlaceOn(g, server.graph, site, windows, placed, placeholders, canonical, w.id, owner.index, made.value);
      placed' := placed[canonical := placed[canonical] + {w.id}];
    }
  }

  lemma NextOk(before: Graph, g: Graph)
    requires Untouched(before, g)
    ensures before.next <= g.next && before.baseIndex == g.baseIndex
  {
  }

  lemma MadeWindows(g: Graph, after: Graph, list: nat, index: int, live: nat, w: Window, count: nat, last: nat,
                    panes: map<string, nat>, panes': map<string, nat>)
    requires WindowMade(g, after, list, index, live, w, count, last, panes, panes')
    ensures g.next <= live < after.next && g.windows.Keys <= after.windows.Keys
    ensures list in g.lists && after.lists == g.lists[list := PutAt(g.lists[list], index, live)]
  {
  }

  lemma HostsGrow(site: Site, owners: map<string, seq<Owner>>, windows: map<string, nat>,
                  placed: map<string, set<string>>, w: string, live: nat)
    requires PlacedAtHosts(site, owners, windows, placed)
    requires w in owners && w !in windows && owners[w] != [] && owners[w][0].session in site.ix.primary
    requires site.ix.primary[owners[w][0].session] in placed
    ensures var id := site.ix.primary[owners[w][0].session];
            w !in placed[id] && PlacedAtHosts(site, owners, windows[w := live], placed[id := placed[id] + {w}])
  {
  }

  ghost predicate KnownBefore(all: seq<Window>, i: nat, windows: map<string, nat>)
    requires i <= |all|
  {
    forall id | id in windows :: exists k :: 0 <= k < i && all[k].id == id
  }

  lemma NoneKnown(all: seq<Window>)
    ensures KnownBefore(all, 0, map[])
  {
  }

  lemma IdIsNew(all: seq<Window>, i: nat, windows: map<string, nat>, window: nat)
    requires i < |all| && Distinct(WindowIds(all)) && KnownBefore(all, i, windows)
    ensures all[i].id !in windows && KnownBefore(all, i + 1, windows[all[i].id := window])
  {
    forall k | 0 <= k < i ensures all[k].id != all[i].id {
      assert WindowIds(all)[k] != WindowIds(all)[i];
    }
    var later := windows[all[i].id := window];
    forall id | id in later ensures exists k :: 0 <= k < i + 1 && all[k].id == id {
      if id == all[i].id {
        assert all[i].id == id;
      } else {
        var k :| 0 <= k < i && all[k].id == id;
      }
    }
  }

  method CreateWindows(server: Server, all: seq<Window>, owners: map<string, seq<Owner>>, ids: map<string, nat>,
                       primary: map<string, string>, ghost placed0: map<string, set<string>>,
                       ghost placeholders: map<string, nat>, ghost site: Site, ghost m: Mark)
    returns (ok: bool, windows: map<string, nat>, panes: map<string, nat>, ghost placed: map<string, set<string>>)
    requires World(server, m) && site.before == m.graph && ids == site.ids && primary == site.ix.primary
    requires PanesUnique(all) && Distinct(WindowIds(all))
    requires forall k | 0 <= k < |all| :: PaneRun(all[k].panes) && all[k].panes != [] && all[k].id in owners
    requires LinksTidy(site.ix.saved, site.parked) && OwnersKnown(site, owners)
    requires Standing(server.graph, site, map[], placed0, placeholders)
    requires PlacedAtHosts(site, owners, map[], placed0) && (forall id | IsLeader(site, id) :: id in placed0)
    requires forall a | a in placeholders :: placeholders[a] < server.graph.next
    modifies server
    ensures World(server, m)
    ensures server.graph.sessions == old(server.graph).sessions
    ensures !ok ==> server.faults > m.faults
    ensures ok ==>
              && WindowsBuilt(m.graph, server.graph, all, windows, panes)
              && Standing(server.graph, site, windows, placed, placeholders)
              && PlacedAtHosts(site, owners, windows, placed)
              && placed.Keys == placed0.Keys
              && (forall a, b | a in placeholders && b in windows :: placeholders[a] != windows[b])
              && (forall k | 0 <= k < |all| :: all[k].id in windows)
  {
    hide Valid, Untouched, WindowsBuilt, Standing, LinksTidy, PanesUnique, PaneRun, HasLink, FreshPanes, Indexed,
         PlacedAtHosts, Distinct, WindowIds, KnownBefore;
    windows, panes, placed := map[], map[], placed0;
    ghost var low := server.graph.next;
    WindowsEmpty(m.graph, server.graph);
    NoneKnown(all);
    assert all[..0] == [];
    for i := 0 to |all|
      invariant World(server, m) && server.graph.sessions == old(server.graph).sessions
      invariant WindowsBuilt(m.graph, server.graph, all[..i], windows, panes)
      invariant Standing(server.graph, site, windows, placed, placeholders)
      invariant PlacedAtHosts(site, owners, windows, placed) && placed.Keys == placed0.Keys
      invariant low <= server.graph.next && forall b | b in windows :: windows[b] >= low
      invariant forall k | 0 <= k < i :: all[k].id in windows
      invariant KnownBefore(all, i, windows)
    {
      var owner := owners[all[i].id][0];
      assert OwnerOk(site, owner, all[i].id);
      IdIsNew(all, i, windows, 0);
      HostsGrow(site, owners, windows, placed, all[i].id, 0);
      var made;
      ghost var placedBefore := placed;
      made, panes, placed := PlaceWindow(server, all, i, owner, ids, primary, panes, windows, placed, placeholders,
                                         site, m);
      if made.None? {
        ok := false;
        return;
      }
      HostsGrow(site, owners, windows, placedBefore, all[i].id, made.value);
      IdIsNew(all, i, windows, made.value);
      windows := windows[all[i].id := made.value];
    }
    assert all[..|all|] == all;
    ok := true;
  }

  // ----- Phase three: windows linked into further sessions -----

  lemma WindowsSame(before: Graph, g: Graph, after: Graph, done: seq<Window>, windows: map<string, nat>,
                    panes: map<string, nat>)
    requires WindowsBuilt(before, g, done, windows, panes)
    requires g.next <= after.next
    requires forall id | id in windows && windows[id] in g.windows ::
               windows[id] in after.windows && after.windows[windows[id]] == g.windows[windows[id]]
    ensures WindowsBuilt(before, after, done, windows, panes)
  {
    hide Injective, WindowShown;
    forall k | 0 <= k < |done| ensures WindowShown(after, done[k], windows, panes) {
      ShownIn(g, done[k], windows, panes);
      WindowShownKept(g, after, done[k], windows, windows, panes, panes);
    }
  }

  /** Within one window: the leaders it is placed with are its host and those already linked. */
  ghost predicate LinkedSoFar(site: Site, owners: map<string, seq<Owner>>, w: string, linked: set<string>,
                              placed0: map<string, set<string>>, placed: map<string, set<string>>)
    requires w in owners
  {
    && placed.Keys == placed0.Keys
    && (forall id | id in placed :: w in placed[id] <==> HostOf(site, owners, w, id) || id in linked)
    && (forall id, v | id in placed && v != w :: v in placed[id] <==> v in placed0[id])
  }

  method LinkWindow(server: Server, w: string, newWindow: nat, owners: map<string, seq<Owner>>, ids: map<string, nat>,
                    primary: map<string, string>, ghost windows: map<string, nat>,
                    ghost placed0: map<string, set<string>>, ghost placeholders: map<string, nat>,
                    ghost site: Site, ghost m: Mark)
    returns (ok: bool, ghost placed: map<string, set<string>>)
    requires World(server, m) && site.before == m.graph && ids == site.ids && primary == site.ix.primary
    requires w in owners && w in windows && windows[w] == newWindow && newWindow in server.graph.windows
    requires LinksTidy(site.ix.saved, site.parked) && OwnersKnown(site, owners)
    requires Standing(server.graph, site, windows, placed0, placeholders)
    requires forall id | IsLeader(site, id) :: id in placed0
    requires LinkedSoFar(site, owners, w, {}, placed0, placed0)
    modifies server
    ensures World(server, m)
    ensures server.graph.(lists := old(server.graph).lists) == old(server.graph)
    ensures !ok ==> server.faults > m.faults
    ensures ok ==>
              && Standing(server.graph, site, windows, placed, placeholders)
              && placed.Keys == placed0.Keys
              && (forall id, v | id in placed && v != w :: v in placed[id] <==> v in placed0[id])
              && (forall id | IsLeader(site, id) && w in LinkedWindows(site.ix.saved[id].links) :: w in placed[id])
  {
    hide Valid, Untouched, Standing, LinksTidy, HasLink, Indexed, LinkedSoFar;
    placed := placed0;
    var linkedOwners := owners[w];
    var linkedPrimaries: set<string> := {};
    for k := 0 to |linkedOwners|
      invariant World(server, m)
      invariant server.graph.(lists := old(server.graph).lists) == old(server.graph)
      invariant Standing(server.graph, site, windows, placed, placeholders)
      invariant LinkedSoFar(site, owners, w, linkedPrimaries, placed0, placed)
      invariant forall j | 0 <= j < k :: primary[linkedOwners[j].session] in linkedPrimaries
    {
      var owner := linkedOwners[k];
      assert OwnerOk(site, owner, w) && OwnerOk(site, linkedOwners[0], w);
      var leader := primary[owner.session];
      if leader !in linkedPrimaries {
        var first := linkedOwners[0];
        var alreadyThere := primary[first.session] == leader && first.index == owner.index;
        if alreadyThere {
          LinkedSkip(site, owners, w, linkedPrimaries, placed0, placed, leader);
        } else {
          assert k > 0;
          assert primary[first.session] != leader;
          LinkedAdd(site, owners, w, linkedPrimaries, placed0, placed, leader);
          FreeOn(server.graph, site, windows, placed, placeholders, leader, w, owner.index);
          ghost var g := server.graph;
          var output := Run(server, TmuxServer.LinkWindow(newWindow, ids[leader], owner.index), m);
          if output.None? {
            ok := false;
            return;
          }
          PlaceOn(g, server.graph, site, windows, placed, placeholders, leader, w, owner.index, newWindow);
          assert windows[w := newWindow] == windows;
          placed := placed[leader := placed[leader] + {w}];
        }
        linkedPrimaries := linkedPrimaries + {leader};
      }
    }
    LinkedAll(site, owners, w, linkedPrimaries, placed0, placed);
    ok := true;
  }

  lemma LinkedSkip(site: Site, owners: map<string, seq<Owner>>, w: string, linked: set<string>,
                   placed0: map<string, set<string>>, placed: map<string, set<string>>, leader: string)
    requires w in owners && LinkedSoFar(site, owners, w, linked, placed0, placed)
    requires HostOf(site, owners, w, leader)
    ensures LinkedSoFar(site, owners, w, linked + {leader}, placed0, placed)
  {
  }

  lemma LinkedAdd(site: Site, owners: map<string, seq<Owner>>, w: string, linked: set<string>,
                  placed0: map<string, set<string>>, placed: map<string, set<string>>, leader: string)
    requires w in owners && LinkedSoFar(site, owners, w, linked, placed0, placed)
    requires leader in placed0 && !HostOf(site, owners, w, leader) && leader !in linked
    ensures leader in placed && w !in placed[leader]
    ensures LinkedSoFar(site, owners, w, linked + {leader}, placed0, placed[leader := placed[leader] + {w}])
  {
  }

  lemma LinkedAll(site: Site, owners: map<string, seq<Owner>>, w: string, linked: set<string>,
                  placed0: map<string, set<string>>, placed: map<string, set<string>>)
    requires w in owners && LinkedSoFar(site, owners, w, linked, placed0, placed) && OwnersKnown(site, owners)
    requires forall id | IsLeader(site, id) :: id in placed0
    requires forall j | 0 <= j < |owners[w]| :: owners[w][j].session in site.ix.primary
               && site.ix.primary[owners[w][j].session] in linked
    ensures placed.Keys == placed0.Keys
    ensures forall id, v | id in placed && v != w :: v in placed[id] <==> v in placed0[id]
    ensures forall id | IsLeader(site, id) && w in LinkedWindows(site.ix.saved[id].links) :: w in placed[id]
  {
    forall id | IsLeader(site, id) && w in LinkedWindows(site.ix.saved[id].links) ensures w in placed[id] {
      var k :| 0 <= k < |owners[w]| && owners[w][k].session == id;
      assert site.ix.primary[id] in linked;
    }
  }

  /** All owners of the finished windows have them; the others are still only with their hosts. */
  ghost predicate LinkedDone(site: Site, owners: map<string, seq<Owner>>, windows: map<string, nat>, rest: set<string>,
                             placed: map<string, set<string>>)
  {
    && (forall id | IsLeader(site, id) :: id in placed)
    && (forall id, w | id in placed && w in rest && w in owners ::
          w in placed[id] <==> HostOf(site, owners, w, id))
    && (forall id, w | IsLeader(site, id) && w in owners && w !in rest
                       && w in LinkedWindows(site.ix.saved[id].links) :: w in placed[id])
  }

  method LinkWindows(server: Server, owners: map<string, seq<Owner>>, windows: map<string, nat>, ids: map<string, nat>,
                     primary: map<string, string>, ghost placed0: map<string, set<string>>,
                     ghost placeholders: map<string, nat>, ghost site: Site, ghost m: Mark)
    returns (ok: bool, ghost placed: map<string, set<string>>)
    requires World(server, m) && site.before == m.graph && ids == site.ids && primary == site.ix.primary
    requires forall w | w in owners :: w in windows && windows[w] in server.graph.windows
    requires LinksTidy(site.ix.saved, site.parked) && OwnersKnown(site, owners)
    requires Standing(server.graph, site, windows, placed0, placeholders)
    requires PlacedAtHosts(site, owners, windows, placed0) && (forall id | IsLeader(site, id) :: id in placed0)
    modifies server
    ensures World(server, m)
    ensures server.graph.(lists := old(server.graph).lists) == old(server.graph)
    ensures !ok ==> server.faults > m.faults
    ensures ok ==>
              && Standing(server.graph, site, windows, placed, placeholders)
              && LinkedDone(site, owners, windows, {}, placed)
  {
    hide Valid, Untouched, Standing, LinksTidy, OwnersKnown, Indexed, LinkedDone, LinkedSoFar, PlacedAtHosts;
    placed := placed0;
    var rest := owners.Keys;
    LinkedStart(site, owners, windows, placed0);
    while rest != {}
      decreases rest
      invariant World(server, m) && rest <= owners.Keys
      invariant server.graph.(lists := old(server.graph).lists) == old(server.graph)
      invariant Standing(server.graph, site, windows, placed, placeholders)
      invariant LinkedDone(site, owners, windows, rest, placed)
    {
      var w :| w in rest;
      LinkedNext(site, owners, windows, rest, placed, w);
      ghost var before := placed;
      ok, placed := LinkWindow(server, w, windows[w], owners, ids, primary, windows, placed, placeholders, site, m);
      if !ok {
        return;
      }
      LinkedThen(site, owners, windows, rest, before, placed, w);
      rest := rest - {w};
    }
    ok := true;
  }

  lemma LinkedStart(site: Site, owners: map<string, seq<Owner>>, windows: map<string, nat>,
                    placed: map<string, set<string>>)
    requires PlacedAtHosts(site, owners, windows, placed) && forall w | w in owners :: w in windows
    requires forall id | IsLeader(site, id) :: id in placed
    ensures LinkedDone(site, owners, windows, owners.Keys, placed)
  {
  }

  lemma LinkedNext(site: Site, owners: map<string, seq<Owner>>, windows: map<string, nat>, rest: set<string>,
                   placed: map<string, set<string>>, w: string)
    requires LinkedDone(site, owners, windows, rest, placed) && w in rest && w in owners
    ensures forall id | IsLeader(site, id) :: id in placed
    ensures LinkedSoFar(site, owners, w, {}, placed, placed)
  {
  }

  lemma LinkedThen(site: Site, owners: map<string, seq<Owner>>, windows: map<string, nat>, rest: set<string>,
                   before: map<string, set<string>>, placed: map<string, set<string>>, w: string)
    requires LinkedDone(site, owners, windows, rest, before) && w in rest
    requires placed.Keys == before.Keys
    requires forall id, v | id in placed && v != w :: v in placed[id] <==> v in before[id]
    requires forall id | IsLeader(site, id) && w in LinkedWindows(site.ix.saved[id].links) ::
               id in placed && w in placed[id]
    ensures LinkedDone(site, owners, windows, rest - {w}, placed)
  {
  }

  // ----- Phase four: the placeholders go -----

  /** The leader's whole saved list is placed. */
  ghost predicate FullyPlaced(site: Site, windows: map<string, nat>, placed: map<string, set<string>>) {
    forall id | IsLeader(site, id) ::
      && id in placed && site.ix.saved[id].links != []
      && forall k | 0 <= k < |site.ix.saved[id].links| :: site.ix.saved[id].links[k].windowId in placed[id]
  }

  ghost predicate Apart(placeholders: map<string, nat>, windows: map<string, nat>) {
    forall a, b | a in placeholders && b in windows :: placeholders[a] != windows[b]
  }

  ghost predicate Covered(g: Graph, site: Site) {
    forall x | x in g.sessions :: x in site.before.sessions || x in site.origin
  }

  lemma UnparkList(list: map<int, nat>, links: seq<Link>, windows: map<string, nat>, placed: set<string>,
                   parked: int, placeholder: nat)
    requires ListShows(list, links, windows, placed, map[parked := placeholder])
    requires forall k | 0 <= k < |links| :: links[k].index != parked
    requires forall w | w in windows :: windows[w] != placeholder
    ensures ListShows(Without(list, placeholder), links, windows, placed, map[])
  {
  }

  lemma SpareList(list: map<int, nat>, links: seq<Link>, windows: map<string, nat>, placed: set<string>,
                  spare: map<int, nat>, placeholder: nat)
    requires ListShows(list, links, windows, placed, spare)
    requires forall i | i in spare :: spare[i] != placeholder
    requires forall w | w in windows :: windows[w] != placeholder
    ensures Without(list, placeholder) == list && !Contains(list, placeholder)
  {
    forall i | i in list ensures list[i] != placeholder {
      if i !in spare {
        var k :| 0 <= k < |links| && links[k].index == i && links[k].windowId in placed;
      }
    }
  }

  lemma KillOneList(g: Graph, after: Graph, site: Site, windows: map<string, nat>, placed: map<string, set<string>>,
                    placeholders: map<string, nat>, key: string, id: string)
    requires IsLeader(site, id) && ListOk(g, site, windows, placed, placeholders, id)
    requires key in placeholders && Injective(placeholders) && Apart(placeholders, windows)
    requires LinksTidy(site.ix.saved, site.parked)
    requires site.ids[id] in after.lists
             && after.lists[site.ids[id]] == Without(g.lists[site.ids[id]], placeholders[key])
    ensures ListOk(after, site, windows, placed, placeholders - {key}, id)
  {
    hide ListShows;
    var list, links := g.lists[site.ids[id]], site.ix.saved[id].links;
    if id == key {
      forall k | 0 <= k < |links| ensures links[k].index != site.parked {
        assert LinkIndexes(links)[k] == links[k].index;
      }
      UnparkList(list, links, windows, placed[id], site.parked, placeholders[key]);
    } else {
      SpareList(list, links, windows, placed[id], Spare(placeholders, id, site.parked), placeholders[key]);
    }
  }

  lemma NotEmptied(g: Graph, site: Site, windows: map<string, nat>, placed: map<string, set<string>>,
                   placeholders: map<string, nat>, key: string, x: nat)
    requires Valid(site.before) && Untouched(site.before, g) && Covered(g, site)
    requires Standing(g, site, windows, placed, placeholders) && FullyPlaced(site, windows, placed)
    requires key in placeholders && Apart(placeholders, windows)
    requires x in g.sessions
    ensures !Emptied(g, x, placeholders[key])
  {
    hide ListShows, WindowsBuilt, LinksTidy;
    var w := placeholders[key];
    if x in site.before.sessions {
      assert forall i | i in ListOf(site.before, x) :: ListOf(site.before, x)[i] < site.before.next;
    } else {
      var leader := site.ix.primary[site.origin[x]];
      assert IsLeader(site, leader);
      assert ListOk(g, site, windows, placed, placeholders, leader);
      FirstStays(g.lists[site.ids[leader]], site.ix.saved[leader].links, windows, placed[leader],
                 Spare(placeholders, leader, site.parked), w);
    }
  }

  lemma FirstStays(list: map<int, nat>, links: seq<Link>, windows: map<string, nat>, placed: set<string>,
                   spare: map<int, nat>, w: nat)
    requires ListShows(list, links, windows, placed, spare) && links != [] && links[0].windowId in placed
    requires forall v | v in windows :: windows[v] != w
    ensures Without(list, w) != map[]
  {
    assert links[0].index in Without(list, w);
  }

  lemma KillOne(g: Graph, site: Site, windows: map<string, nat>, placed: map<string, set<string>>,
                placeholders: map<string, nat>, key: string)
    requires Valid(site.before) && Untouched(site.before, g) && Covered(g, site)
    requires Standing(g, site, windows, placed, placeholders) && FullyPlaced(site, windows, placed)
    requires LinksTidy(site.ix.saved, site.parked)
    requires key in placeholders && Apart(placeholders, windows)
    ensures Enabled(g, KillWindow(placeholders[key])) && placeholders[key] >= site.before.next
    ensures var after := Effect(g, KillWindow(placeholders[key]));
            && after.sessions == g.sessions && after.next == g.next
            && after.windows == g.windows - {placeholders[key]}
            && Apart(placeholders - {key}, windows)
            && Standing(after, site, windows, placed, placeholders - {key})
  {
    hide ListsOk, FullyPlaced, LinksTidy, Covered, Untouched, Valid, Indexed, SessionsBuilt, PlaceholdersLive,
         Injective;
    KillPlaceholder(g, site, placeholders, key);
    var after := Effect(g, KillWindow(placeholders[key]));
    forall x | x in g.sessions ensures !Emptied(g, x, placeholders[key]) {
      NotEmptied(g, site, windows, placed, placeholders, key, x);
    }
    assert after.sessions == g.sessions;
    SessionsKept(site.before, g, after, site.ix, site.ids, site.origin);
    KillLists(g, after, site, windows, placed, placeholders, key);
  }

  lemma KillPlaceholder(g: Graph, site: Site, placeholders: map<string, nat>, key: string)
    requires PlaceholdersLive(site.before, g, site.ids, placeholders) && key in placeholders
    ensures placeholders[key] in g.windows && placeholders[key] >= site.before.next && Injective(placeholders)
    ensures var after := Effect(g, KillWindow(placeholders[key]));
            PlaceholdersLive(site.before, after, site.ids, placeholders - {key})
  {
  }

  lemma KillLists(g: Graph, after: Graph, site: Site, windows: map<string, nat>, placed: map<string, set<string>>,
                  placeholders: map<string, nat>, key: string)
    requires SessionsBuilt(site.before, g, site.ix, site.ids, site.origin)
    requires ListsOk(g, site, windows, placed, placeholders)
    requires key in placeholders && Injective(placeholders) && Apart(placeholders, windows)
    requires LinksTidy(site.ix.saved, site.parked)
    requires after.lists == map l | l in g.lists :: Without(g.lists[l], placeholders[key])
    ensures ListsOk(after, site, windows, placed, placeholders - {key})
  {
    hide ListOk, LinksTidy, IsLeader, SessionsBuilt, Injective, Apart;
    forall id | IsLeader(site, id) ensures ListOk(after, site, windows, placed, placeholders - {key}, id) {
      LeaderList(g, site, id);
      LeaderIn(site, id);
      KillOneList(g, after, site, windows, placed, placeholders, key, id);
    }
  }

  lemma LeaderIn(site: Site, id: string)
    requires IsLeader(site, id)
    ensures id in site.ids && id in site.ix.saved
  {
  }

  method KillPlaceholders(server: Server, placeholders0: map<string, nat>, ghost all: seq<Window>,
                          ghost windows: map<string, nat>, ghost panes: map<string, nat>,
                          ghost placed: map<string, set<string>>, ghost site: Site, ghost m: Mark)
    returns (ok: bool)
    requires World(server, m) && site.before == m.graph
    requires Covered(server.graph, site) && FullyPlaced(site, windows, placed)
    requires LinksTidy(site.ix.saved, site.parked)
    requires Standing(server.graph, site, windows, placed, placeholders0) && Apart(placeholders0, windows)
    requires WindowsBuilt(m.graph, server.graph, all, windows, panes)
    modifies server
    ensures World(server, m)
    ensures server.graph.sessions == old(server.graph).sessions
    ensures !ok ==> server.faults > m.faults
    ensures ok ==>
              && Standing(server.graph, site, windows, placed, map[])
              && WindowsBuilt(m.graph, server.graph, all, windows, panes)
  {
    hide Valid, Untouched, Standing, LinksTidy, FullyPlaced, WindowsBuilt, Apart;
    var rest := placeholders0;
    while rest != map[]
      decreases |rest|
      invariant World(server, m) && server.graph.sessions == old(server.graph).sessions
      invariant Standing(server.graph, site, windows, placed, rest) && Apart(rest, windows)
      invariant WindowsBuilt(m.graph, server.graph, all, windows, panes)
    {
      SomeKey(rest);
      var key :| key in rest;
      ghost var g := server.graph;
      KillOne(g, site, windows, placed, rest, key);
      KillSpares(m.graph, g, all, windows, panes, rest, key);
      var output := Run(server, KillWindow(rest[key]), m);
      if output.None? {
        return false;
      }
      rest := rest - {key};
    }
    ok := true;
  }

  lemma KillSpares(before: Graph, g: Graph, all: seq<Window>, windows: map<string, nat>, panes: map<string, nat>,
                   placeholders: map<string, nat>, key: string)
    requires WindowsBuilt(before, g, all, windows, panes) && Apart(placeholders, windows) && key in placeholders
    requires placeholders[key] in g.windows
    ensures WindowsBuilt(before, Effect(g, KillWindow(placeholders[key])), all, windows, panes)
    ensures |placeholders - {key}| < |placeholders|
  {
    hide WindowShown, Injective;
    WindowsSame(before, g, Effect(g, KillWindow(placeholders[key])), all, windows, panes);
    assert placeholders.Keys == (placeholders - {key}).Keys + {key};
    assert |placeholders.Keys| == |placeholders| && |(placeholders - {key}).Keys| == |placeholders - {key}|;
  }

  // ----- Phase five: the sessions that share their leader's list -----

  /** Each group lists its sessions once, leader first; every grouped session is in its group. */
  ghost predicate GroupsKnown(ix: Index, groups: map<string, seq<Session>>) {
    && (forall g, k | g in groups && 0 <= k < |groups[g]| ::
          && groups[g][k].id in ix.saved && ix.saved[groups[g][k].id] == groups[g][k]
          && groups[g][k].group == Some(g)
          && groups[g][k].id in ix.primary && ix.primary[groups[g][k].id] == groups[g][0].id)
    && (forall g | g in groups :: groups[g] != [])
    && (forall g, j, k | g in groups && 0 <= j < k < |groups[g]| :: groups[g][j].id != groups[g][k].id)
    && (forall id | id in ix.saved && id in ix.primary && ix.primary[id] != id ::
          && ix.saved[id].group.Some? && ix.saved[id].group.value in groups
          && exists k :: 0 <= k < |groups[ix.saved[id].group.value]| && groups[ix.saved[id].group.value][k].id == id)
  }

  /** Which sessions exist once every group but `rest` is done, of which `group` only up to `count`. */
  ghost predicate MembersDone(ix: Index, groups: map<string, seq<Session>>, ids: map<string, nat>, rest: set<string>,
                              group: Option<string>, count: nat)
  {
    && (forall id | id in ix.saved && id in ix.primary && ix.primary[id] == id :: id in ids)
    && (forall id | id in ix.saved && id in ix.primary && ix.primary[id] != id ::
          id in ids <==> MemberMade(groups, ix.saved[id], rest, group, count))
  }

  ghost predicate MemberMade(groups: map<string, seq<Session>>, s: Session, rest: set<string>, group: Option<string>,
                             count: nat)
  {
    && s.group.Some? && s.group.value !in rest
    && (s.group == group ==>
          s.group.value in groups
          && exists k :: 1 <= k < count && k < |groups[s.group.value]| && groups[s.group.value][k].id == s.id)
  }

  ghost predicate LeadersExact(g: Graph, ix: Index, ids: map<string, nat>, windows: map<string, nat>) {
    forall id | id in ids && id in ix.saved && id in ix.primary && ix.primary[id] == id ::
      ids[id] in g.lists && ListExact(g.lists[ids[id]], ix.saved[id].links, windows)
  }

  method CreateMember(server: Server, name: string, leader: nat, ghost id: string, ghost ix: Index,
                      ghost ids: map<string, nat>, ghost origin: map<nat, string>, ghost created: seq<nat>,
                      ghost m: Mark)
    returns (made: Option<nat>)
    requires World(server, m) && Indexed(ix)
    requires SessionsBuilt(m.graph, server.graph, ix, ids, origin)
    requires Tracked(m.graph, server.graph, created, None) && Elements(created) == origin.Keys
    requires id in ix.saved && id !in ids && ix.saved[id].name == name
    requires id in ix.primary && ix.primary[id] in ids && ids[ix.primary[id]] == leader
    requires NameFree(m.graph, name)
    modifies server
    ensures World(server, m)
    ensures made.None? ==> server.faults > m.faults && server.graph == old(server.graph)
    ensures made.Some? ==>
              && made.value == old(server.graph).next
              && server.graph.lists == old(server.graph).lists && server.graph.windows == old(server.graph).windows
              && server.graph.next > old(server.graph).next
              && SessionsBuilt(m.graph, server.graph, ix, ids[id := made.value], origin[made.value := id])
              && Tracked(m.graph, server.graph, created + [made.value], None)
              && Elements(created + [made.value]) == origin.Keys + {made.value}
  {
    hide SessionsBuilt, Tracked, Indexed, Untouched, Valid;
    ghost var g := server.graph;
    FreshName(m.graph, g, ix, ids, origin, created, id);
    MemberTarget(m.graph, g, ix, ids, origin, id);
    var output := Run(server, NewGroupedSession(name, leader), m);
    if output.None? {
      return None;
    }
    NextOk(m.graph, g);
    SessionsGrow(m.graph, g, server.graph, ix, ids, origin, id);
    TrackedGrows(m.graph, g, server.graph, created, server.graph.sessions[g.next]);
    made := Some(output.value[0]);
  }

  lemma MemberTarget(before: Graph, g: Graph, ix: Index, ids: map<string, nat>, origin: map<nat, string>, id: string)
    requires SessionsBuilt(before, g, ix, ids, origin) && Indexed(ix)
    requires id in ix.saved && id in ix.primary && ix.primary[id] in ids
    ensures var leader := ids[ix.primary[id]]; HasList(g, leader) && g.sessions[leader].list == leader
    ensures id in ix.saved && id in ix.primary && (id !in ids ==> ix.primary[id] != id)
  {
    assert ids[ix.primary[id]] in origin;
  }

  method CreateMembers(server: Server, groups: map<string, seq<Session>>, ids0: map<string, nat>, created0: seq<nat>,
                       ghost ix: Index, ghost origin0: map<nat, string>, ghost windows: map<string, nat>,
                       ghost panes: map<string, nat>, ghost all: seq<Window>, ghost m: Mark)
    returns (ok: bool, ids: map<string, nat>, created: seq<nat>, ghost origin: map<nat, string>)
    requires World(server, m) && Indexed(ix) && GroupsKnown(ix, groups)
    requires SessionsBuilt(m.graph, server.graph, ix, ids0, origin0)
    requires Tracked(m.graph, server.graph, created0, None) && Elements(created0) == origin0.Keys
    requires LeadersExact(server.graph, ix, ids0, windows)
    requires WindowsBuilt(m.graph, server.graph, all, windows, panes)
    requires MembersDone(ix, groups, ids0, groups.Keys, None, 0)
    requires forall id | id in ix.saved :: NameFree(m.graph, ix.saved[id].name)
    modifies server
    ensures World(server, m)
    ensures Tracked(m.graph, server.graph, created, None)
    ensures !ok ==> server.faults > m.faults
    ensures ok ==>
              && SessionsBuilt(m.graph, server.graph, ix, ids, origin)
              && LeadersExact(server.graph, ix, ids, windows)
              && WindowsBuilt(m.graph, server.graph, all, windows, panes)
              && (forall id | id in ix.saved :: id in ids)
              && Elements(created) == origin.Keys
  {
    hide Valid, Untouched, SessionsBuilt, Tracked, Indexed, LeadersExact, WindowsBuilt, MembersDone, NameFree;
    ids, created, origin := ids0, created0, origin0;
    var rest := groups.Keys;
    while rest != {}
      decreases rest
      invariant World(server, m) && rest <= groups.Keys
      invariant SessionsBuilt(m.graph, server.graph, ix, ids, origin)
      invariant Tracked(m.graph, server.graph, created, None) && Elements(created) == origin.Keys
      invariant LeadersExact(server.graph, ix, ids, windows)
      invariant WindowsBuilt(m.graph, server.graph, all, windows, panes)
      invariant MembersDone(ix, groups, ids, rest, None, 0)
    {
      var group :| group in rest;
      GroupStart(ix, groups, ids, rest, group);
      rest := rest - {group};
      var members := groups[group];
      for k := 1 to |members|
        invariant World(server, m)
        invariant SessionsBuilt(m.graph, server.graph, ix, ids, origin)
        invariant Tracked(m.graph, server.graph, created, None) && Elements(created) == origin.Keys
        invariant LeadersExact(server.graph, ix, ids, windows)
        invariant WindowsBuilt(m.graph, server.graph, all, windows, panes)
        invariant MembersDone(ix, groups, ids, rest, Some(group), k)
      {
        var member := members[k];
        MemberPending(ix, groups, ids, rest, group, k);
        var leader := ids[members[0].id];
        ghost var g := server.graph;
        var made := CreateMember(server, member.name, leader, member.id, ix, ids, origin, created, m);
        if made.None? {
          ok := false;
          return;
        }
        LeadersStay(g, server.graph, ix, ids, windows, member.id, made.value);
        WindowsSame(m.graph, g, server.graph, all, windows, panes);
        MemberDone(ix, groups, ids, rest, group, k, made.value);
        created := created + [made.value];
        ids := ids[member.id := made.value];
        origin := origin[made.value := member.id];
      }
      GroupEnd(ix, groups, ids, rest, group);
    }
    EverySession(ix, groups, ids);
    ok := true;
  }

  lemma LeadersStay(g: Graph, after: Graph, ix: Index, ids: map<string, nat>, windows: map<string, nat>, id: string,
                    live: nat)
    requires LeadersExact(g, ix, ids, windows) && after.lists == g.lists
    requires id in ix.primary && ix.primary[id] != id
    ensures LeadersExact(after, ix, ids[id := live], windows)
  {
  }

  lemma GroupStart(ix: Index, groups: map<string, seq<Session>>, ids: map<string, nat>, rest: set<string>,
                   group: string)
    requires MembersDone(ix, groups, ids, rest, None, 0) && group in rest && rest <= groups.Keys
    ensures MembersDone(ix, groups, ids, rest - {group}, Some(group), 1)
  {
  }

  lemma MemberPending(ix: Index, groups: map<string, seq<Session>>, ids: map<string, nat>, rest: set<string>,
                      group: string, k: nat)
    requires Indexed(ix) && GroupsKnown(ix, groups) && MembersDone(ix, groups, ids, rest, Some(group), k)
    requires group in groups && 1 <= k < |groups[group]|
    ensures var id := groups[group][k].id;
            && id !in ids && id in ix.saved && ix.saved[id] == groups[group][k]
            && id in ix.primary && ix.primary[id] == groups[group][0].id && ix.primary[id] in ids
            && ix.primary[id] != id
  {
    var id := groups[group][k].id;
    assert groups[group][0].id != id;
    assert ix.primary[groups[group][0].id] == groups[group][0].id;
  }

  lemma MemberDone(ix: Index, groups: map<string, seq<Session>>, ids: map<string, nat>, rest: set<string>,
                   group: string, k: nat, live: nat)
    requires Indexed(ix) && GroupsKnown(ix, groups) && MembersDone(ix, groups, ids, rest, Some(group), k)
    requires group in groups && group !in rest && 1 <= k < |groups[group]|
    ensures MembersDone(ix, groups, ids[groups[group][k].id := live], rest, Some(group), k + 1)
  {
    var done := groups[group][k].id;
    var ids' := ids[done := live];
    assert groups[group][0].id != done && ix.primary[done] == groups[group][0].id;
    forall id | id in ix.saved && id in ix.primary && ix.primary[id] != id
      ensures id in ids' <==> MemberMade(groups, ix.saved[id], rest, Some(group), k + 1)
    {
      assert id in ids <==> MemberMade(groups, ix.saved[id], rest, Some(group), k);
      if MemberMade(groups, ix.saved[id], rest, Some(group), k + 1) && id != done && ix.saved[id].group == Some(group) {
        var j :| 1 <= j < k + 1 && j < |groups[group]| && groups[group][j].id == ix.saved[id].id;
        assert j != k;
      }
    }
  }

  lemma GroupEnd(ix: Index, groups: map<string, seq<Session>>, ids: map<string, nat>, rest: set<string>, group: string)
    requires Indexed(ix) && GroupsKnown(ix, groups) && group in groups && group !in rest
    requires MembersDone(ix, groups, ids, rest, Some(group), |groups[group]|)
    ensures MembersDone(ix, groups, ids, rest, None, 0)
  {
    forall id | id in ix.saved && id in ix.primary && ix.primary[id] != id
      ensures id in ids <==> MemberMade(groups, ix.saved[id], rest, None, 0)
    {
      if ix.saved[id].group == Some(group) {
        var k :| 0 <= k < |groups[group]| && groups[group][k].id == id;
        assert k != 0 by {
          assert ix.primary[groups[group][0].id] == groups[group][0].id;
        }
      }
    }
  }

  lemma EverySession(ix: Index, groups: map<string, seq<Session>>, ids: map<string, nat>)
    requires Indexed(ix) && GroupsKnown(ix, groups) && MembersDone(ix, groups, ids, {}, None, 0)
    ensures forall id | id in ix.saved :: id in ids
  {
    forall id | id in ix.saved ensures id in ids {
      assert ix.primary[id] != id ==> MemberMade(groups, ix.saved[id], {}, None, 0);
    }
  }

  // ----- The whole build -----

  ghost function ById(sessions: seq<Session>): map<string, Session> {
    if sessions == [] then map[]
    else ById(sessions[..|sessions| - 1])[sessions[|sessions| - 1].id := sessions[|sessions| - 1]]
  }

  ghost function IdByName(sessions: seq<Session>): map<string, string> {
    if sessions == [] then map[]
    else IdByName(sessions[..|sessions| - 1])[sessions[|sessions| - 1].name := sessions[|sessions| - 1].id]
  }

  lemma {:induction false} ByIdIs(sessions: seq<Session>)
    requires Distinct(SessionIds(sessions)) && Distinct(SessionNames(sessions))
    ensures forall s | s in sessions :: s.id in ById(sessions) && ById(sessions)[s.id] == s
    ensures forall id | id in ById(sessions) :: ById(sessions)[id] in sessions && ById(sessions)[id].id == id
    ensures forall s | s in sessions :: s.name in IdByName(sessions) && IdByName(sessions)[s.name] == s.id
  {
    if sessions != [] {
      var init, last := sessions[..|sessions| - 1], sessions[|sessions| - 1];
      DistinctPrefix(SessionIds(sessions), SessionIds(init));
      DistinctPrefix(SessionNames(sessions), SessionNames(init));
      ByIdIs(init);
      assert sessions == init + [last];
      forall s | s in init ensures s.id != last.id && s.name != last.name {
        var k :| 0 <= k < |init| && init[k] == s;
        assert SessionIds(sessions)[k] != SessionIds(sessions)[|init|];
        assert SessionNames(sessions)[k] != SessionNames(sessions)[|init|];
      }
    }
  }

  ghost function IndexOf(sessions: seq<Session>, primary: map<string, string>): Index {
    Index(ById(sessions), primary, IdByName(sessions))
  }

  ghost predicate LeadersNamed(sessions: seq<Session>, primary: map<string, string>) {
    forall s | s in sessions :: s.id in primary && primary[s.id] == Leader(sessions, s).id
  }

  lemma IndexBuilt(sessions: seq<Session>, primary: map<string, string>)
    requires Distinct(SessionIds(sessions)) && Distinct(SessionNames(sessions)) && LeadersNamed(sessions, primary)
    ensures Indexed(IndexOf(sessions, primary))
    ensures forall s | s in sessions :: s.id in ById(sessions) && ById(sessions)[s.id] == s
    ensures forall id | id in ById(sessions) :: ById(sessions)[id] in sessions && ById(sessions)[id].id == id
  {
    ByIdIs(sessions);
    var ix := IndexOf(sessions, primary);
    forall id | id in ix.saved
      ensures ix.primary[id] in ix.saved && ix.primary[ix.primary[id]] == ix.primary[id]
    {
      var s := ix.saved[id];
      LeaderFacts(sessions, s, s);
    }
  }

  lemma GroupsIndexed(sessions: seq<Session>, primary: map<string, string>, groups: map<string, seq<Session>>)
    requires Distinct(SessionIds(sessions)) && Distinct(SessionNames(sessions)) && LeadersNamed(sessions, primary)
    requires forall g :: g in groups <==> Members(sessions, g) != []
    requires forall g | g in groups :: groups[g] == Members(sessions, g)
    ensures GroupsKnown(IndexOf(sessions, primary), groups)
  {
    ByIdIs(sessions);
    var ix := IndexOf(sessions, primary);
    forall g | g in groups
      ensures forall k | 0 <= k < |groups[g]| ::
                && groups[g][k] in sessions && groups[g][k].group == Some(g)
                && primary[groups[g][k].id] == groups[g][0].id
      ensures forall j, k | 0 <= j < k < |groups[g]| :: groups[g][j].id != groups[g][k].id
    {
      MembersAre(sessions, g);
      forall k | 0 <= k < |groups[g]| ensures groups[g][k] in sessions && groups[g][k].group == Some(g) {
        assert groups[g][k] in groups[g];
      }
      forall j, k | 0 <= j < k < |groups[g]| ensures groups[g][j].id != groups[g][k].id {
        assert SessionIds(groups[g])[j] != SessionIds(groups[g])[k];
      }
    }
    forall id | id in ix.saved && ix.primary[id] != id
      ensures ix.saved[id].group.Some? && ix.saved[id].group.value in groups
      ensures exists k :: 0 <= k < |groups[ix.saved[id].group.value]| && groups[ix.saved[id].group.value][k].id == id
    {
      var s := ix.saved[id];
      MembersAre(sessions, s.group.value);
      assert s in groups[s.group.value];
      var k :| 0 <= k < |groups[s.group.value]| && groups[s.group.value][k] == s;
    }
  }

  lemma OwnersIndexed(sessions: seq<Session>, primary: map<string, string>, owners: map<string, seq<Owner>>, site: Site)
    requires Distinct(SessionIds(sessions)) && Distinct(SessionNames(sessions)) && LeadersNamed(sessions, primary)
    requires GroupsAgree(sessions) && site.ix == IndexOf(sessions, primary)
    requires forall id | id in site.ix.saved && id in primary && primary[id] == id :: id in site.ids
    requires forall w :: w in owners <==> OwnersOf(sessions, w) != []
    requires forall w | w in owners :: owners[w] == OwnersOf(sessions, w)
    ensures OwnersKnown(site, owners)
  {
    ByIdIs(sessions);
    forall w, k | w in owners && 0 <= k < |owners[w]| ensures OwnerOk(site, owners[w][k], w) {
      OwnersAre(sessions, w);
      var o := owners[w][k];
      assert o in owners[w];
      var s :| s in sessions && s.id == o.session && HasLink(s.links, w, o.index);
      LeaderFacts(sessions, s, s);
      SameLinks(s.links, Leader(sessions, s).links, w, o.index);
    }
    forall w, id | w in owners && IsLeader(site, id) && w in LinkedWindows(site.ix.saved[id].links)
      ensures exists k :: 0 <= k < |owners[w]| && owners[w][k].session == id
    {
      OwnersAre(sessions, w);
      var s := site.ix.saved[id];
      var k :| 0 <= k < |s.links| && LinkedWindows(s.links)[k] == w;
      assert HasLink(s.links, w, s.links[k].index);
      assert Links(sessions, Owner(id, s.links[k].index), w);
      assert Owner(id, s.links[k].index) in owners[w];
    }
  }

  lemma SameLinks(a: seq<Link>, b: seq<Link>, w: string, index: int)
    requires Elements(a) == Elements(b) && HasLink(a, w, index)
    ensures HasLink(b, w, index)
  {
    var k :| 0 <= k < |a| && a[k].windowId == w && a[k].index == index;
    assert a[k] in Elements(b);
    var j :| 0 <= j < |b| && b[j] == a[k];
  }

  lemma TidyLinks(state: State, primary: map<string, string>, parked: int)
    requires Buildable(state) && !UsesIndex(state.sessions, parked)
    ensures LinksTidy(ById(state.sessions), parked)
  {
    ByIdIs(state.sessions);
    var saved := ById(state.sessions);
    forall id | id in saved
      ensures Distinct(LinkedWindows(saved[id].links)) && Distinct(LinkIndexes(saved[id].links))
      ensures parked !in LinkIndexes(saved[id].links)
    {
      var s := saved[id];
      assert SessionOk(s, Elements(WindowIds(state.windows)));
      if parked in LinkIndexes(s.links) {
        var k :| 0 <= k < |s.links| && LinkIndexes(s.links)[k] == parked;
        assert HasLink(s.links, s.links[k].windowId, parked);
      }
    }
  }

  lemma {:induction false} OwnedHasOwner(sessions: seq<Session>, w: string)
    requires Owned(sessions, w)
    ensures OwnersOf(sessions, w) != []
  {
    OwnersAre(sessions, w);
    var s, k :| 0 <= s < |sessions| && 0 <= k < |sessions[s].links| && sessions[s].links[k].windowId == w;
    assert HasLink(sessions[s].links, w, sessions[s].links[k].index);
    assert sessions[s] in sessions;
    assert Links(sessions, Owner(sessions[s].id, sessions[s].links[k].index), w);
  }

  /** After phase one every list shows its placeholder and nothing else. */
  lemma SiteOpens(g: Graph, site: Site, placeholders: map<string, nat>, placed: map<string, set<string>>,
                  owners: map<string, seq<Owner>>)
    requires Indexed(site.ix) && Valid(g)
    requires Skeleton(site.before, g, site.ix, site.ids, site.origin, placeholders, site.parked)
    requires placed.Keys == site.ix.saved.Keys && forall id | id in placed :: placed[id] == {}
    ensures Standing(g, site, map[], placed, placeholders)
    ensures PlacedAtHosts(site, owners, map[], placed)
    ensures forall a | a in placeholders :: placeholders[a] < g.next
    ensures forall id | IsLeader(site, id) :: id in placed
  {
    hide Indexed, SessionsBuilt;
    forall id | IsLeader(site, id) ensures ListOk(g, site, map[], placed, placeholders, id) {
    }
  }

  /** Once every window exists and every owner has it, the leaders' lists are fully placed. */
  lemma AllPlaced(state: State, primary: map<string, string>, owners: map<string, seq<Owner>>, site: Site,
                  windows: map<string, nat>, placed: map<string, set<string>>)
    requires Buildable(state) && site.ix == IndexOf(state.sessions, primary)
    requires forall w :: w in owners <==> OwnersOf(state.sessions, w) != []
    requires LinkedDone(site, owners, windows, {}, placed)
    ensures FullyPlaced(site, windows, placed)
  {
    hide WellFormed;
    BuildableParts(state);
    ByIdIs(state.sessions);
    forall id | IsLeader(site, id)
      ensures id in placed && site.ix.saved[id].links != []
      ensures forall k | 0 <= k < |site.ix.saved[id].links| :: site.ix.saved[id].links[k].windowId in placed[id]
    {
      var s := site.ix.saved[id];
      forall k | 0 <= k < |s.links| ensures s.links[k].windowId in placed[id] {
        LinkedHasOwner(state.sessions, s, k);
        assert LinkedWindows(s.links)[k] == s.links[k].windowId;
      }
    }
  }

  lemma LinkedHasOwner(sessions: seq<Session>, s: Session, k: nat)
    requires s in sessions && k < |s.links|
    ensures OwnersOf(sessions, s.links[k].windowId) != []
  {
    OwnersAre(sessions, s.links[k].windowId);
    assert HasLink(s.links, s.links[k].windowId, s.links[k].index);
    assert Links(sessions, Owner(s.id, s.links[k].index), s.links[k].windowId);
  }

  lemma OwnedExist(state: State, before: Graph, g: Graph, w: string, windows: map<string, nat>, panes: map<string, nat>)
    requires WellFormed(state) && OwnersOf(state.sessions, w) != []
    requires WindowsBuilt(before, g, state.windows, windows, panes)
    ensures w in windows && windows[w] in g.windows
  {
    OwnersAre(state.sessions, w);
    var o := OwnersOf(state.sessions, w)[0];
    assert o in OwnersOf(state.sessions, w);
    var s :| s in state.sessions && s.id == o.session && HasLink(s.links, w, o.index);
    assert SessionOk(s, Elements(WindowIds(state.windows)));
    var j :| 0 <= j < |state.windows| && WindowIds(state.windows)[j] == w;
    assert WindowShown(g, state.windows[j], windows, panes);
  }

  lemma WindowsReady(state: State, owners: map<string, seq<Owner>>)
    requires Buildable(state) && forall w :: w in owners <==> OwnersOf(state.sessions, w) != []
    ensures PanesUnique(state.windows) && Distinct(WindowIds(state.windows))
    ensures forall k | 0 <= k < |state.windows| ::
              PaneRun(state.windows[k].panes) && state.windows[k].panes != [] && state.windows[k].id in owners
  {
    forall k | 0 <= k < |state.windows|
      ensures PaneRun(state.windows[k].panes) && state.windows[k].panes != [] && state.windows[k].id in owners
    {
      var w := state.windows[k];
      assert w in state.windows && WindowOk(w);
      OwnedHasOwner(state.sessions, w.id);
    }
  }

  lemma Exactly(g: Graph, site: Site, windows: map<string, nat>, placed: map<string, set<string>>)
    requires Standing(g, site, windows, placed, map[]) && FullyPlaced(site, windows, placed)
    ensures LeadersExact(g, site.ix, site.ids, windows)
  {
    forall id | id in site.ids && id in site.ix.saved && id in site.ix.primary && site.ix.primary[id] == id
      ensures site.ids[id] in g.lists && ListExact(g.lists[site.ids[id]], site.ix.saved[id].links, windows)
    {
      assert IsLeader(site, id);
      assert ListOk(g, site, windows, placed, map[], id);
    }
  }

  lemma SameExact(list: map<int, nat>, a: seq<Link>, b: seq<Link>, windows: map<string, nat>)
    requires ListExact(list, b, windows) && Elements(a) == Elements(b)
    ensures ListExact(list, a, windows)
  {
    forall k | 0 <= k < |a|
      ensures a[k].windowId in windows && a[k].index in list && list[a[k].index] == windows[a[k].windowId]
    {
      assert a[k] in Elements(b);
      var j :| 0 <= j < |b| && b[j] == a[k];
    }
    forall i | i in list ensures exists k :: 0 <= k < |a| && a[k].index == i {
      var j :| 0 <= j < |b| && b[j].index == i;
      assert b[j] in Elements(a);
      var k :| 0 <= k < |a| && a[k] == b[j];
    }
  }

  lemma SessionLive(before: Graph, g: Graph, ix: Index, ids: map<string, nat>, origin: map<nat, string>, id: string)
    requires SessionsBuilt(before, g, ix, ids, origin) && id in ids
    ensures id in ix.saved && id in ix.primary && ix.primary[id] in ids
    ensures ids[id] >= before.next && HasList(g, ids[id])
    ensures g.sessions[ids[id]] == SessionRecord(ix.saved[id].name, ids[ix.primary[id]])
  {
    assert ids[id] in origin;
  }

  lemma LeaderKnown(state: State, ix: Index, s: Session)
    requires Buildable(state) && LeadersNamed(state.sessions, ix.primary) && ix == IndexOf(state.sessions, ix.primary)
    requires s in state.sessions
    ensures s.id in ix.saved && ix.saved[s.id] == s && s.id in ix.primary
    ensures var leader := Leader(state.sessions, s);
            && leader.id == ix.primary[s.id] && leader.id in ix.saved && ix.saved[leader.id] == leader
            && leader.id in ix.primary && ix.primary[leader.id] == leader.id
            && Elements(s.links) == Elements(leader.links)
  {
    hide WellFormed;
    BuildableParts(state);
    ByIdIs(state.sessions);
    LeaderFacts(state.sessions, s, s);
  }

  lemma FinalSession(before: Graph, g: Graph, state: State, ix: Index, ids: map<string, nat>,
                     origin: map<nat, string>, windows: map<string, nat>, s: Session)
    requires Buildable(state) && LeadersNamed(state.sessions, ix.primary) && ix == IndexOf(state.sessions, ix.primary)
    requires SessionsBuilt(before, g, ix, ids, origin) && LeadersExact(g, ix, ids, windows)
    requires forall id | id in ix.saved :: id in ids
    requires s in state.sessions
    ensures s.id in ids && ids[s.id] >= before.next && HasList(g, ids[s.id]) && g.sessions[ids[s.id]].name == s.name
    ensures var leader := Leader(state.sessions, s).id;
            leader in ids && g.sessions[ids[s.id]].list == ids[leader]
    ensures ListExact(ListOf(g, ids[s.id]), s.links, windows)
  {
    hide Buildable, LeadersNamed, SessionsBuilt, ListExact, IndexOf, Leader;
    LeaderKnown(state, ix, s);
    SessionLive(before, g, ix, ids, origin, s.id);
    var leader := Leader(state.sessions, s);
    SameExact(g.lists[ids[leader.id]], s.links, leader.links, windows);
  }

  lemma IdsInjective(before: Graph, g: Graph, ix: Index, ids: map<string, nat>, origin: map<nat, string>)
    requires SessionsBuilt(before, g, ix, ids, origin)
    ensures Injective(ids)
  {
  }

  lemma FinalCopy(before: Graph, g: Graph, state: State, ix: Index, ids: map<string, nat>, origin: map<nat, string>,
                  windows: map<string, nat>, panes: map<string, nat>)
    requires Buildable(state) && LeadersNamed(state.sessions, ix.primary) && ix == IndexOf(state.sessions, ix.primary)
    requires SessionsBuilt(before, g, ix, ids, origin) && LeadersExact(g, ix, ids, windows)
    requires WindowsBuilt(before, g, state.windows, windows, panes)
    requires forall id | id in ix.saved :: id in ids
    ensures Rebuilt(g, state, Built(ids, windows, panes))
  {
    hide SessionsBuilt, LeadersExact, Injective, ListExact, WindowShown, Buildable, LeadersNamed;
    IdsInjective(before, g, ix, ids, origin);
    forall s | s in state.sessions
      ensures s.id in ids && HasList(g, ids[s.id]) && g.sessions[ids[s.id]].name == s.name
      ensures ListExact(ListOf(g, ids[s.id]), s.links, windows)
    {
      FinalSession(before, g, state, ix, ids, origin, windows, s);
    }
    forall a, b | a in state.sessions && b in state.sessions
      ensures g.sessions[ids[a.id]].list == g.sessions[ids[b.id]].list
              <==> a == b || (a.group.Some? && a.group == b.group)
    {
      FinalSession(before, g, state, ix, ids, origin, windows, a);
      FinalSession(before, g, state, ix, ids, origin, windows, b);
      FinalGroup(state, ids, a, b);
    }
    forall w | w in state.windows ensures WindowShown(g, w, windows, panes) {
      var k :| 0 <= k < |state.windows| && state.windows[k] == w;
    }
  }

  lemma FinalNew(before: Graph, g: Graph, state: State, ix: Index, ids: map<string, nat>, origin: map<nat, string>,
                 windows: map<string, nat>, panes: map<string, nat>)
    requires SessionsBuilt(before, g, ix, ids, origin)
    requires WindowsBuilt(before, g, state.windows, windows, panes)
    ensures NewCopy(before, g, Built(ids, windows, panes))
  {
    forall id | id in ids ensures before.next <= ids[id] && ids[id] in g.sessions {
      assert ids[id] in origin;
    }
  }

  lemma FinalOnly(before: Graph, g: Graph, state: State, ix: Index, ids: map<string, nat>, origin: map<nat, string>,
                  windows: map<string, nat>, panes: map<string, nat>, created: seq<nat>)
    requires SessionsBuilt(before, g, ix, ids, origin) && ix == IndexOf(state.sessions, ix.primary)
    requires WellFormed(state) && Distinct(SessionNames(state.sessions))
    requires Tracked(before, g, created, None) && Elements(created) == origin.Keys
    ensures NothingElse(before, g, state, Built(ids, windows, panes))
  {
    hide WellFormed;
    SavedById(state, ix);
    forall x | x in g.sessions && x !in before.sessions
      ensures exists s :: s in state.sessions && s.id in ids && ids[s.id] == x
    {
      assert x in Elements(created);
      assert ix.saved[origin[x]] in state.sessions;
    }
  }

  lemma SavedById(state: State, ix: Index)
    requires WellFormed(state) && Distinct(SessionNames(state.sessions)) && ix == IndexOf(state.sessions, ix.primary)
    ensures forall id | id in ix.saved :: ix.saved[id] in state.sessions && ix.saved[id].id == id
  {
    ByIdIs(state.sessions);
  }

  lemma FinalGroup(state: State, ids: map<string, nat>, a: Session, b: Session)
    requires Buildable(state) && Injective(ids) && a in state.sessions && b in state.sessions
    requires Leader(state.sessions, a).id in ids && Leader(state.sessions, b).id in ids
    ensures ids[Leader(state.sessions, a).id] == ids[Leader(state.sessions, b).id]
            <==> a == b || (a.group.Some? && a.group == b.group)
  {
    LeaderFacts(state.sessions, a, b);
    LeaderFacts(state.sessions, b, a);
    if ids[Leader(state.sessions, a).id] == ids[Leader(state.sessions, b).id] {
      SameId(state.sessions, Leader(state.sessions, a), Leader(state.sessions, b));
    }
  }

  /** The placeholders can be parked: some index is unused, and it is not where tmux already puts
      the first window of a new session. */
  predicate CanPark(state: State, g: Graph) {
    UnusedWindowIndex(state).Some? && UnusedWindowIndex(state).value != g.baseIndex
  }

  /** An index nobody uses, below which every index is used. */
  ghost predicate LeastUnused(state: State, index: int) {
    && 0 <= index <= I32_MAX && !UsesIndex(state.sessions, index)
    && forall i | 0 <= i < index :: UsesIndex(state.sessions, i)
  }

  /** Placeholders cannot be parked exactly when all indexes are used, or when the server numbers windows
      from the least index the snapshot does not use. */
  lemma ParkingFailsExactly(state: State, g: Graph)
    ensures !CanPark(state, g)
            <==> (forall i | 0 <= i <= I32_MAX :: UsesIndex(state.sessions, i)) || LeastUnused(state, g.baseIndex)
  {
    UnusedWindowIndexIsLeast(state);
    var unused := UnusedWindowIndex(state);
    if unused.Some? && LeastUnused(state, g.baseIndex) {
      assert !UsesIndex(state.sessions, unused.value);
    }
  }

  lemma BuildableParts(state: State)
    requires Buildable(state)
    ensures Distinct(SessionIds(state.sessions)) && Distinct(SessionNames(state.sessions)) && state.sessions != []
    ensures GroupsAgree(state.sessions) && WellFormed(state)
  {
  }

  lemma TrackedSame(before: Graph, g: Graph, after: Graph, created: seq<nat>)
    requires Tracked(before, g, created, None) && after.sessions == g.sessions
    ensures Tracked(before, after, created, None)
  {
  }

  lemma CoveredBy(g: Graph, site: Site, created: seq<nat>)
    requires Tracked(site.before, g, created, None) && Elements(created) == site.origin.Keys
    ensures Covered(g, site)
  {
  }

  /** Phases two to four: windows and panes, further links, and no placeholders any more. */
  method FillSessions(server: Server, state: State, primary: map<string, string>, ids: map<string, nat>,
                      placeholders: map<string, nat>, ghost site: Site, ghost created: seq<nat>, ghost m: Mark)
    returns (ok: bool, windows: map<string, nat>, panes: map<string, nat>)
    requires World(server, m) && Buildable(state) && Indexed(site.ix)
    requires site.before == m.graph && site.ids == ids && site.ix == IndexOf(state.sessions, primary)
    requires LeadersNamed(state.sessions, primary) && LinksTidy(site.ix.saved, site.parked)
    requires forall id | id in site.ix.saved && id in primary && primary[id] == id :: id in ids
    requires Skeleton(m.graph, server.graph, site.ix, ids, site.origin, placeholders, site.parked)
    requires Covered(server.graph, site)
    modifies server
    ensures World(server, m)
    ensures server.graph.sessions == old(server.graph).sessions
    ensures !ok ==> server.faults > m.faults
    ensures ok ==>
              && SessionsBuilt(m.graph, server.graph, site.ix, ids, site.origin)
              && LeadersExact(server.graph, site.ix, ids, windows)
              && WindowsBuilt(m.graph, server.graph, state.windows, windows, panes)
  {
    hide Valid, Untouched, Buildable, Skeleton, LinksTidy, LeadersNamed, WindowsBuilt, Indexed, PlacedAtHosts,
         OwnersKnown, LinkedDone, FullyPlaced, LeadersExact, SessionsBuilt, IsLeader, PaneRun, ListsOk,
         PlaceholdersLive, PanesUnique, IndexOf;
    var sessions := state.sessions;
    ghost var placed: map<string, set<string>> := map id | id in site.ix.saved :: {};
    var owners := WindowOwners(sessions);
    BuildableParts(state);
    IndexIs(sessions, primary, site);
    OwnersIndexed(sessions, primary, owners, site);
    SiteOpens(server.graph, site, placeholders, placed, owners);
    WindowsReady(state, owners);
    ghost var placed0 := placed;
    ok, windows, panes, placed :=
      CreateWindows(server, state.windows, owners, ids, primary, placed0, placeholders, site, m);
    if !ok {
      return;
    }
    forall w | w in owners ensures w in windows && windows[w] in server.graph.windows {
      OwnedExist(state, m.graph, server.graph, w, windows, panes);
    }
    ghost var g := server.graph;
    ok, placed := LinkWindows(server, owners, windows, ids, primary, placed, placeholders, site, m);
    if !ok {
      return;
    }
    WindowsSame(m.graph, g, server.graph, state.windows, windows, panes);
    AllPlaced(state, primary, owners, site, windows, placed);
    CoveredSame(g, server.graph, site);
    ok := KillPlaceholders(server, placeholders, state.windows, windows, panes, placed, site, m);
    if !ok {
      return;
    }
    Exactly(server.graph, site, windows, placed);
  }

  lemma IndexIs(sessions: seq<Session>, primary: map<string, string>, site: Site)
    requires site.ix == IndexOf(sessions, primary)
    ensures site.ix.primary == primary
  {
  }

  lemma CoveredSame(g: Graph, after: Graph, site: Site)
    requires Covered(g, site) && after.sessions == g.sessions
    ensures Covered(after, site)
  {
  }

  lemma Prepared(state: State, primary: map<string, string>, deferred: set<string>, groups: map<string, seq<Session>>,
                 parked: int, ix: Index, g: Graph)
    requires Buildable(state) && ix == IndexOf(state.sessions, primary)
    requires forall s | s in state.sessions :: s.id in primary && primary[s.id] == Leader(state.sessions, s).id
    requires forall s | s in state.sessions :: s.id in deferred <==> Leader(state.sessions, s) != s
    requires forall k :: k in groups <==> Members(state.sessions, k) != []
    requires forall k | k in groups :: groups[k] == Members(state.sessions, k)
    requires UnusedWindowIndex(state) == Some(parked)
    requires forall s | s in state.sessions :: NameFree(g, s.name)
    ensures Indexed(ix) && ix.primary == primary && LeadersNamed(state.sessions, primary)
    ensures forall k | 0 <= k < |state.sessions| ::
              && state.sessions[k].id in ix.saved && ix.saved[state.sessions[k].id] == state.sessions[k]
    ensures forall i, j | 0 <= i < j < |state.sessions| :: state.sessions[i].id != state.sessions[j].id
    ensures |state.sessions| > 0 && primary[state.sessions[0].id] == state.sessions[0].id
    ensures forall id | id in ix.saved :: id in primary && (id in deferred <==> primary[id] != id)
    ensures forall id | id in ix.saved :: NameFree(g, ix.saved[id].name)
    ensures GroupsKnown(ix, groups) && LinksTidy(ix.saved, parked)
  {
    hide Buildable, NameFree, GroupsKnown, LinksTidy, Indexed, LeadersNamed, Leader, UnusedWindowIndex, UsesIndex;
    var sessions := state.sessions;
    BuildableParts(state);
    LeadersAreNamed(sessions, primary);
    IndexBuilt(sessions, primary);
    GroupsIndexed(sessions, primary, groups);
    UnusedWindowIndexIsLeast(state);
    TidyLinks(state, primary, parked);
    FirstIsLeader(sessions);
    forall i, j | 0 <= i < j < |sessions| ensures sessions[i].id != sessions[j].id {
      assert SessionIds(sessions)[i] != SessionIds(sessions)[j];
    }
    forall id | id in ix.saved ensures id in primary && (id in deferred <==> primary[id] != id) {
      DeferredIndexed(sessions, primary, deferred, ix.saved[id]);
    }
  }

  lemma LeadersAreNamed(sessions: seq<Session>, primary: map<string, string>)
    requires forall s | s in sessions :: s.id in primary && primary[s.id] == Leader(sessions, s).id
    ensures LeadersNamed(sessions, primary)
  {
  }

  lemma DeferredIndexed(sessions: seq<Session>, primary: map<string, string>, deferred: set<string>, s: Session)
    requires Distinct(SessionIds(sessions)) && s in sessions
    requires s.id in primary && primary[s.id] == Leader(sessions, s).id
    requires s.id in deferred <==> Leader(sessions, s) != s
    ensures s.id in deferred <==> primary[s.id] != s.id
  {
    LeaderFacts(sessions, s, s);
    if primary[s.id] == s.id {
      SameId(sessions, Leader(sessions, s), s);
    }
  }

  lemma LeadersHaveIds(sessions: seq<Session>, ix: Index, ids: map<string, nat>)
    requires Distinct(SessionIds(sessions)) && Distinct(SessionNames(sessions))
    requires ix == IndexOf(sessions, ix.primary)
    requires forall s | s in sessions :: s.id in ix.primary
    requires forall k | 0 <= k < |sessions| && ix.primary[sessions[k].id] == sessions[k].id :: sessions[k].id in ids
    ensures forall id | id in ix.saved && id in ix.primary && ix.primary[id] == id :: id in ids
  {
    ByIdIs(sessions);
    forall id | id in ix.saved && id in ix.primary && ix.primary[id] == id ensures id in ids {
      var k :| 0 <= k < |sessions| && sessions[k] == ix.saved[id];
    }
  }

  lemma MembersStart(ix: Index, groups: map<string, seq<Session>>, ids: map<string, nat>, before: Graph, g: Graph,
                     origin: map<nat, string>, placeholders: map<string, nat>, parked: int)
    requires GroupsKnown(ix, groups) && Skeleton(before, g, ix, ids, origin, placeholders, parked)
    requires forall id | id in ix.saved && id in ix.primary && ix.primary[id] == id :: id in ids
    ensures MembersDone(ix, groups, ids, groups.Keys, None, 0)
  {
  }

  /** Rebuilds the snapshot. A build without connection faults succeeds exactly when the
      placeholders can be parked, and then the server carries an isomorphic copy; a failed build
      leaves every old object untouched and at most one session it did not record. */
  method BuildSnapshot(server: Server, state: State, ghost m: Mark)
    returns (built: Option<Built>, created: seq<nat>, ghost orphan: Option<nat>)
    requires World(server, m) && server.graph == m.graph
    requires Buildable(state)
    requires forall s | s in state.sessions :: NameFree(m.graph, s.name)
    modifies server
    ensures World(server, Missed(m, orphan))
    ensures Tracked(m.graph, server.graph, created, orphan)
    ensures built.None? && server.faults == m.faults
            ==> (orphan.Some? <==> UnusedWindowIndex(state) == Some(m.graph.baseIndex))
    ensures orphan.Some? && server.faults == m.faults
            ==> Named(server.graph, orphan.value, state.sessions[0].name)
    ensures orphan.Some? ==> exists s :: s in state.sessions && Named(server.graph, orphan.value, s.name)
    ensures built.Some? ==>
              && CanPark(state, m.graph) && orphan.None?
              && Rebuilt(server.graph, state, built.value) && NewCopy(m.graph, server.graph, built.value)
              && NothingElse(m.graph, server.graph, state, built.value)
    ensures built.None? && CanPark(state, m.graph) ==> server.faults > m.faults
  {
    hide Valid, Untouched, Tracked, NameFree, Rebuilt, Buildable, Indexed, LeadersNamed, Skeleton, GroupsKnown,
         LinksTidy, Covered, SessionsBuilt, LeadersExact, WindowsBuilt, MembersDone, IndexOf, ById, Named,
         SessionNames, Leader, Members, UsesIndex, NewCopy, NothingElse, UnusedWindowIndex, Kept;
    created, orphan := [], None;
    SkeletonEmpty(m.graph, IndexOf(state.sessions, map[]), 0);
    BuildableParts(state);
    var sessions := state.sessions;
    var groups := SessionGroups(sessions);
    var primary, deferred := Primaries(sessions, groups);
    var unused := UnusedWindowIndex(state);
    if unused.None? {
      return None, created, None;
    }
    var parked := unused.value;
    ghost var ix := IndexOf(sessions, primary);
    Prepared(state, primary, deferred, groups, parked, ix, m.graph);
    var ids, placeholders, ok;
    ghost var origin;
    ok, ids, placeholders, created, origin, orphan :=
      CreatePrimaries(server, sessions, primary, deferred, parked, ix, m);
    if !ok {
      return None, created, orphan;
    }
    ghost var site := Site(m.graph, ix, ids, origin, parked);
    LeadersHaveIds(sessions, ix, ids);
    MembersStart(ix, groups, ids, m.graph, server.graph, origin, placeholders, parked);
    CoveredBy(server.graph, site, created);
    ghost var g := server.graph;
    var windows, panes;
    ok, windows, panes := FillSessions(server, state, primary, ids, placeholders, site, created, m);
    TrackedSame(m.graph, g, server.graph, created);
    if !ok {
      return None, created, None;
    }
    ok, ids, created, origin :=
      CreateMembers(server, groups, ids, created, ix, origin, windows, panes, state.windows, m);
    if !ok {
      return None, created, None;
    }
    FinalCopy(m.graph, server.graph, state, ix, ids, origin, windows, panes);
    FinalNew(m.graph, server.graph, state, ix, ids, origin, windows, panes);
    FinalOnly(m.graph, server.graph, state, ix, ids, origin, windows, panes, created);
    return Some(Built(ids, windows, panes)), created, None;
  }
}
