/** The tmux server as restore sees it: live sessions, their indexed window lists, windows and
    their pane order, attached clients. Commands are structured values. Any command may fail
    without effect and any client may detach before a command runs; nothing else interferes. */
module TmuxServer {
  import opened Restarts
  import opened Wrappers

  /** A live session: its name and the window list it uses. Grouped sessions share one list. */
  datatype SessionRecord = SessionRecord(name: string, list: nat)

  /** How a pane was started: in which directory, and whether it only holds its place until it is respawned. */
  datatype Start = Start(directory: Option<string>, held: bool)

  datatype WindowRecord = WindowRecord(panes: seq<nat>, starts: seq<Start>, paneBase: int, size: Option<(nat, nat)>)

  /** Ids are handed out once, in increasing order: everything below `next` has been used. */
  datatype Graph = Graph(
    sessions: map<nat, SessionRecord>,
    lists: map<nat, map<int, nat>>,
    windows: map<nat, WindowRecord>,
    next: nat,
    baseIndex: int,
    paneBaseIndex: int)

  datatype Client = Client(session: nat, control: bool, activity: int)

  datatype ClientRow = ClientRow(name: string, session: nat, control: bool, activity: int)

  datatype Command =
    | RenameSession(session: nat, name: string)
    | NewSession(name: string)
    | NewGroupedSession(name: string, target: nat)
    | MoveWindow(window: nat, session: nat, index: int)
    | NewWindow(session: nat, index: int, start: Start)
    | SplitWindow(pane: nat, start: Start)
    | ResizeWindow(window: nat, width: nat, height: nat)
    | SetPaneBase(window: nat, base: int)
    | Adjust(window: nat, change: Change)
    | AdjustPane(pane: nat, paneChange: PaneChange)
    | LinkWindow(window: nat, session: nat, index: int)
    | KillWindow(window: nat)
    | KillSession(session: nat)
    | SwitchClient(client: string, session: nat)

  /** What a window, or a session that shows it, can be told besides. */
  datatype Change =
    | SetLayout(layout: seq<byte>)
    | FollowSizePolicy
    | SetName(name: string)
    | SetAutomaticRename(mode: Option<bool>)
    | SelectPane(pane: nat)
    | Zoom(pane: nat)
    | ShowWindow(session: nat, index: int)

  datatype PaneChange = Enlarge | Respawn(program: Program) | SetTitle(title: string)

  datatype Program = Program(directory: Option<string>, launch: Launch)

  /** What a window, a pane or a session can be told, and what it was told. Nothing is noted of what was not. */
  datatype Slot =
    | NameOf(id: nat)
    | LayoutOf(id: nat)
    | AutomaticRenameOf(id: nat)
    | ManualSizeOf(id: nat)
    | ActivePaneOf(id: nat)
    | ZoomOf(id: nat)
    | ProgramOf(id: nat)
    | TitleOf(id: nat)
    | CurrentOf(id: nat)
    | PreviousOf(id: nat)
    | EnlargedOf(id: nat)
    | AttachedTo(id: nat)

  datatype Word =
    | Words(text: string)
    | Cells(layout: seq<byte>)
    | Flag(on: bool)
    | Pane(pane: nat)
    | Position(index: int)
    | Running(program: Program)

  function Told(looks: map<Slot, Word>, slot: Slot): Option<Word> {
    if slot in looks then Some(looks[slot]) else None
  }

  ghost predicate Valid(g: Graph) {
    && (forall s | s in g.sessions :: s < g.next && g.sessions[s].list < g.next && g.sessions[s].list in g.lists)
    && (forall l | l in g.lists :: l < g.next && forall i | i in g.lists[l] :: g.lists[l][i] < g.next)
    && (forall w | w in g.windows :: w < g.next && forall p | p in g.windows[w].panes :: p < g.next)
  }

  predicate NameFree(g: Graph, name: string) {
    forall s | s in g.sessions :: g.sessions[s].name != name
  }

  function ListOf(g: Graph, session: nat): map<int, nat>
    requires session in g.sessions && g.sessions[session].list in g.lists
  {
    g.lists[g.sessions[session].list]
  }

  predicate Contains(list: map<int, nat>, window: nat) {
    exists i | i in list :: list[i] == window
  }

  predicate HasList(g: Graph, session: nat) {
    session in g.sessions && g.sessions[session].list in g.lists
  }

  /** The pane is in the window, or the session shows the window at that index. */
  predicate Fits(g: Graph, window: nat, change: Change)
    requires window in g.windows
  {
    match change
    case SelectPane(p) => p in g.windows[window].panes
    case Zoom(p) => p in g.windows[window].panes
    case ShowWindow(s, i) => HasList(g, s) && i in ListOf(g, s) && ListOf(g, s)[i] == window
    case _ => true
  }

  /** What everything has been told, after one more command. Zooming toggles; a window that is shown makes the
      one shown before it the last one. */
  function Dress(l: map<Slot, Word>, c: Command): map<Slot, Word> {
    match c
    case ResizeWindow(w, _, _) => l[ManualSizeOf(w) := Flag(true)]
    case Adjust(w, change) => DressOne(l, w, change)
    case AdjustPane(p, change) => DressPane(l, p, change)
    case _ => l
  }

  function DressPane(l: map<Slot, Word>, p: nat, change: PaneChange): map<Slot, Word> {
    match change
    case Enlarge => l[EnlargedOf(p) := Flag(true)]
    case Respawn(program) => l[ProgramOf(p) := Running(program)]
    case SetTitle(title) => l[TitleOf(p) := Words(title)]
  }

  function DressOne(l: map<Slot, Word>, w: nat, change: Change): map<Slot, Word> {
    match change
    case SetLayout(layout) => l[LayoutOf(w) := Cells(layout)]
    case FollowSizePolicy => l - {ManualSizeOf(w)}
    case SetName(name) => l[NameOf(w) := Words(name)]
    case SetAutomaticRename(mode) =>
      if mode.Some? then l[AutomaticRenameOf(w) := Flag(mode.value)] else l - {AutomaticRenameOf(w)}
    case SelectPane(p) => l[ActivePaneOf(w) := Pane(p)]
    case Zoom(_) => if ZoomOf(w) in l then l - {ZoomOf(w)} else l[ZoomOf(w) := Flag(true)]
    case ShowWindow(s, i) =>
      if Told(l, CurrentOf(s)) == Some(Position(i)) then l
      else (if CurrentOf(s) in l then l[PreviousOf(s) := l[CurrentOf(s)]] else l)[CurrentOf(s) := Position(i)]
  }

  /** Where a terminal has been switched to, in order. */
  function VisitsOf(visits: map<string, seq<nat>>, client: string): seq<nat> {
    if client in visits then visits[client] else []
  }

  function Visit(visits: map<string, seq<nat>>, c: Command): map<string, seq<nat>> {
    if c.SwitchClient? then visits[c.client := VisitsOf(visits, c.client) + [c.session]] else visits
  }

  /** When tmux accepts a command, failures of the connection apart. */
  predicate Enabled(g: Graph, c: Command) {
    match c
    case RenameSession(s, name) =>
      s in g.sessions && forall t | t in g.sessions && t != s :: g.sessions[t].name != name
    case NewSession(name) => NameFree(g, name)
    case NewGroupedSession(name, target) => HasList(g, target) && NameFree(g, name)
    case MoveWindow(w, s, i) =>
      HasList(g, s) && Contains(ListOf(g, s), w) && i !in ListOf(g, s)
    case NewWindow(s, i, _) => HasList(g, s) && i !in ListOf(g, s)
    case SplitWindow(p, _) => exists w :: w in g.windows && p in g.windows[w].panes
    case ResizeWindow(w, _, _) => w in g.windows
    case SetPaneBase(w, _) => w in g.windows
    case Adjust(w, change) => w in g.windows && Fits(g, w, change)
    case AdjustPane(p, _) => exists w :: w in g.windows && p in g.windows[w].panes
    case LinkWindow(w, s, i) => HasList(g, s) && w in g.windows && i !in ListOf(g, s)
    case KillWindow(w) => w in g.windows
    case KillSession(s) => s in g.sessions
    case SwitchClient(_, s) => s in g.sessions
  }

  function Without(list: map<int, nat>, window: nat): map<int, nat> {
    map i | i in list && list[i] != window :: list[i]
  }

  function PutAt(list: map<int, nat>, index: int, window: nat): map<int, nat> {
    list[index := window]
  }

  /** tmux puts the pane of a split directly after the pane it splits. */
  function InsertAfter(panes: seq<nat>, target: nat, pane: nat): (r: seq<nat>)
    ensures target !in panes ==> r == panes
  {
    if panes == [] then []
    else if panes[0] == target then [target, pane] + panes[1..]
    else
      var rest := InsertAfter(panes[1..], target, pane);
      assert panes == [panes[0]] + panes[1..];
      [panes[0]] + rest
  }

  function InsertStart(panes: seq<nat>, starts: seq<Start>, target: nat, start: Start): seq<Start> {
    if panes == [] || starts == [] then starts
    else if panes[0] == target then [starts[0], start] + starts[1..]
    else [starts[0]] + InsertStart(panes[1..], starts[1..], target, start)
  }

  function Split(live: WindowRecord, target: nat, pane: nat, start: Start): WindowRecord {
    live.(panes := InsertAfter(live.panes, target, pane), starts := InsertStart(live.panes, live.starts, target, start))
  }

  const PLAIN := Start(None, false)

  function Effect(g: Graph, c: Command): Graph
    requires Enabled(g, c)
  {
    match c
    case RenameSession(s, name) => g.(sessions := g.sessions[s := g.sessions[s].(name := name)])
    case NewSession(name) =>
      // The session, its first window at base-index, and that window's pane.
      g.(sessions := g.sessions[g.next := SessionRecord(name, g.next)],
         lists := g.lists[g.next := map[g.baseIndex := g.next + 1]],
         windows := g.windows[g.next + 1 := WindowRecord([g.next + 2], [PLAIN], g.paneBaseIndex, None)],
         next := g.next + 3)
    case NewGroupedSession(name, target) =>
      g.(sessions := g.sessions[g.next := SessionRecord(name, g.sessions[target].list)], next := g.next + 1)
    case MoveWindow(w, s, i) =>
      g.(lists := g.lists[g.sessions[s].list := PutAt(Without(ListOf(g, s), w), i, w)])
    case NewWindow(s, i, start) =>
      g.(lists := g.lists[g.sessions[s].list := PutAt(ListOf(g, s), i, g.next)],
         windows := g.windows[g.next := WindowRecord([g.next + 1], [start], g.paneBaseIndex, None)],
         next := g.next + 2)
    case SplitWindow(p, start) =>
      g.(windows := map w | w in g.windows :: Split(g.windows[w], p, g.next, start), next := g.next + 1)
    case ResizeWindow(w, width, height) =>
      g.(windows := g.windows[w := g.windows[w].(size := Some((width, height)))])
    case SetPaneBase(w, base) => g.(windows := g.windows[w := g.windows[w].(paneBase := base)])
    case Adjust(_, _) => g
    case AdjustPane(_, _) => g
    case LinkWindow(w, s, i) =>
      g.(lists := g.lists[g.sessions[s].list := PutAt(ListOf(g, s), i, w)])
    case KillWindow(w) =>
      // The window leaves every list; a session whose last window it was goes too.
      g.(lists := map l | l in g.lists :: Without(g.lists[l], w),
         sessions := map s | s in g.sessions && !Emptied(g, s, w) :: g.sessions[s],
         windows := g.windows - {w})
    case KillSession(s) =>
      // Its list goes unless another session shares it, and so does every window no other list shows.
      var kept := KeptLists(g, s);
      g.(sessions := g.sessions - {s},
         lists := kept,
         windows := map w | w in g.windows && !OnlyIn(g, s, kept, w) :: g.windows[w])
    case SwitchClient(_, _) => g
  }

  predicate Shared(g: Graph, session: nat)
    requires session in g.sessions
  {
    exists t | t in g.sessions :: t != session && g.sessions[t].list == g.sessions[session].list
  }

  /** The lists that are left when a session is killed. */
  function KeptLists(g: Graph, session: nat): map<nat, map<int, nat>>
    requires session in g.sessions
  {
    if Shared(g, session) then g.lists else g.lists - {g.sessions[session].list}
  }

  /** The session shows the window and none of the other lists does. */
  predicate OnlyIn(g: Graph, session: nat, others: map<nat, map<int, nat>>, window: nat) {
    && HasList(g, session) && Contains(ListOf(g, session), window)
    && forall l | l in others :: !Contains(others[l], window)
  }

  /** tmux keeps no list that no session uses, and no window that no list shows. */
  ghost predicate Tidy(g: Graph) {
    && (forall l | l in g.lists :: exists s :: s in g.sessions && g.sessions[s].list == l)
    && (forall w | w in g.windows :: exists l :: l in g.lists && Contains(g.lists[l], w))
  }

  predicate Emptied(g: Graph, session: nat, window: nat) {
    HasList(g, session) && Contains(ListOf(g, session), window) && Without(ListOf(g, session), window) == map[]
  }

  /** The ids a creating command prints. */
  function Output(g: Graph, c: Command): seq<nat> {
    match c
    case NewSession(_) => [g.next, g.next + 1]
    case NewGroupedSession(_, _) => [g.next]
    case NewWindow(_, _, _) => [g.next, g.next + 1]
    case SplitWindow(_, _) => [g.next]
    case _ => []
  }

  lemma EffectValid(g: Graph, c: Command)
    requires Valid(g) && Enabled(g, c)
    ensures Valid(Effect(g, c))
  {
    hide Valid, Enabled, Effect;
    if c.RenameSession? || c.NewSession? || c.NewGroupedSession? || c.KillSession? || c.SwitchClient? {
      SessionEffectValid(g, c);
    } else if c.MoveWindow? || c.LinkWindow? || c.KillWindow? {
      ListEffectValid(g, c);
    } else {
      WindowEffectValid(g, c);
    }
  }

  lemma SessionEffectValid(g: Graph, c: Command)
    requires Valid(g) && Enabled(g, c)
    requires c.RenameSession? || c.NewSession? || c.NewGroupedSession? || c.KillSession? || c.SwitchClient?
    ensures Valid(Effect(g, c))
  {
  }

  lemma ListEffectValid(g: Graph, c: Command)
    requires Valid(g) && Enabled(g, c) && (c.MoveWindow? || c.LinkWindow? || c.KillWindow?)
    ensures Valid(Effect(g, c))
  {
    match c
    case MoveWindow(w, s, i) =>
      var k :| k in ListOf(g, s) && ListOf(g, s)[k] == w;
      assert forall j | j in Without(ListOf(g, s), w) :: ListOf(g, s)[j] < g.next;
    case LinkWindow(w, s, i) =>
      assert forall j | j in ListOf(g, s) :: ListOf(g, s)[j] < g.next;
    case _ =>
  }

  lemma WindowEffectValid(g: Graph, c: Command)
    requires Valid(g) && Enabled(g, c)
               && (c.NewWindow? || c.SplitWindow? || c.ResizeWindow? || c.SetPaneBase? || c.Adjust?
             || c.AdjustPane?)
    ensures Valid(Effect(g, c))
  {
    match c
    case SplitWindow(p, _) =>
      forall w, q | w in g.windows && q in InsertAfter(g.windows[w].panes, p, g.next)
        ensures q <= g.next
      {
        InsertAfterMembers(g.windows[w].panes, p, g.next);
      }
    case NewWindow(s, i, _) =>
      assert forall j | j in ListOf(g, s) :: ListOf(g, s)[j] < g.next;
    case _ =>
  }

  lemma {:induction false} InsertAfterMembers(panes: seq<nat>, target: nat, pane: nat)
    ensures forall q | q in InsertAfter(panes, target, pane) :: q in panes || q == pane
  {
    if panes != [] && panes[0] != target {
      InsertAfterMembers(panes[1..], target, pane);
    }
  }

  lemma {:induction false} InsertAfterLast(panes: seq<nat>, pane: nat)
    requires panes != [] && Distinct(panes)
    ensures InsertAfter(panes, panes[|panes| - 1], pane) == panes + [pane]
  {
    if |panes| > 1 {
      assert panes[0] != panes[|panes| - 1];
      assert Distinct(panes[1..]) by {
        forall i, j | 0 <= i < j < |panes[1..]| ensures panes[1..][i] != panes[1..][j] {
          assert panes[i + 1] != panes[j + 1];
        }
      }
      InsertAfterLast(panes[1..], pane);
      assert panes == [panes[0]] + panes[1..];
    }
  }

  lemma {:induction false} InsertStartLast(panes: seq<nat>, starts: seq<Start>, start: Start)
    requires panes != [] && |starts| == |panes| && Distinct(panes)
    ensures InsertStart(panes, starts, panes[|panes| - 1], start) == starts + [start]
  {
    if |panes| > 1 {
      assert panes[0] != panes[|panes| - 1];
      forall i, j | 0 <= i < j < |panes[1..]| ensures panes[1..][i] != panes[1..][j] {
        assert panes[i + 1] != panes[j + 1];
      }
      InsertStartLast(panes[1..], starts[1..], start);
    }
  }

  /** A split elsewhere leaves a window as it is. */
  lemma {:induction false} InsertStartElsewhere(panes: seq<nat>, starts: seq<Start>, target: nat, start: Start)
    requires target !in panes
    ensures InsertStart(panes, starts, target, start) == starts
  {
    if panes != [] && starts != [] {
      InsertStartElsewhere(panes[1..], starts[1..], target, start);
    }
  }

  /** Clients keep their session unless this command moves them, or kills the session they are on. */
  ghost predicate ClientsFollow(before: map<string, Client>, after: map<string, Client>, c: Command, accepted: bool) {
    && after.Keys <= before.Keys
    && (forall n | n in after :: after[n].control == before[n].control)
    && (forall n | n in after ::
          || after[n] == before[n]
          || (accepted && c == KillSession(before[n].session))
          || (accepted && c == SwitchClient(n, after[n].session)))
  }

  lemma FollowDetached(before: map<string, Client>, middle: map<string, Client>, after: map<string, Client>,
                       c: Command, accepted: bool)
    requires middle.Keys <= before.Keys && forall n | n in middle :: middle[n] == before[n]
    requires ClientsFollow(middle, after, c, accepted)
    ensures ClientsFollow(before, after, c, accepted)
  {
  }

  lemma FollowNothing(before: map<string, Client>, after: map<string, Client>, c: Command)
    requires after.Keys <= before.Keys && forall n | n in after :: after[n] == before[n]
    ensures ClientsFollow(before, after, c, false)
  {
  }

  class Server {
    var graph: Graph
    var looks: map<Slot, Word>
    var clients: map<string, Client>
    /** How many commands failed although tmux would have accepted them. */
    ghost var faults: nat
    /** How many `move-window` commands failed, for whatever reason. */
    ghost var failedMoves: nat
    /** The sessions each terminal has been switched to. */
    ghost var visits: map<string, seq<nat>>
    /** The graph after each command so far: what a crash at any step would leave behind. */
    ghost var trace: seq<Graph>

    method Detach()
      modifies this`clients
      ensures clients.Keys <= old(clients.Keys)
      ensures forall n | n in clients :: clients[n] == old(clients[n])
    {
      var gone: set<string> := {};
      var rest := clients.Keys;
      while rest != {}
        decreases rest
        invariant rest <= clients.Keys
      {
        var n :| n in rest;
        rest := rest - {n};
        var detaches := *;
        if detaches {
          gone := gone + {n};
        }
      }
      clients := clients - gone;
    }

    /** Runs one command. `None` is an error reply; the graph is then as it was. */
    method Execute(c: Command) returns (output: Option<seq<nat>>)
      modifies this
      ensures output.Some? ==> Enabled(old(graph), c) && graph == Effect(old(graph), c)
      ensures output.Some? ==> output.value == Output(old(graph), c)
      ensures output.None? ==> graph == old(graph)
      ensures output.None? && Enabled(old(graph), c) && (c.SwitchClient? ==> c.client in clients)
              ==> faults > old(faults)
      ensures faults >= old(faults)
      ensures failedMoves == old(failedMoves) + (if output.None? && c.MoveWindow? then 1 else 0)
      ensures looks == if output.Some? then Dress(old(looks), c) else old(looks)
      ensures visits == if output.Some? then Visit(old(visits), c) else old(visits)
      ensures trace == old(trace) + [graph]
      ensures ClientsFollow(old(clients), clients, c, output.Some?)
      ensures output.Some? && c.SwitchClient? && c.client in clients ==> clients[c.client].session == c.session
    {
      hide Enabled, Effect, Output, Dress, Visit, ClientsFollow;
      Detach();
      output := None;
      FollowNothing(old(clients), clients, c);
      var fails := *;
      if Enabled(graph, c) && (c.SwitchClient? ==> c.client in clients) {
        if fails {
          faults := faults + 1;
        } else {
          ghost var before := clients;
          output := Some(Output(graph, c));
          graph, looks, visits := Effect(graph, c), Dress(looks, c), Visit(visits, c);
          MoveClients(c);
          FollowDetached(old(clients), before, clients, c, true);
        }
      }
      if output.None? && c.MoveWindow? {
        failedMoves := failedMoves + 1;
      }
      trace := trace + [graph];
    }

    /** What an accepted command does to the terminals. */
    method MoveClients(c: Command)
      requires c.SwitchClient? ==> c.client in clients
      modifies this`clients
      ensures ClientsFollow(old(clients), clients, c, true)
      ensures c.SwitchClient? && c.client in clients ==> clients[c.client].session == c.session
    {
      if c.SwitchClient? {
        clients := clients[c.client := clients[c.client].(session := c.session)];
      } else if c.KillSession? {
        Evict(c.session);
      }
    }

    /** Clients of a killed session detach or land on some other session. */
    method Evict(session: nat)
      modifies this`clients
      ensures clients.Keys <= old(clients.Keys)
      ensures forall n | n in clients :: clients[n].control == old(clients[n].control)
      ensures forall n | n in clients :: clients[n] == old(clients[n]) || old(clients[n].session) == session
    {
      var moved := clients;
      var rest := clients.Keys;
      while rest != {}
        decreases rest
        invariant rest <= clients.Keys
        invariant moved.Keys <= clients.Keys
        invariant forall n | n in moved :: moved[n].control == clients[n].control
        invariant forall n | n in moved :: moved[n] == clients[n] || clients[n].session == session
      {
        var n :| n in rest;
        rest := rest - {n};
        if clients[n].session == session {
          var elsewhere: nat := *;
          var detaches := *;
          moved := if detaches then moved - {n} else moved[n := clients[n].(session := elsewhere)];
        }
      }
      clients := moved;
    }

    /** Opens a further control connection, attached to a session; it is nobody's terminal. */
    method Connect(session: nat) returns (ok: bool)
      requires session in graph.sessions
      modifies this`faults, this`looks
      ensures if ok then faults == old(faults) else faults > old(faults)
      ensures looks == if ok then old(looks)[AttachedTo(session) := Flag(true)] else old(looks)
    {
      ok := *;
      if ok {
        looks := looks[AttachedTo(session) := Flag(true)];
      } else {
        faults := faults + 1;
      }
    }

    /** Lists the attached clients, each once, in no particular order. */
    method ListClients() returns (rows: Option<seq<ClientRow>>)
      modifies this`clients, this`faults
      ensures clients.Keys <= old(clients.Keys)
      ensures forall n | n in clients :: clients[n] == old(clients[n])
      ensures faults >= old(faults)
      ensures rows.None? ==> faults > old(faults)
      ensures rows.Some? ==> Lists(rows.value, clients)
    {
      Detach();
      var fails := *;
      if fails {
        faults := faults + 1;
        return None;
      }
      var out: seq<ClientRow> := [];
      var rest := clients.Keys;
      ghost var now, faultsNow := clients, faults;
      while rest != {}
        decreases rest
        invariant clients == now && faults == faultsNow
        invariant rest <= clients.Keys
        invariant Lists(out, clients - rest)
      {
        var n :| n in rest;
        var c := clients[n];
        ghost var listed := clients - rest;
        rest := rest - {n};
        assert clients - rest == listed[n := c];
        ListsExtend(out, listed, n, c);
        out := out + [ClientRow(n, c.session, c.control, c.activity)];
      }
      assert clients - rest == clients;
      return Some(out);
    }
  }

  /** The rows name each client exactly once, with its session. */
  ghost predicate Lists(rows: seq<ClientRow>, clients: map<string, Client>) {
    && (forall k | 0 <= k < |rows| :: rows[k].name in clients
          && clients[rows[k].name] == Client(rows[k].session, rows[k].control, rows[k].activity))
    && (forall n | n in clients :: exists k :: 0 <= k < |rows| && rows[k].name == n)
    && (forall i, j | 0 <= i < j < |rows| :: rows[i].name != rows[j].name)
  }

  lemma ListsExtend(rows: seq<ClientRow>, clients: map<string, Client>, n: string, c: Client)
    requires Lists(rows, clients) && n !in clients
    ensures Lists(rows + [ClientRow(n, c.session, c.control, c.activity)], clients[n := c])
  {
    var all := rows + [ClientRow(n, c.session, c.control, c.activity)];
    var after := clients[n := c];
    forall k | 0 <= k < |all|
      ensures all[k].name in after
      ensures after[all[k].name] == Client(all[k].session, all[k].control, all[k].activity)
    {
      assert k < |rows| ==> all[k] == rows[k] && rows[k].name in clients;
    }
    forall i, j | 0 <= i < j < |all| ensures all[i].name != all[j].name {
      assert all[i] == rows[i] && rows[i].name in clients;
      assert j < |rows| ==> all[j] == rows[j];
    }
    forall m | m in after ensures exists k :: 0 <= k < |all| && all[k].name == m {
      if m == n {
        assert all[|rows|].name == n;
      } else {
        var k :| 0 <= k < |rows| && rows[k].name == m;
        assert all[k].name == m;
      }
    }
  }

  /** Everything in `before` is in `after` exactly as it was. */
  ghost predicate Untouched(before: Graph, after: Graph) {
    && before.next <= after.next
    && before.baseIndex == after.baseIndex
    && (forall s | s in before.sessions :: s in after.sessions && after.sessions[s] == before.sessions[s])
    && (forall l | l in before.lists :: l in after.lists && after.lists[l] == before.lists[l])
    && (forall w | w in before.windows :: w in after.windows && after.windows[w] == before.windows[w])
  }

  /** The command only addresses objects created after `before`. */
  ghost predicate Addresses(before: Graph, g: Graph, c: Command) {
    match c
    case NewSession(_) => true
    case NewGroupedSession(_, _) => true
    case MoveWindow(w, s, _) => s in g.sessions && g.sessions[s].list >= before.next
    case NewWindow(s, _, _) => s in g.sessions && g.sessions[s].list >= before.next
    case SplitWindow(p, _) => p >= before.next
    case ResizeWindow(w, _, _) => w >= before.next
    case SetPaneBase(w, _) => w >= before.next
    case Adjust(w, change) => w >= before.next && (change.ShowWindow? ==> change.session >= before.next)
    case AdjustPane(p, _) => p >= before.next
    case LinkWindow(_, s, _) => s in g.sessions && g.sessions[s].list >= before.next
    case KillWindow(w) => w >= before.next
    case KillSession(s) => s >= before.next && Tidy(before)
    case SwitchClient(_, _) => true
    case RenameSession(_, _) => false
  }

  lemma KeepsUntouched(before: Graph, g: Graph, c: Command)
    requires Valid(before) && Valid(g) && Untouched(before, g)
    requires Enabled(g, c) && Addresses(before, g, c)
    ensures Untouched(before, Effect(g, c))
  {
    hide Valid, Untouched, Enabled, Addresses, Effect, Tidy;
    if c.KillWindow? {
      KillKeepsUntouched(before, g, c);
    } else if c.KillSession? {
      KillSessionKeepsUntouched(before, g, c);
    } else if c.SplitWindow? {
      SplitKeepsUntouched(before, g, c);
    } else if c.MoveWindow? || c.LinkWindow? || c.NewWindow? {
      ListsKeepUntouched(before, g, c);
    } else {
      OthersKeepUntouched(before, g, c);
    }
  }

  lemma KillKeepsUntouched(before: Graph, g: Graph, c: Command)
    requires Valid(before) && Valid(g) && Untouched(before, g)
    requires Enabled(g, c) && Addresses(before, g, c) && c.KillWindow?
    ensures Untouched(before, Effect(g, c))
  {
    forall l | l in before.lists ensures Without(before.lists[l], c.window) == before.lists[l] {
      assert forall i | i in before.lists[l] :: before.lists[l][i] < before.next;
    }
  }

  /** What older sessions use outlives any newer session. */
  lemma KillSessionKeepsUntouched(before: Graph, g: Graph, c: Command)
    requires Valid(before) && Untouched(before, g)
    requires Enabled(g, c) && Addresses(before, g, c) && c.KillSession?
    ensures Untouched(before, Effect(g, c))
  {
    var after := Effect(g, c);
    forall l | l in before.lists ensures l in after.lists {
      var s :| s in before.sessions && before.sessions[s].list == l;
      assert s in g.sessions && s != c.session && g.sessions[s].list == l;
    }
    forall w | w in before.windows ensures w in after.windows {
      var l :| l in before.lists && Contains(before.lists[l], w);
      assert l in after.lists && Contains(after.lists[l], w);
    }
  }

  lemma ListsKeepUntouched(before: Graph, g: Graph, c: Command)
    requires Valid(before) && Valid(g) && Untouched(before, g)
    requires Enabled(g, c) && Addresses(before, g, c) && (c.MoveWindow? || c.LinkWindow? || c.NewWindow?)
    ensures Untouched(before, Effect(g, c))
  {
  }

  lemma SplitKeepsUntouched(before: Graph, g: Graph, c: Command)
    requires Valid(before) && Valid(g) && Untouched(before, g)
    requires Enabled(g, c) && Addresses(before, g, c) && c.SplitWindow?
    ensures Untouched(before, Effect(g, c))
  {
    forall w | w in before.windows ensures Split(g.windows[w], c.pane, g.next, c.start) == before.windows[w] {
      InsertStartElsewhere(before.windows[w].panes, before.windows[w].starts, c.pane, c.start);
    }
  }

  /** What older objects were told stays so. */
  ghost predicate Remembered(bound: nat, before: map<Slot, Word>, after: map<Slot, Word>) {
    forall slot: Slot :: slot.id < bound ==> Told(after, slot) == Told(before, slot)
  }

  lemma LooksStayed(before: Graph, g: Graph, c: Command, l0: map<Slot, Word>, l: map<Slot, Word>)
    requires Addresses(before, g, c) && Remembered(before.next, l0, l)
    ensures Remembered(before.next, l0, Dress(l, c))
  {
  }

  lemma OthersKeepUntouched(before: Graph, g: Graph, c: Command)
    requires Valid(before) && Valid(g) && Untouched(before, g)
    requires Enabled(g, c) && Addresses(before, g, c)
    requires !c.KillWindow? && !c.KillSession? && !c.SplitWindow? && !c.MoveWindow? && !c.LinkWindow? && !c.NewWindow?
    ensures Untouched(before, Effect(g, c))
  {
  }
}
