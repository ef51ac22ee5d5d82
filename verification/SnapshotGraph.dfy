/** The snapshot graph: sessions that link indexed windows, windows that hold panes, and the
    imperative validation every stored or captured state has to pass. Identifiers are the
    strings tmux reported when the state was captured. */
module SnapshotGraph {
  import opened Wrappers

  type I32 = x: int | -0x8000_0000 <= x <= 0x7fff_ffff

  const I32_MAX: int := 0x7fff_ffff
  const PANE_BASE_INDEX_MAX: int := 65535

  datatype Link = Link(windowId: string, index: I32)

  datatype Session = Session(
    id: string,
    name: string,
    group: Option<string>,
    createdAt: Option<int>,
    activeWindow: Option<string>,
    lastWindow: Option<string>,
    links: seq<Link>)

  /** A file path: text, or bytes that are not UTF-8, with the text a lossy reading gives. */
  datatype Path = Unicode(value: string) | Raw(lossy: string)

  /** A path as it is stored. Base64 text is kept with the path it decodes to, if it decodes. */
  datatype EncodedPath = Utf8(value: string) | Base64(text: string, decoded: Option<Path>)

  datatype Restart = Restart(executable: EncodedPath, argv: seq<string>, trusted: bool)

  /** What a pane runs: captured with the pane, but not part of the structure. */
  datatype Process = Process(currentCommand: Option<string>, restart: Option<Restart>)

  datatype Pane = Pane(
    id: string,
    index: I32,
    title: Option<string>,
    cwd: Option<string>,
    startCommand: Option<string>,
    dead: bool,
    process: Process)

  datatype Window = Window(
    id: string,
    name: string,
    layout: seq<byte>,
    width: nat,
    height: nat,
    zoomed: bool,
    automaticRename: Option<bool>,
    activePane: Option<string>,
    panes: seq<Pane>)

  datatype Attachment = Attachment(sessionId: string, lastSessionId: Option<string>)

  datatype State = State(
    sessions: seq<Session>,
    windows: seq<Window>,
    clientState: Option<seq<Attachment>>)

  datatype GraphError =
    | DuplicateSessionId
    | NoAttachments
    | UnknownClientSession
    | UnknownClientLastSession
    | DuplicateWindowId
    | NegativeWindowIndex
    | UnknownWindow
    | RepeatedWindow
    | RepeatedWindowIndex
    | UnlinkedActiveWindow
    | UnlinkedLastWindow
    | UnownedWindow
    | DuplicatePaneId
    | DuplicatePaneIndex
    | NegativePaneIndex
    | PaneBaseTooHigh
    | PaneIndexGap
    | SharedPane
    | UnknownActivePane

  function SessionIds(sessions: seq<Session>): (ids: seq<string>) {
    seq(|sessions|, i requires 0 <= i < |sessions| => sessions[i].id)
  }

  function WindowIds(windows: seq<Window>): (ids: seq<string>) {
    seq(|windows|, i requires 0 <= i < |windows| => windows[i].id)
  }

  function LinkedWindows(links: seq<Link>): (ids: seq<string>) {
    seq(|links|, i requires 0 <= i < |links| => links[i].windowId)
  }

  function LinkIndexes(links: seq<Link>): (indexes: seq<int>) {
    seq(|links|, i requires 0 <= i < |links| => links[i].index)
  }

  function PaneIds(panes: seq<Pane>): (ids: seq<string>) {
    seq(|panes|, i requires 0 <= i < |panes| => panes[i].id)
  }

  function PaneIndexes(panes: seq<Pane>): (indexes: seq<int>) {
    seq(|panes|, i requires 0 <= i < |panes| => panes[i].index)
  }

  /** Every pane id of the server, window after window. */
  function AllPanes(windows: seq<Window>): (panes: seq<Pane>) {
    if windows == [] then [] else AllPanes(windows[..|windows| - 1]) + windows[|windows| - 1].panes
  }

  lemma {:induction false} PanesOfWindows(windows: seq<Window>)
    ensures forall p :: p in AllPanes(windows) <==> exists w :: w in windows && p in w.panes
  {
    if windows != [] {
      var init, last := windows[..|windows| - 1], windows[|windows| - 1];
      PanesOfWindows(init);
      assert windows == init + [last];
      forall p ensures p in AllPanes(windows) <==> exists w :: w in windows && p in w.panes {
        if p in AllPanes(windows) {
          assert p in last.panes ==> last in windows;
        }
      }
    }
  }

  // ----- What a well-formed graph is -----

  ghost predicate References(ids: set<string>, reference: Option<string>) {
    reference.Some? ==> reference.value in ids
  }

  ghost predicate ClientStateOk(ids: set<string>, clientState: Option<seq<Attachment>>) {
    clientState.Some? ==>
      && clientState.value != []
      && forall a | a in clientState.value ::
           a.sessionId in ids && References(ids, a.lastSessionId)
  }

  ghost predicate LinksOk(links: seq<Link>, windowIds: set<string>) {
    && (forall k | 0 <= k < |links| :: links[k].index >= 0 && links[k].windowId in windowIds)
    && Distinct(LinkedWindows(links))
    && Distinct(LinkIndexes(links))
  }

  ghost predicate SessionOk(session: Session, windowIds: set<string>) {
    && LinksOk(session.links, windowIds)
    && References(Elements(LinkedWindows(session.links)), session.activeWindow)
    && References(Elements(LinkedWindows(session.links)), session.lastWindow)
  }

  ghost predicate Owned(sessions: seq<Session>, windowId: string) {
    exists s, k :: 0 <= s < |sessions| && 0 <= k < |sessions[s].links|
      && sessions[s].links[k].windowId == windowId
  }

  /** Pane indexes are one ascending run from a base tmux accepts. */
  ghost predicate PaneRun(panes: seq<Pane>) {
    forall k | 0 <= k < |panes| ::
      && panes[k].index == panes[0].index + k
      && 0 <= panes[0].index <= PANE_BASE_INDEX_MAX
  }

  ghost predicate GapAt(panes: seq<Pane>, k: int) {
    0 < k < |panes| && (panes[k - 1].index == I32_MAX || panes[k].index != panes[k - 1].index + 1)
  }

  ghost predicate WindowOk(window: Window) {
    && PaneRun(window.panes)
    && References(Elements(PaneIds(window.panes)), window.activePane)
  }

  /** Pane ids are unique across the whole server. */
  ghost predicate PanesUnique(windows: seq<Window>) {
    Distinct(PaneIds(AllPanes(windows)))
  }

  ghost predicate WellFormed(state: State) {
    && Distinct(SessionIds(state.sessions))
    && ClientStateOk(Elements(SessionIds(state.sessions)), state.clientState)
    && Distinct(WindowIds(state.windows))
    && (forall s | s in state.sessions :: SessionOk(s, Elements(WindowIds(state.windows))))
    && (forall w | w in state.windows :: Owned(state.sessions, w.id) && WindowOk(w))
    && PanesUnique(state.windows)
  }

  /** Which clause of well-formedness each error reports as broken. */
  ghost predicate Violates(state: State, error: GraphError) {
    var sessionIds := Elements(SessionIds(state.sessions));
    var windowIds := Elements(WindowIds(state.windows));
    match error
    case DuplicateSessionId => !Distinct(SessionIds(state.sessions))
    case NoAttachments => state.clientState == Some([])
    case UnknownClientSession =>
      state.clientState.Some? && exists a :: a in state.clientState.value && a.sessionId !in sessionIds
    case UnknownClientLastSession =>
      state.clientState.Some?
      && exists a :: a in state.clientState.value && !References(sessionIds, a.lastSessionId)
    case DuplicateWindowId => !Distinct(WindowIds(state.windows))
    case NegativeWindowIndex =>
      exists s, k :: s in state.sessions && 0 <= k < |s.links| && s.links[k].index < 0
    case UnknownWindow =>
      exists s, k :: s in state.sessions && 0 <= k < |s.links| && s.links[k].windowId !in windowIds
    case RepeatedWindow => exists s :: s in state.sessions && !Distinct(LinkedWindows(s.links))
    case RepeatedWindowIndex => exists s :: s in state.sessions && !Distinct(LinkIndexes(s.links))
    case UnlinkedActiveWindow =>
      exists s :: s in state.sessions && !References(Elements(LinkedWindows(s.links)), s.activeWindow)
    case UnlinkedLastWindow =>
      exists s :: s in state.sessions && !References(Elements(LinkedWindows(s.links)), s.lastWindow)
    case UnownedWindow => exists w :: w in state.windows && !Owned(state.sessions, w.id)
    case DuplicatePaneId => exists w :: w in state.windows && !Distinct(PaneIds(w.panes))
    case DuplicatePaneIndex => exists w :: w in state.windows && !Distinct(PaneIndexes(w.panes))
    case NegativePaneIndex => exists w :: w in state.windows && exists p :: p in w.panes && p.index < 0
    case PaneBaseTooHigh =>
      exists w :: w in state.windows && |w.panes| > 0 && w.panes[0].index > PANE_BASE_INDEX_MAX
    case PaneIndexGap =>
      exists w, k :: w in state.windows && GapAt(w.panes, k)
    case SharedPane => !PanesUnique(state.windows)
    case UnknownActivePane =>
      exists w :: w in state.windows && !References(Elements(PaneIds(w.panes)), w.activePane)
  }

  // ----- The check, as the program runs it -----

  method Validate(state: State) returns (r: Outcome<GraphError>)
    ensures r.Pass? <==> WellFormed(state)
    ensures r.Fail? ==> Violates(state, r.error)
  {
    var sessionIds := Elements(SessionIds(state.sessions));
    ElementsSize(SessionIds(state.sessions));
    if |sessionIds| != |state.sessions| {
      return Fail(DuplicateSessionId);
    }
    r := ValidateClientState(state, sessionIds);
    if r.Fail? {
      return;
    }
    var windowIds := Elements(WindowIds(state.windows));
    ElementsSize(WindowIds(state.windows));
    if |windowIds| != |state.windows| {
      return Fail(DuplicateWindowId);
    }
    var owned: set<string> := {};
    for i := 0 to |state.sessions|
      invariant forall s | s in state.sessions[..i] :: SessionOk(s, windowIds)
      invariant forall w :: w in owned <==> Owned(state.sessions[..i], w)
    {
      var session := state.sessions[i];
      var linked;
      r, linked := ValidateSession(state, session, windowIds);
      if r.Fail? {
        assert session in state.sessions;
        return;
      }
      OwnedStep(state.sessions, i);
      owned := owned + linked;
      assert state.sessions[..i + 1] == state.sessions[..i] + [session];
    }
    assert state.sessions[..|state.sessions|] == state.sessions;
    for i := 0 to |state.windows|
      invariant forall w | w in state.windows[..i] :: Owned(state.sessions, w.id)
    {
      if state.windows[i].id !in owned {
        assert state.windows[i] in state.windows;
        return Fail(UnownedWindow);
      }
    }
    r := ValidateWindows(state);
  }

  lemma OwnedStep(sessions: seq<Session>, i: nat)
    requires i < |sessions|
    ensures forall w :: Owned(sessions[..i + 1], w) <==>
              Owned(sessions[..i], w) || w in Elements(LinkedWindows(sessions[i].links))
  {
    var before, after := sessions[..i], sessions[..i + 1];
    forall w
      ensures Owned(after, w) <==> Owned(before, w) || w in Elements(LinkedWindows(sessions[i].links))
    {
      if Owned(before, w) {
        var s, k :| 0 <= s < |before| && 0 <= k < |before[s].links| && before[s].links[k].windowId == w;
        assert after[s].links[k].windowId == w;
      }
      if w in LinkedWindows(sessions[i].links) {
        var k :| 0 <= k < |sessions[i].links| && LinkedWindows(sessions[i].links)[k] == w;
        assert after[i].links[k].windowId == w;
      }
      if Owned(after, w) {
        var s, k :| 0 <= s < |after| && 0 <= k < |after[s].links| && after[s].links[k].windowId == w;
        if s < i {
          assert before[s].links[k].windowId == w;
        } else {
          assert LinkedWindows(sessions[i].links)[k] == w;
        }
      }
    }
  }

  method ValidateClientState(state: State, sessionIds: set<string>) returns (r: Outcome<GraphError>)
    requires sessionIds == Elements(SessionIds(state.sessions))
    ensures r.Pass? <==> ClientStateOk(sessionIds, state.clientState)
    ensures r.Fail? ==> Violates(state, r.error)
  {
    match state.clientState {
      case None => return Pass;
      case Some(attachments) =>
        if attachments == [] {
          return Fail(NoAttachments);
        }
        for i := 0 to |attachments|
          invariant forall a | a in attachments[..i] ::
                      a.sessionId in sessionIds && References(sessionIds, a.lastSessionId)
        {
          if attachments[i].sessionId !in sessionIds {
            assert attachments[i] in attachments;
            return Fail(UnknownClientSession);
          }
          if attachments[i].lastSessionId.Some? && attachments[i].lastSessionId.value !in sessionIds {
            assert attachments[i] in attachments;
            return Fail(UnknownClientLastSession);
          }
        }
        return Pass;
    }
  }

  method ValidateSession(state: State, session: Session, windowIds: set<string>)
    returns (r: Outcome<GraphError>, linked: set<string>)
    requires windowIds == Elements(WindowIds(state.windows))
    ensures linked == Elements(LinkedWindows(session.links)) || r.Fail?
    ensures r.Pass? <==> SessionOk(session, windowIds)
    ensures r.Fail? && session in state.sessions ==> Violates(state, r.error)
  {
    linked := {};
    var indexes: set<int> := {};
    var links := session.links;
    for i := 0 to |links|
      invariant LinksOk(links[..i], windowIds)
      invariant linked == Elements(LinkedWindows(links[..i]))
      invariant indexes == Elements(LinkIndexes(links[..i]))
    {
      var link := links[i];
      assert links[..i + 1] == links[..i] + [link];
      assert LinkedWindows(links[..i + 1]) == LinkedWindows(links[..i]) + [link.windowId];
      assert LinkIndexes(links[..i + 1]) == LinkIndexes(links[..i]) + [link.index as int];
      assert links[i].index == link.index && LinkedWindows(links)[i] == link.windowId;
      if link.index < 0 {
        return Fail(NegativeWindowIndex), linked;
      }
      if link.windowId !in windowIds {
        return Fail(UnknownWindow), linked;
      }
      if link.windowId in linked {
        var k :| 0 <= k < i && LinkedWindows(links[..i])[k] == link.windowId;
        assert LinkedWindows(links)[k] == LinkedWindows(links)[i];
        return Fail(RepeatedWindow), linked;
      }
      linked := linked + {link.windowId};
      if link.index as int in indexes {
        var k :| 0 <= k < i && LinkIndexes(links[..i])[k] == link.index;
        assert LinkIndexes(links)[k] == LinkIndexes(links)[i];
        return Fail(RepeatedWindowIndex), linked;
      }
      indexes := indexes + {link.index as int};
    }
    assert links[..|links|] == links;
    if session.activeWindow.Some? && session.activeWindow.value !in linked {
      return Fail(UnlinkedActiveWindow), linked;
    }
    if session.lastWindow.Some? && session.lastWindow.value !in linked {
      return Fail(UnlinkedLastWindow), linked;
    }
    return Pass, linked;
  }

  method ValidateWindows(state: State) returns (r: Outcome<GraphError>)
    ensures r.Pass? <==> PanesUnique(state.windows) && forall w | w in state.windows :: WindowOk(w)
    ensures r.Fail? ==> Violates(state, r.error)
  {
    var windows := state.windows;
    var seen: set<string> := {};
    for i := 0 to |windows|
      invariant forall w | w in windows[..i] :: WindowOk(w)
      invariant PanesUnique(windows[..i])
      invariant seen == Elements(PaneIds(AllPanes(windows[..i])))
    {
      var window := windows[i];
      assert window in windows;
      r := ValidatePanes(window);
      assert windows[..i + 1] == windows[..i] + [window];
      assert windows[..i + 1][..i] == windows[..i];
      AllPanesContain(windows, i);
      if r.Fail? {
        return;
      }
      var shared;
      shared, seen := AddPanes(windows, i, seen);
      if shared {
        return Fail(SharedPane);
      }
      var paneIds := Elements(PaneIds(window.panes));
      if window.activePane.Some? && window.activePane.value !in paneIds {
        return Fail(UnknownActivePane);
      }
    }
    assert windows[..|windows|] == windows;
    return Pass;
  }

  /** Adds the panes of one window to those seen, unless one of them was seen before. */
  method AddPanes(windows: seq<Window>, i: nat, before: set<string>) returns (shared: bool, seen: set<string>)
    requires i < |windows| && PanesUnique(windows[..i]) && before == Elements(PaneIds(AllPanes(windows[..i])))
    ensures shared ==> !PanesUnique(windows)
    ensures !shared ==> PanesUnique(windows[..i + 1]) && seen == Elements(PaneIds(AllPanes(windows[..i + 1])))
  {
    seen := before;
    var panes := windows[i].panes;
    var known := AllPanes(windows[..i]);
    assert known + panes[..0] == known;
    for j := 0 to |panes|
      invariant seen == Elements(PaneIds(known + panes[..j]))
      invariant Distinct(PaneIds(known + panes[..j]))
    {
      var id := panes[j].id;
      var ids := PaneIds(known + panes[..j]);
      assert PaneIds(known + panes[..j + 1]) == ids + [id] by {
        assert panes[..j + 1] == panes[..j] + [panes[j]];
      }
      if id in seen {
        var k :| 0 <= k < |ids| && ids[k] == id;
        AllPanesContain(windows, i);
        AllPanesRepeat(windows, i, known + panes[..j], panes[j..], k);
        return true, seen;
      }
      DistinctAppend(ids, id);
      seen := seen + {id};
    }
    assert panes[..|panes|] == panes;
    assert windows[..i + 1][..i] == windows[..i];
    assert AllPanes(windows[..i + 1]) == known + panes;
    return false, seen;
  }

  method ValidatePanes(window: Window) returns (r: Outcome<GraphError>)
    ensures r.Pass? <==> PaneRun(window.panes) && Distinct(PaneIds(window.panes))
    ensures r.Fail? ==> forall state: State | window in state.windows :: Violates(state, r.error)
  {
    var panes := window.panes;
    ElementsSize(PaneIds(panes));
    if |Elements(PaneIds(panes))| != |panes| {
      return Fail(DuplicatePaneId);
    }
    ElementsSize(PaneIndexes(panes));
    if |Elements(PaneIndexes(panes))| != |panes| {
      assert !PaneRun(panes) by {
        var i, j :| 0 <= i < j < |panes| && PaneIndexes(panes)[i] == PaneIndexes(panes)[j];
        assert panes[i].index == panes[j].index;
      }
      return Fail(DuplicatePaneIndex);
    }
    for i := 0 to |panes|
      invariant forall k | 0 <= k < i :: panes[k].index >= 0
    {
      if panes[i].index < 0 {
        assert panes[i] in panes;
        return Fail(NegativePaneIndex);
      }
    }
    if |panes| > 0 {
      if panes[0].index > PANE_BASE_INDEX_MAX {
        return Fail(PaneBaseTooHigh);
      }
      for i := 1 to |panes|
        invariant forall k | 0 <= k < i :: panes[k].index == panes[0].index + k
      {
        if panes[i - 1].index == I32_MAX || panes[i].index != panes[i - 1].index + 1 {
          assert panes[i - 1].index == panes[0].index + (i - 1);
          assert GapAt(window.panes, i);
          return Fail(PaneIndexGap);
        }
      }
    }
    return Pass;
  }

  /** The panes of the first windows, and those of any window, stay within the panes of all. */
  lemma {:induction false} AllPanesPrefix(windows: seq<Window>, i: nat)
    requires i < |windows|
    ensures AllPanes(windows[..i]) + windows[i].panes <= AllPanes(windows)
    decreases |windows|
  {
    var n := |windows|;
    var init := windows[..n - 1];
    if i < n - 1 {
      AllPanesPrefix(init, i);
      assert init[..i] == windows[..i];
    }
  }

  lemma AllPanesContain(windows: seq<Window>, i: nat)
    requires i < |windows|
    ensures AllPanes(windows[..i]) + windows[i].panes <= AllPanes(windows)
    ensures !Distinct(PaneIds(windows[i].panes)) ==> !PanesUnique(windows)
  {
    AllPanesPrefix(windows, i);
    hide AllPanes, PaneIds, Distinct;
    if !Distinct(PaneIds(windows[i].panes)) {
      RepeatsInside(AllPanes(windows[..i]), windows[i].panes, AllPanes(windows));
    }
  }

  lemma RepeatsInside(prefix: seq<Pane>, panes: seq<Pane>, all: seq<Pane>)
    requires prefix + panes <= all && !Distinct(PaneIds(panes))
    ensures !Distinct(PaneIds(all))
  {
    var a, b :| 0 <= a < b < |panes| && PaneIds(panes)[a] == PaneIds(panes)[b];
    var n := |prefix|;
    assert all[n + a] == (prefix + panes)[n + a] && all[n + b] == (prefix + panes)[n + b];
    assert PaneIds(all)[n + a] == PaneIds(all)[n + b];
  }

  lemma AllPanesRepeat(windows: seq<Window>, i: nat, before: seq<Pane>, after: seq<Pane>, k: nat)
    requires i < |windows| && after != [] && k < |before|
    requires AllPanes(windows[..i]) + windows[i].panes == before + after
    requires before[k].id == after[0].id
    ensures !PanesUnique(windows)
  {
    AllPanesContain(windows, i);
    var all := AllPanes(windows);
    assert all[k] == (before + after)[k] == before[k];
    assert all[|before|] == (before + after)[|before|] == after[0];
    assert PaneIds(all)[k] == PaneIds(all)[|before|];
  }
}
