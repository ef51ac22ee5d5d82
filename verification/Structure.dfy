/** The structural projection of a state: what a restore can reproduce, and what autosave compares.
    Hashes are modelled by the value they are taken of, so equal hashes are equal projections. */
module Structure {
  import opened Wrappers
  import opened Ordering
  import opened SnapshotGraph

  datatype SessionShape = SessionShape(
    id: string, name: string, group: Option<string>,
    activeWindow: Option<string>, lastWindow: Option<string>, links: seq<Link>)

  datatype PaneShape = PaneShape(
    id: string, index: I32, title: Option<string>, cwd: Option<string>, startCommand: Option<string>, dead: bool)

  datatype WindowShape = WindowShape(
    id: string, name: string, layout: seq<byte>, width: nat, height: nat, zoomed: bool,
    automaticRename: Option<bool>, activePane: Option<string>, panes: seq<PaneShape>)

  datatype Shape = Shape(
    sessions: seq<SessionShape>, windows: seq<WindowShape>, attachments: Option<seq<Attachment>>)

  function ShapeOfSession(s: Session): SessionShape {
    SessionShape(s.id, s.name, s.group, s.activeWindow, s.lastWindow, s.links)
  }

  function ShapeOfPane(p: Pane): PaneShape {
    PaneShape(p.id, p.index, p.title, p.cwd, p.startCommand, p.dead)
  }

  function ShapeOfWindow(w: Window): WindowShape {
    WindowShape(w.id, w.name, w.layout, w.width, w.height, w.zoomed, w.automaticRename, w.activePane,
                seq(|w.panes|, i requires 0 <= i < |w.panes| => ShapeOfPane(w.panes[i])))
  }

  predicate OptionLeq(a: Option<string>, b: Option<string>) {
    a.None? || (b.Some? && NameLeq(a.value, b.value))
  }

  predicate AttachmentLeq(a: Attachment, b: Attachment) {
    if a.sessionId == b.sessionId then OptionLeq(a.lastSessionId, b.lastSessionId)
    else NameLeq(a.sessionId, b.sessionId)
  }

  function InsertAttachment(a: Attachment, sorted: seq<Attachment>): seq<Attachment> {
    if sorted == [] then [a]
    else if AttachmentLeq(a, sorted[0]) then [a] + sorted
    else [sorted[0]] + InsertAttachment(a, sorted[1..])
  }

  function SortAttachments(attachments: seq<Attachment>): seq<Attachment> {
    if attachments == [] then [] else InsertAttachment(attachments[0], SortAttachments(attachments[1..]))
  }

  function StructuralView(state: State): Shape {
    Shape(
      seq(|state.sessions|, i requires 0 <= i < |state.sessions| => ShapeOfSession(state.sessions[i])),
      seq(|state.windows|, i requires 0 <= i < |state.windows| => ShapeOfWindow(state.windows[i])),
      match state.clientState
      case None => None
      case Some(attachments) => Some(SortAttachments(attachments)))
  }

  // ----- The order of activity leaves no trace -----

  lemma AttachmentOrder(a: Attachment, b: Attachment, c: Attachment)
    ensures AttachmentLeq(a, b) || AttachmentLeq(b, a)
    ensures AttachmentLeq(a, b) && AttachmentLeq(b, a) ==> a == b
    ensures AttachmentLeq(a, b) && AttachmentLeq(b, c) ==> AttachmentLeq(a, c)
  {
    NameLeqOrder(a.sessionId, b.sessionId, c.sessionId);
    NameLeqOrder(b.sessionId, a.sessionId, c.sessionId);
    NameLeqOrder(b.sessionId, c.sessionId, a.sessionId);
    var x := if a.lastSessionId.Some? then a.lastSessionId.value else "";
    var y := if b.lastSessionId.Some? then b.lastSessionId.value else "";
    var z := if c.lastSessionId.Some? then c.lastSessionId.value else "";
    NameLeqOrder(x, y, z);
    NameLeqOrder(y, x, z);
  }

  ghost predicate InOrder(attachments: seq<Attachment>) {
    forall i, j | 0 <= i < j < |attachments| :: AttachmentLeq(attachments[i], attachments[j])
  }

  lemma {:induction false} InsertAttachmentMembers(a: Attachment, sorted: seq<Attachment>)
    ensures multiset(InsertAttachment(a, sorted)) == multiset(sorted) + multiset{a}
  {
    if sorted != [] {
      assert sorted == [sorted[0]] + sorted[1..];
      if !AttachmentLeq(a, sorted[0]) {
        InsertAttachmentMembers(a, sorted[1..]);
      }
    }
  }

  lemma InsertAttachmentIn(a: Attachment, sorted: seq<Attachment>, x: Attachment)
    requires x in InsertAttachment(a, sorted)
    ensures x == a || x in sorted
  {
    InsertAttachmentMembers(a, sorted);
    assert x in multiset(InsertAttachment(a, sorted));
  }

  lemma {:induction false} InsertAttachmentOrder(a: Attachment, sorted: seq<Attachment>)
    requires InOrder(sorted)
    ensures InOrder(InsertAttachment(a, sorted))
  {
    hide AttachmentLeq;
    if sorted != [] {
      AttachmentOrder(a, sorted[0], a);
      var rest := sorted[1..];
      if AttachmentLeq(a, sorted[0]) {
        forall j | 0 <= j < |sorted| ensures AttachmentLeq(a, sorted[j]) {
          AttachmentOrder(a, sorted[0], sorted[j]);
          AttachmentOrder(sorted[0], sorted[0], sorted[0]);
        }
      } else {
        InsertAttachmentOrder(a, rest);
        var inner := InsertAttachment(a, rest);
        forall j | 0 <= j < |inner| ensures AttachmentLeq(sorted[0], inner[j]) {
          InsertAttachmentIn(a, rest, inner[j]);
          if inner[j] != a {
            var k :| 0 <= k < |rest| && rest[k] == inner[j];
            assert sorted[k + 1] == inner[j];
          }
        }
      }
    }
  }

  lemma {:induction false} SortAttachmentsOrder(attachments: seq<Attachment>)
    ensures InOrder(SortAttachments(attachments))
    ensures multiset(SortAttachments(attachments)) == multiset(attachments)
  {
    if attachments != [] {
      SortAttachmentsOrder(attachments[1..]);
      InsertAttachmentMembers(attachments[0], SortAttachments(attachments[1..]));
      InsertAttachmentOrder(attachments[0], SortAttachments(attachments[1..]));
      assert attachments == [attachments[0]] + attachments[1..];
    }
  }

  lemma TailMembers<T>(s: seq<T>)
    requires s != []
    ensures multiset(s[1..]) == multiset(s) - multiset{s[0]}
  {
    assert s == [s[0]] + s[1..];
  }

  lemma {:induction false} OrderedOnce(a: seq<Attachment>, b: seq<Attachment>)
    requires InOrder(a) && InOrder(b) && multiset(a) == multiset(b)
    ensures a == b
  {
    hide AttachmentLeq;
    if a == [] {
      FirstIsIn(b);
    } else {
      assert a[0] in multiset(b);
      var i :| 0 <= i < |b| && b[i] == a[0];
      assert b[0] in multiset(a);
      var j :| 0 <= j < |a| && a[j] == b[0];
      AttachmentOrder(a[0], b[0], a[0]);
      assert a[0] == b[0];
      assert a == [a[0]] + a[1..] && b == [b[0]] + b[1..];
      TailMembers(a);
      TailMembers(b);
      OrderedOnce(a[1..], b[1..]);
    }
  }

  /** The same terminals in another order of activity are the same structure. */
  lemma ActivityOrderIrrelevant(state: State, attachments: seq<Attachment>)
    requires state.clientState.Some? && multiset(state.clientState.value) == multiset(attachments)
    ensures StructuralView(state.(clientState := Some(attachments))) == StructuralView(state)
  {
    SortAttachmentsOrder(state.clientState.value);
    SortAttachmentsOrder(attachments);
    OrderedOnce(SortAttachments(state.clientState.value), SortAttachments(attachments));
  }

  /** What the panes run, and when a session was made, is no part of the structure either. */
  lemma VolatileFieldsIrrelevant(a: State, b: State)
    requires a.clientState == b.clientState && |a.sessions| == |b.sessions| && |a.windows| == |b.windows|
    requires forall i | 0 <= i < |a.sessions| :: b.sessions[i].(createdAt := a.sessions[i].createdAt) == a.sessions[i]
    requires forall i | 0 <= i < |a.windows| :: SameButProcesses(a.windows[i], b.windows[i])
    ensures StructuralView(a) == StructuralView(b)
  {
    forall i | 0 <= i < |a.windows| ensures ShapeOfWindow(a.windows[i]) == ShapeOfWindow(b.windows[i]) {
      var x, y := ShapeOfWindow(a.windows[i]), ShapeOfWindow(b.windows[i]);
      assert SameButProcesses(a.windows[i], b.windows[i]);
      assert x.panes == y.panes;
    }
    assert StructuralView(a).sessions == StructuralView(b).sessions;
    assert StructuralView(a).windows == StructuralView(b).windows;
  }

  ghost predicate SameButProcesses(a: Window, b: Window) {
    && a.(panes := b.panes) == b && |a.panes| == |b.panes|
    && forall k | 0 <= k < |a.panes| :: a.panes[k].(process := b.panes[k].process) == b.panes[k]
  }

  /** The states differ at most in when their sessions were made, in what their panes run, and in the order
      of the terminals' activity. */
  ghost predicate SameStructure(a: State, b: State) {
    && |a.sessions| == |b.sessions| && |a.windows| == |b.windows|
    && (forall i | 0 <= i < |a.sessions| :: b.sessions[i].(createdAt := a.sessions[i].createdAt) == a.sessions[i])
    && (forall i | 0 <= i < |a.windows| :: SameButProcesses(a.windows[i], b.windows[i]))
    && (a.clientState.Some? <==> b.clientState.Some?)
    && (a.clientState.Some? ==> multiset(a.clientState.value) == multiset(b.clientState.value))
  }

  /** Equal structural hashes mean exactly that: nothing else is left out, and nothing else is in. */
  lemma StructureExactly(a: State, b: State)
    ensures StructuralView(a) == StructuralView(b) <==> SameStructure(a, b)
  {
    if SameStructure(a, b) {
      VolatileFieldsIrrelevant(a.(clientState := b.clientState), b);
      if a.clientState.Some? {
        ActivityOrderIrrelevant(a, b.clientState.value);
      }
    }
    if StructuralView(a) == StructuralView(b) {
      EqualViews(a, b);
    }
  }

  lemma EqualViews(a: State, b: State)
    requires StructuralView(a) == StructuralView(b)
    ensures SameStructure(a, b)
  {
    var x, y := StructuralView(a), StructuralView(b);
    assert |x.sessions| == |a.sessions| && |y.sessions| == |b.sessions|;
    assert |x.windows| == |a.windows| && |y.windows| == |b.windows|;
    forall i | 0 <= i < |a.sessions| ensures b.sessions[i].(createdAt := a.sessions[i].createdAt) == a.sessions[i] {
      assert x.sessions[i] == ShapeOfSession(a.sessions[i]) && y.sessions[i] == ShapeOfSession(b.sessions[i]);
    }
    forall i | 0 <= i < |a.windows| ensures SameButProcesses(a.windows[i], b.windows[i]) {
      assert x.windows[i] == ShapeOfWindow(a.windows[i]) && y.windows[i] == ShapeOfWindow(b.windows[i]);
      EqualShapes(a.windows[i], b.windows[i]);
    }
    if a.clientState.Some? {
      SortAttachmentsOrder(a.clientState.value);
      SortAttachmentsOrder(b.clientState.value);
    }
  }

  lemma EqualShapes(a: Window, b: Window)
    requires ShapeOfWindow(a) == ShapeOfWindow(b)
    ensures SameButProcesses(a, b)
  {
    var x, y := ShapeOfWindow(a).panes, ShapeOfWindow(b).panes;
    assert |x| == |a.panes| && |y| == |b.panes|;
    forall k | 0 <= k < |a.panes| ensures a.panes[k].(process := b.panes[k].process) == b.panes[k] {
      assert x[k] == ShapeOfPane(a.panes[k]) && y[k] == ShapeOfPane(b.panes[k]);
    }
  }

  // ----- The structure determines the panes -----

  lemma {:induction false} ShapePanes(a: seq<Window>, b: seq<Window>)
    requires |a| == |b| && forall i | 0 <= i < |a| :: ShapeOfWindow(a[i]) == ShapeOfWindow(b[i])
    ensures PaneIds(AllPanes(a)) == PaneIds(AllPanes(b))
  {
    if a != [] {
      var n := |a| - 1;
      ShapePanes(a[..n], b[..n]);
      assert ShapeOfWindow(a[n]).panes == ShapeOfWindow(b[n]).panes;
      assert |ShapeOfWindow(a[n]).panes| == |a[n].panes| && |ShapeOfWindow(b[n]).panes| == |b[n].panes|;
      forall k | 0 <= k < |a[n].panes| ensures a[n].panes[k].id == b[n].panes[k].id {
        assert ShapeOfWindow(a[n]).panes[k].id == a[n].panes[k].id;
        assert ShapeOfWindow(b[n]).panes[k].id == b[n].panes[k].id;
      }
      assert PaneIds(AllPanes(a)) == PaneIds(AllPanes(a[..n])) + PaneIds(a[n].panes);
      assert PaneIds(AllPanes(b)) == PaneIds(AllPanes(b[..n])) + PaneIds(b[n].panes);
      assert PaneIds(a[n].panes) == PaneIds(b[n].panes);
    }
  }

  /** States with equal structural hashes have the same panes, in the same order. */
  lemma StructureFixesPanes(a: State, b: State)
    requires StructuralView(a) == StructuralView(b)
    ensures PaneIds(AllPanes(a.windows)) == PaneIds(AllPanes(b.windows))
  {
    var x, y := StructuralView(a).windows, StructuralView(b).windows;
    assert |x| == |a.windows| && |y| == |b.windows|;
    forall i | 0 <= i < |a.windows| ensures ShapeOfWindow(a.windows[i]) == ShapeOfWindow(b.windows[i]) {
      assert x[i] == ShapeOfWindow(a.windows[i]) && y[i] == ShapeOfWindow(b.windows[i]);
    }
    ShapePanes(a.windows, b.windows);
  }
}
