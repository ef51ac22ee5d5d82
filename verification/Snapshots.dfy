/** Snapshots, process checkpoints, and when a checkpoint may be applied to a snapshot. */
module Snapshots {
  import opened Wrappers
  import opened SnapshotGraph
  import opened Structure
  import opened Retention

  const SCHEMA_VERSION: nat := 1

  datatype Socket = Socket(path: seq<byte>, key: string)

  datatype Origin = Origin(
    hostname: string, uid: nat, os: string, toolVersion: string, tmuxVersion: Option<string>,
    socket: Option<Socket>, serverPid: Option<nat>, serverStartedAt: Option<int>)

  datatype Snapshot = Snapshot(
    schema: nat, id: Id, createdAt: int, semanticHash: Digest, tag: Option<string>, origin: Origin, state: State)

  datatype SnapshotError = UnsupportedSchema | BadState(error: GraphError) | HashMismatch | IdMismatch

  ghost predicate ValidSnapshot(s: Snapshot) {
    && s.schema == SCHEMA_VERSION
    && WellFormed(s.state)
    && s.semanticHash == HashOf(s.state)
    && s.id == Stamped(s.createdAt, s.semanticHash)
  }

  method ValidateSnapshot(s: Snapshot) returns (r: Outcome<SnapshotError>)
    ensures r.Pass? <==> ValidSnapshot(s)
  {
    hide WellFormed, Violates;
    if s.schema != SCHEMA_VERSION {
      return Fail(UnsupportedSchema);
    }
    var graph := Validate(s.state);
    if graph.Fail? {
      return Fail(BadState(graph.error));
    }
    if s.semanticHash != HashOf(s.state) {
      return Fail(HashMismatch);
    }
    if s.id != Stamped(s.createdAt, HashOf(s.state)) {
      return Fail(IdMismatch);
    }
    return Pass;
  }

  /** The snapshot of a state as of a time. */
  function Taken(tag: Option<string>, origin: Origin, state: State, now: int): Snapshot {
    Snapshot(SCHEMA_VERSION, Stamped(now, HashOf(state)), now, HashOf(state), tag, origin, state)
  }

  /** A snapshot of a captured state: the state has to be well formed. */
  method NewSnapshot(tag: Option<string>, origin: Origin, state: State, now: int)
    returns (r: Result<Snapshot, SnapshotError>)
    ensures r.Ok? <==> WellFormed(state)
    ensures r.Ok? ==> ValidSnapshot(r.value) && r.value == Taken(tag, origin, state, now)
  {
    hide WellFormed, Violates;
    var graph := Validate(state);
    if graph.Fail? {
      return Err(BadState(graph.error));
    }
    return Ok(Taken(tag, origin, state, now));
  }

  // ----- Process checkpoints -----

  datatype PaneEntry = PaneEntry(paneId: string, process: Process)

  datatype CheckpointOrigin = CheckpointOrigin(socketKey: string, serverStartedAt: Option<int>)

  /** A hash field holds what it is the hash of, or nothing if it is the hash of nothing. */
  datatype Checkpoint = Checkpoint(
    schema: nat, capturedAt: int, base: Id, structuralHash: Option<Shape>, processHash: Option<seq<PaneEntry>>,
    origin: CheckpointOrigin, panes: seq<PaneEntry>)

  function EntryIds(panes: seq<PaneEntry>): (ids: seq<string>) {
    seq(|panes|, i requires 0 <= i < |panes| => panes[i].paneId)
  }

  /** An entry for every pane, in order, with what the pane runs. */
  function CheckpointPanes(state: State): (entries: seq<PaneEntry>)
    ensures var panes := AllPanes(state.windows);
            |entries| == |panes|
            && forall k | 0 <= k < |panes| :: entries[k].paneId == panes[k].id && entries[k].process == panes[k].process
  {
    var panes := AllPanes(state.windows);
    seq(|panes|, i requires 0 <= i < |panes| => PaneEntry(panes[i].id, panes[i].process))
  }

  datatype CheckpointError =
    | UnsupportedCheckpointSchema
    | DuplicatePane
    | ProcessHashMismatch
    | OtherSnapshot
    | OtherStructure
    | OtherSocket
    | OtherGeneration
    | OtherPanes

  ghost predicate ValidCheckpoint(c: Checkpoint) {
    c.schema == SCHEMA_VERSION && Distinct(EntryIds(c.panes)) && c.processHash == Some(c.panes)
  }

  method ValidateCheckpoint(c: Checkpoint) returns (r: Outcome<CheckpointError>)
    ensures r.Pass? <==> ValidCheckpoint(c)
  {
    if c.schema != SCHEMA_VERSION {
      return Fail(UnsupportedCheckpointSchema);
    }
    var seen: set<string> := {};
    ghost var ids := EntryIds(c.panes);
    for i := 0 to |c.panes|
      invariant seen == Elements(ids[..i])
      invariant Distinct(ids[..i])
    {
      assert ids[..i + 1] == ids[..i] + [c.panes[i].paneId];
      if c.panes[i].paneId in seen {
        assert !Distinct(ids) by {
          var j :| 0 <= j < i && ids[..i][j] == c.panes[i].paneId;
          assert ids[j] == ids[i];
        }
        return Fail(DuplicatePane);
      }
      DistinctAppend(ids[..i], c.panes[i].paneId);
      seen := seen + {c.panes[i].paneId};
    }
    assert ids[..|c.panes|] == ids;
    if c.processHash != Some(c.panes) {
      return Fail(ProcessHashMismatch);
    }
    return Pass;
  }

  /** The checkpoint of a state. */
  method Capture(base: Id, structuralHash: Shape, origin: CheckpointOrigin, state: State, now: int)
    returns (r: Result<Checkpoint, CheckpointError>)
    ensures r.Ok? <==> Distinct(PaneIds(AllPanes(state.windows)))
    ensures r.Ok? ==> ValidCheckpoint(r.value)
                      && r.value == Checkpoint(SCHEMA_VERSION, now, base, Some(structuralHash),
                                               Some(CheckpointPanes(state)), origin, CheckpointPanes(state))
  {
    var panes := CheckpointPanes(state);
    assert EntryIds(panes) == PaneIds(AllPanes(state.windows));
    var c := Checkpoint(SCHEMA_VERSION, now, base, Some(structuralHash), Some(panes), origin, panes);
    var valid := ValidateCheckpoint(c);
    if valid.Fail? {
      return Err(valid.error);
    }
    return Ok(c);
  }

  /** A checkpoint describes exactly this snapshot, on the same socket and server generation. */
  ghost predicate Eligible(c: Checkpoint, s: Snapshot) {
    && ValidCheckpoint(c)
    && c.base == s.id
    && c.structuralHash == Some(StructuralView(s.state))
    && s.origin.socket.Some? && s.origin.socket.value.key == c.origin.socketKey
    && c.origin.serverStartedAt == s.origin.serverStartedAt
    && Elements(EntryIds(c.panes)) == Elements(PaneIds(AllPanes(s.state.windows)))
  }

  method CheckpointEligibility(c: Checkpoint, s: Snapshot) returns (r: Outcome<CheckpointError>)
    ensures r.Pass? <==> Eligible(c, s)
  {
    var valid := ValidateCheckpoint(c);
    if valid.Fail? {
      return valid;
    }
    if c.base != s.id {
      return Fail(OtherSnapshot);
    }
    if c.structuralHash != Some(StructuralView(s.state)) {
      return Fail(OtherStructure);
    }
    if s.origin.socket.None? || s.origin.socket.value.key != c.origin.socketKey {
      return Fail(OtherSocket);
    }
    if c.origin.serverStartedAt != s.origin.serverStartedAt {
      return Fail(OtherGeneration);
    }
    if Elements(PaneIds(AllPanes(s.state.windows))) != Elements(EntryIds(c.panes)) {
      return Fail(OtherPanes);
    }
    return Pass;
  }

  /** A checkpoint taken of any state with the structure of a snapshot, on its socket and generation,
      is eligible for it, whatever the panes run meanwhile. */
  lemma SameStructureIsEligible(c: Checkpoint, s: Snapshot, state: State)
    requires ValidCheckpoint(c) && c.base == s.id && c.panes == CheckpointPanes(state)
    requires c.structuralHash == Some(StructuralView(state)) && StructuralView(state) == StructuralView(s.state)
    requires s.origin.socket.Some? && s.origin.socket.value.key == c.origin.socketKey
    requires c.origin.serverStartedAt == s.origin.serverStartedAt
    ensures Eligible(c, s)
  {
    StructureFixesPanes(state, s.state);
    assert EntryIds(c.panes) == PaneIds(AllPanes(state.windows));
  }

  /** Nothing about the panes alone can make a checkpoint of the right structure ineligible: the test of
      the pane set only ever rejects a file whose hashes are not those of its contents. */
  lemma PaneTestIsRedundant(c: Checkpoint, s: Snapshot, state: State)
    requires c.structuralHash == Some(StructuralView(state)) && c.panes == CheckpointPanes(state)
    ensures c.structuralHash == Some(StructuralView(s.state))
            ==> Elements(EntryIds(c.panes)) == Elements(PaneIds(AllPanes(s.state.windows)))
  {
    if StructuralView(state) == StructuralView(s.state) {
      StructureFixesPanes(state, s.state);
      assert EntryIds(c.panes) == PaneIds(AllPanes(state.windows));
    }
  }
}
