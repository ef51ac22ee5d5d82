/** The writers of the store: the daemon's autosave, the command line's save, and the safety snapshot
    of a restore. Each holds the mutation lock for all of what follows here. */
module Saving {
  import opened Wrappers
  import opened SnapshotGraph
  import opened Structure
  import opened Retention
  import opened Snapshots
  import opened Store
  import RetentionRuns

  datatype SaveConfig = SaveConfig(retention: Config, processes: bool, interval: int)

  /** What was read from the tmux server; `bootstrap` when it looks freshly started. */
  datatype Captured = Captured(origin: Origin, state: State, bootstrap: bool)

  datatype SaveOutcome = Saved | AlreadySaved | ProtectedBootstrap

  datatype SaveError =
    | OfStore(error: StoreError)
    | OfSnapshot(snapshotError: SnapshotError)
    | OfCheckpoint(checkpointError: CheckpointError)

  /** The times a writer reads: for the prune, to see whether the sidecar is due, and for a new sidecar. */
  datatype Clock = Clock(pruned: int, looked: int, captured: int)

  /** A process refresh that is due, and what it replaces. */
  datatype Pending = Pending(base: Id, existing: Option<Checkpoint>, clockMovedBackwards: bool)

  function OriginOfCheckpoint(origin: Origin): CheckpointOrigin {
    CheckpointOrigin(if origin.socket.Some? then origin.socket.value.key else "", origin.serverStartedAt)
  }

  /** Reading the processes of the panes changes nothing else in a captured state. */
  ghost predicate OnlyProcessesDiffer(a: State, b: State) {
    && a.clientState == b.clientState && a.sessions == b.sessions && |a.windows| == |b.windows|
    && forall i | 0 <= i < |a.windows| :: SameButProcesses(a.windows[i], b.windows[i])
  }

  lemma ProcessesAreNotStructure(a: State, b: State)
    requires OnlyProcessesDiffer(a, b)
    ensures StructuralView(a) == StructuralView(b)
  {
    VolatileFieldsIrrelevant(a, b);
  }

  /** The sidecar is usable and says what the current snapshot's panes run. */
  ghost predicate Describes(d: Disk, base: Id) {
    d.sidecar.Some? && d.sidecar.value.Sidecar? && ValidCheckpoint(d.sidecar.value.checkpoint)
    && d.sidecar.value.checkpoint.base == base
  }

  /** The usable sidecar says for every pane what it runs in this state. */
  ghost predicate Runs(d: Disk, state: State) {
    d.sidecar.Some? && d.sidecar.value.Sidecar? && d.sidecar.value.checkpoint.panes == CheckpointPanes(state)
  }

  ghost predicate WrittenAt(d: Disk, now: int) {
    d.sidecar.Some? && d.sidecar.value.Sidecar? && d.sidecar.value.checkpoint.capturedAt == now
  }

  /** The sidecar is one for this snapshot, not from the future, and younger than the interval. */
  ghost predicate Fresh(d: Disk, base: Id, interval: int, now: int) {
    && Describes(d, base)
    && var at := d.sidecar.value.checkpoint.capturedAt;
       at <= now && now - at < interval
  }

  /** The sidecar is one for this snapshot and not from the future. It says what runs, or is not yet due. */
  ghost predicate UpToDate(d: Disk, base: Id, state: State, interval: int, clock: Clock) {
    && Describes(d, base)
    && var at := d.sidecar.value.checkpoint.capturedAt;
       && (at <= clock.looked || at == clock.captured)
       && (Runs(d, state) || Fresh(d, base, interval, clock.looked))
  }

  /** The current snapshot is one of this server and structure. */
  ghost predicate CurrentSays(d: Disk, origin: Origin, structure: Shape) {
    Current(d).Some? && Current(d).value.origin == origin && StructuralView(Current(d).value.state) == structure
  }

  /** Whether the sidecar has to be looked at again: always when it is unusable, was taken for another
      snapshot or in the future, and otherwise once the interval has passed. */
  method RefreshIfDue(store: SnapshotStore, interval: int, base: Id, now: int) returns (r: Option<Pending>)
    modifies store`faults
    ensures store.faults >= old(store.faults)
    ensures r.None? ==> Fresh(store.disk, base, interval, now)
    ensures r.Some? ==> r.value.base == base
                        && (r.value.existing.Some? ==>
                              Describes(store.disk, r.value.existing.value.base)
                              && store.disk.sidecar.value.checkpoint == r.value.existing.value)
                        && (r.value.clockMovedBackwards
                            <==> r.value.existing.Some? && now < r.value.existing.value.capturedAt)
    ensures r.Some? && store.faults == old(store.faults) ==> !Fresh(store.disk, base, interval, now)
  {
    var read := store.ReadCheckpoint();
    var existing := if read.Ok? then read.value else None;
    var clockMovedBackwards := existing.Some? && now < existing.value.capturedAt;
    var due := clockMovedBackwards || existing.None? || existing.value.base != base
               || now - existing.value.capturedAt >= interval;
    if !due {
      return None;
    }
    return Some(Pending(base, existing, clockMovedBackwards));
  }

  /** Replaces the sidecar unless it already says the same about the same snapshot. */
  method Refresh(store: SnapshotStore, structure: Shape, origin: Origin, state: State, pending: Pending, now: int)
    returns (r: Outcome<SaveError>)
    requires store.Valid()
    requires structure == StructuralView(state) && CurrentSays(store.disk, origin, structure)
    requires Current(store.disk).value.id == pending.base
    requires pending.existing.Some? ==> Describes(store.disk, pending.existing.value.base)
                                        && store.disk.sidecar.value.checkpoint == pending.existing.value
    modifies store
    ensures store.Rests()
    ensures store.Valid() && old(store.trace) <= store.trace && store.faults >= old(store.faults)
    ensures Current(store.disk) == old(Current(store.disk))
    ensures Upheld(old(store.disk), store.trace, |old(store.trace)|, origin.socket.Some?)
    ensures store.disk == old(store.disk).(sidecar := store.disk.sidecar)
    ensures r.Pass? ==> Describes(store.disk, pending.base) && Runs(store.disk, state)
    ensures r.Pass? && (pending.existing.None? || pending.clockMovedBackwards
              || pending.existing.value.base != pending.base)
            ==> WrittenAt(store.disk, now)
    ensures store.disk == old(store.disk) || WrittenAt(store.disk, now)
    ensures pending.existing.Some? && !pending.clockMovedBackwards && pending.existing.value.base == pending.base
            && pending.existing.value.panes == CheckpointPanes(state)
            ==> store.disk == old(store.disk) && store.trace == old(store.trace)
    ensures r.Fail? ==> store.faults > old(store.faults) || !Distinct(PaneIds(AllPanes(state.windows)))
  {
    hide Retains, StructuralView, Current, Eligible, ValidSnapshot;
    NothingNew(store.disk, store.trace);
    var captured := Capture(pending.base, structure, OriginOfCheckpoint(origin), state, now);
    if captured.Err? {
      return Fail(OfCheckpoint(captured.error));
    }
    var c := captured.value;
    if !pending.clockMovedBackwards && pending.existing.Some? && pending.existing.value.base == c.base
       && pending.existing.value.processHash == c.processHash {
      return Pass;
    }
    var written := store.WriteCheckpoint(c);
    WrittenUpholds(store.trace, |old(store.trace)|, old(store.disk), c, origin, state);
    SidecarElsewhere(old(store.disk), Some(Sidecar(c)));
    if written.Fail? {
      return Fail(OfStore(written.error));
    }
    return Pass;
  }

  /** A sidecar taken from a capture of the current snapshot's structure, on its server, agrees. */
  lemma WrittenUpholds(trace: seq<Disk>, from: nat, before: Disk, c: Checkpoint, origin: Origin, state: State)
    requires from <= |trace| && forall k | from <= k < |trace| :: SidecarOnly(before, Some(Sidecar(c)), trace[k])
    requires ValidCheckpoint(c) && c.panes == CheckpointPanes(state) && c.origin == OriginOfCheckpoint(origin)
    requires CurrentSays(before, origin, StructuralView(state)) && c.base == Current(before).value.id
    requires c.structuralHash == Some(StructuralView(state))
    ensures Upheld(before, trace, from, origin.socket.Some?)
  {
    hide StructuralView, Current, Eligible, ValidSnapshot, ValidCheckpoint;
    SidecarElsewhere(before, Some(Sidecar(c)));
    if origin.socket.Some? {
      SameStructureIsEligible(c, Current(before).value, state);
      SidecarUpholds(trace, from, before, Some(Sidecar(c)));
    }
    SidecarSound(trace, from, before, Some(Sidecar(c)));
  }

  /** Of the sidecars that a save writes for a current snapshot, exactly those of a capture with a socket
      identity are accepted by a restore. */
  lemma EligibleExactlyWithSocket(c: Checkpoint, s: Snapshot, state: State)
    requires ValidCheckpoint(c) && c.base == s.id && c.panes == CheckpointPanes(state)
    requires c.structuralHash == Some(StructuralView(state)) && StructuralView(state) == StructuralView(s.state)
    requires c.origin == OriginOfCheckpoint(s.origin)
    ensures Eligible(c, s) <==> s.origin.socket.Some?
  {
    hide StructuralView, ValidCheckpoint;
    if s.origin.socket.Some? {
      SameStructureIsEligible(c, s, state);
    }
  }

  lemma SidecarSound(trace: seq<Disk>, from: nat, before: Disk, sidecar: Option<SidecarFile>)
    requires from <= |trace| && forall k | from <= k < |trace| :: SidecarOnly(before, sidecar, trace[k])
    ensures Upheld(before, trace, from, false)
  {
    hide Current;
    SidecarElsewhere(before, sidecar);
    forall k | from <= k < |trace| ensures Sound(before) ==> Sound(trace[k]) {
      assert SidecarOnly(before, sidecar, trace[k]);
    }
  }

  lemma RemovedUpholds(trace: seq<Disk>, from: nat, before: Disk, d: Disk, id: Id)
    requires from <= |trace| && forall k | from <= k < |trace| :: SidecarOnly(before, None, trace[k])
    requires SidecarOnly(before, None, d)
    ensures Upheld(before, trace, from, true)
    ensures Current(d) == Current(before) && CurrentId(d) == CurrentId(before)
    ensures Unused(before, id) ==> Unused(d, id)
    ensures d.pointer == before.pointer && (NoTwins(before) ==> NoTwins(d))
  {
    hide ValidSnapshot;
    SidecarElsewhere(before, None);
    SidecarUpholds(trace, from, before, None);
  }

  lemma PanesOfWellFormed(state: State)
    requires WellFormed(state)
    ensures Distinct(PaneIds(AllPanes(state.windows)))
  {
  }

  // ----- A save of something new -----

  /** The sidecar of what is current, from a snapshot with its structure. The answer is false when the
      sidecar could not be written. */
  method Accompany(store: SnapshotStore, base: Id, s: Snapshot, origin: CheckpointOrigin, now: int)
    returns (r: Result<bool, SaveError>)
    requires store.Valid() && CurrentSays(store.disk, s.origin, StructuralView(s.state))
    requires Current(store.disk).value.id == base
    modifies store
    ensures store.Rests()
    ensures store.Valid() && old(store.trace) <= store.trace && Current(store.disk) == old(Current(store.disk))
    ensures store.disk == old(store.disk).(sidecar := store.disk.sidecar)
    ensures Upheld(old(store.disk), store.trace, |old(store.trace)|,
                   s.origin.socket.Some? && origin == OriginOfCheckpoint(s.origin))
    ensures r == Ok(true) ==>
              Describes(store.disk, base) && Runs(store.disk, s.state) && WrittenAt(store.disk, now)
    ensures store.faults >= old(store.faults) && (r == Ok(false) ==> store.faults > old(store.faults))
    ensures r.Err? ==> store.faults > old(store.faults) || !Distinct(PaneIds(AllPanes(s.state.windows)))
  {
    hide Retains, StructuralView, Current, Eligible, ValidCheckpoint, ValidSnapshot, Upheld;
    ghost var given := s.origin.socket.Some? && origin == OriginOfCheckpoint(s.origin);
    NothingNew(store.disk, store.trace);
    UpheldLess(store.disk, store.trace, |store.trace|, true, given);
    var c := Capture(base, StructuralView(s.state), origin, s.state, now);
    if c.Err? {
      return Err(OfCheckpoint(c.error));
    }
    var written := store.WriteCheckpoint(c.value);
    if origin == OriginOfCheckpoint(s.origin) {
      WrittenUpholds(store.trace, |old(store.trace)|, old(store.disk), c.value, s.origin, s.state);
      UpheldLess(old(store.disk), store.trace, |old(store.trace)|, s.origin.socket.Some?, given);
    } else {
      SidecarSound(store.trace, |old(store.trace)|, old(store.disk), Some(Sidecar(c.value)));
    }
    SidecarElsewhere(old(store.disk), Some(Sidecar(c.value)));
    return Ok(written.Pass?);
  }

  /** After a snapshot was written and made current: older history goes, and the sidecar follows. The
      answer is whether the sidecar was lost. */
  method AfterWritten(store: SnapshotStore, config: SaveConfig, s: Snapshot, clock: Clock)
    returns (r: Result<bool, SaveError>)
    requires store.Valid() && Current(store.disk) == Some(s)
    modifies store
    ensures store.Proceeds(config.retention)
    ensures store.Valid() && old(store.trace) <= store.trace && store.faults >= old(store.faults)
    ensures Current(store.disk) == Some(s)
    ensures Upheld(old(store.disk), store.trace, |old(store.trace)|, s.origin.socket.Some?)
    ensures r == Ok(true) ==> store.faults > old(store.faults)
    ensures r == Ok(false) && config.processes ==>
              Runs(store.disk, s.state) && UpToDate(store.disk, s.id, s.state, config.interval, clock)
    ensures r.Ok? ==>
              Pruned(old(store.disk), config.retention, clock.pruned, store.faults == old(store.faults), store.disk)
    ensures !config.processes ==> store.disk.sidecar == old(store.disk).sidecar
    ensures store.faults == old(store.faults) && NoTwins(old(store.disk)) && PointerOf(old(store.disk)).Ok?
            && Distinct(PaneIds(AllPanes(s.state.windows)))
            ==> r.Ok?
  {
    hide Retains, StructuralView, Current, Eligible, ValidSnapshot, ValidCheckpoint, Upheld, Keep, Expired,
         SteadySince, NoTwins, Distinct;
    ghost var before, from, given := store.disk, |store.trace|, s.origin.socket.Some?;
    var pruned, listing := store.Prune(config.retention, clock.pruned);
    OneFileEach(before, config.retention, clock.pruned, listing);
    ghost var all := store.faults == old(store.faults);
    SteadyUpholds(store.trace, from, before, given);
    if pruned.Err? {
      return Err(OfStore(pruned.error));
    }
    if !config.processes {
      return Ok(false);
    }
    ghost var trace1, disk1 := store.trace, store.disk;
    assert LastOr(trace1, from, before) == disk1;
    var written := Accompany(store, s.id, s, OriginOfCheckpoint(s.origin), clock.captured);
    UpheldChain(before, trace1, store.trace, from, given);
    PrunedApart(before, config.retention, clock.pruned, all, disk1, before, store.faults == old(store.faults),
      store.disk);
    if written.Err? {
      return Err(written.error);
    }
    return Ok(!written.value);
  }

  /** Nothing new is to be stored, but the sidecar may be due. */
  method KeepUp(store: SnapshotStore, config: SaveConfig, base: Id, origin: Origin, state: State, clock: Clock)
    returns (r: Outcome<SaveError>)
    requires store.Valid() && CurrentSays(store.disk, origin, StructuralView(state))
    requires Current(store.disk).value.id == base
    modifies store
    ensures store.Rests()
    ensures store.Valid() && old(store.trace) <= store.trace && store.faults >= old(store.faults)
    ensures Current(store.disk) == old(Current(store.disk))
    ensures Upheld(old(store.disk), store.trace, |old(store.trace)|, origin.socket.Some?)
    ensures store.disk == old(store.disk).(sidecar := store.disk.sidecar)
    ensures r.Pass? ==> UpToDate(store.disk, base, state, config.interval, clock)
    ensures store.faults == old(store.faults) && Fresh(old(store.disk), base, config.interval, clock.looked)
            ==> store.disk == old(store.disk)
    ensures r.Fail? ==> store.faults > old(store.faults) || !Distinct(PaneIds(AllPanes(state.windows)))
  {
    hide Retains, StructuralView, Current, Eligible, ValidSnapshot, ValidCheckpoint, Upheld, Distinct, CheckpointPanes;
    NothingNew(store.disk, store.trace);
    UpheldLess(store.disk, store.trace, |store.trace|, true, origin.socket.Some?);
    var refresh := RefreshIfDue(store, config.interval, base, clock.looked);
    if refresh.None? {
      return Pass;
    }
    r := Refresh(store, StructuralView(state), origin, state, refresh.value, clock.captured);
  }

  /** After a commit that found nothing new: the sidecar may still be due. */
  method AfterUnchanged(store: SnapshotStore, config: SaveConfig, s: Snapshot, clock: Clock)
    returns (r: Result<bool, SaveError>)
    requires store.Valid() && CurrentSays(store.disk, s.origin, StructuralView(s.state))
    modifies store
    ensures store.Rests()
    ensures store.Valid() && old(store.trace) <= store.trace && store.faults >= old(store.faults)
    ensures Current(store.disk) == old(Current(store.disk))
    ensures Upheld(old(store.disk), store.trace, |old(store.trace)|, s.origin.socket.Some?)
    ensures r == Ok(true) ==> store.faults > old(store.faults) || !Distinct(PaneIds(AllPanes(s.state.windows)))
    ensures store.disk == old(store.disk).(sidecar := store.disk.sidecar)
    ensures !config.processes ==> store.disk == old(store.disk)
    ensures r == Ok(false) && config.processes ==>
              UpToDate(store.disk, Current(store.disk).value.id, s.state, config.interval, clock)
    ensures store.faults == old(store.faults)
            && Fresh(old(store.disk), old(Current(store.disk)).value.id, config.interval, clock.looked)
            ==> store.disk == old(store.disk)
    ensures store.faults == old(store.faults) ==> r.Ok?
  {
    hide Retains, StructuralView, Current, Eligible, ValidSnapshot, ValidCheckpoint, Upheld, Distinct;
    NothingNew(store.disk, store.trace);
    UpheldLess(store.disk, store.trace, |store.trace|, true, s.origin.socket.Some?);
    if !config.processes {
      return Ok(false);
    }
    var pointer := store.ReadPointer();
    if pointer.Err? {
      return Err(OfStore(pointer.error));
    }
    if pointer.value.None? {
      return Ok(false);
    }
    var kept := KeepUp(store, config, pointer.value.value.id, s.origin, s.state, clock);
    return Ok(kept.Fail?);
  }

  /** Whether something is written, when nothing fails: always under a tag, and else when the current snapshot
      does not say the same. */
  ghost predicate Decided(before: Disk, tag: Option<string>, origin: Origin, state: State, outcome: CommitOutcome) {
    outcome == Unchanged <==> tag.None? && CurrentSays(before, origin, StructuralView(state))
  }

  /** What a commit that makes its snapshot current leaves on disk. */
  ghost predicate Established(before: Disk, after: Disk, s: Snapshot, compressed: bool, outcome: CommitOutcome) {
    match outcome
    case Written => after == Committed(before, s, compressed) && Current(after) == Some(s) && PointerOf(after).Ok?
    case Unchanged => after == before
  }

  /** Makes a snapshot of the state current, unless what is current says the same and no tag is given. */
  method Establish(store: SnapshotStore, tag: Option<string>, origin: Origin, state: State, stamp: int)
    returns (r: Result<CommitOutcome, SaveError>)
    requires store.Valid()
    modifies store
    ensures store.Valid() && old(store.trace) <= store.trace && store.faults >= old(store.faults)
    ensures store.windows == old(store.windows) && store.latest == old(store.latest)
    ensures old(store.written) <= store.written
    ensures r == Ok(Written) ==> Stamped(stamp, HashOf(state)) in store.written
    ensures Upheld(old(store.disk), store.trace, |old(store.trace)|,
                   Unused(old(store.disk), Stamped(stamp, HashOf(state))))
    ensures r.Ok? ==>
              && Established(old(store.disk), store.disk, Taken(tag, origin, state, stamp), store.compression, r.value)
              && CurrentSays(store.disk, origin, StructuralView(state))
              && Distinct(PaneIds(AllPanes(state.windows)))
    ensures r.Ok? && NoTwins(old(store.disk)) && Unused(old(store.disk), Stamped(stamp, HashOf(state)))
            ==> NoTwins(store.disk)
    ensures r.Ok? && store.faults == old(store.faults) ==> Decided(old(store.disk), tag, origin, state, r.value)
    ensures store.faults == old(store.faults) && WellFormed(state) ==> r.Ok?
  {
    hide Retains, StructuralView, Current, WellFormed, Committing, Upheld, Unused, NoTwins, Distinct;
    ghost var before, from := store.disk, |store.trace|;
    NothingNew(before, store.trace);
    UpheldLess(before, store.trace, from, true, Unused(before, Stamped(stamp, HashOf(state))));
    var made := NewSnapshot(tag, origin, state, stamp);
    if made.Err? {
      return Err(OfSnapshot(made.error));
    }
    var s := made.value;
    PanesOfWellFormed(s.state);
    var committed := store.Commit(s, true, if s.tag.Some? then Never else OnUnchangedStructure);
    CommittingUpholds(store.trace, from, before, s, store.compression, true);
    CommittedOrderly(before, s, store.compression);
    if committed.Err? {
      return Err(OfStore(committed.error));
    }
    return Ok(committed.value);
  }

  /** A changed structure, or a changed server, becomes current, and the sidecar is brought along. */
  method SaveChanged(store: SnapshotStore, config: SaveConfig, origin: Origin, state: State, stamp: int, clock: Clock)
    returns (r: Result<SaveOutcome, SaveError>, lost: bool)
    requires store.Valid()
    modifies store
    ensures store.Proceeds(config.retention)
    ensures r == Ok(Saved) ==> Stamped(stamp, HashOf(state)) in store.written
    ensures store.Valid() && old(store.trace) <= store.trace
    ensures Upheld(old(store.disk), store.trace, |old(store.trace)|,
                   origin.socket.Some? && Unused(old(store.disk), Stamped(stamp, HashOf(state))))
    ensures r != Ok(ProtectedBootstrap)
    ensures r.Ok? ==> CurrentSays(store.disk, origin, StructuralView(state))
    ensures r.Ok? && config.processes && !lost ==>
              UpToDate(store.disk, Current(store.disk).value.id, state, config.interval, clock)
    ensures r == Ok(Saved) && config.processes && !lost ==> Runs(store.disk, state)
    ensures r.Ok? && !config.processes ==> store.disk.sidecar == old(store.disk).sidecar
    ensures r == Ok(AlreadySaved) ==>
              && Current(store.disk) == old(Current(store.disk)) && Current(store.disk).Some?
              && store.disk == old(store.disk).(sidecar := store.disk.sidecar)
              && (store.faults == old(store.faults)
                  && Fresh(old(store.disk), Current(store.disk).value.id, config.interval, clock.looked)
                  ==> store.disk == old(store.disk))
    ensures r == Ok(Saved) ==>
              && Current(store.disk) == Some(Taken(None, origin, state, stamp))
              && Pruned(Committed(old(store.disk), Taken(None, origin, state, stamp), store.compression),
                        config.retention, clock.pruned, store.faults == old(store.faults), store.disk)
    ensures store.faults >= old(store.faults) && (lost ==> store.faults > old(store.faults))
    ensures store.faults == old(store.faults) && WellFormed(state) && NoTwins(old(store.disk))
            && Unused(old(store.disk), Stamped(stamp, HashOf(state)))
            ==> r.Ok?
    ensures r.Ok? && store.faults == old(store.faults)
            ==> (r == Ok(AlreadySaved) <==> CurrentSays(old(store.disk), origin, StructuralView(state)))
  {
    hide Retains, StructuralView, Current, Eligible, WellFormed, ValidCheckpoint, Upheld, Unused, NoTwins, Distinct,
         Pruned, UpToDate, Runs, Fresh;
    lost := false;
    ghost var before, from, given := store.disk, |store.trace|,
      origin.socket.Some? && Unused(store.disk, Stamped(stamp, HashOf(state)));
    var established := Establish(store, None, origin, state, stamp);
    UpheldLess(before, store.trace, from, Unused(before, Stamped(stamp, HashOf(state))), given);
    if established.Err? {
      return Err(established.error), lost;
    }
    ghost var s := Taken(None, origin, state, stamp);
    ghost var trace1, disk1, faults1 := store.trace, store.disk, store.faults;
    assert LastOr(trace1, from, before) == disk1;
    var after;
    if established.value == Written {
      after := AfterWritten(store, config, Taken(None, origin, state, stamp), clock);
      if after.Ok? {
        PrunedApart(disk1, config.retention, clock.pruned, store.faults == faults1, store.disk, disk1,
                    store.faults == old(store.faults), store.disk);
      }
    } else {
      after := AfterUnchanged(store, config, Taken(None, origin, state, stamp), clock);
    }
    UpheldLess(disk1, store.trace, |trace1|, origin.socket.Some?, given);
    UpheldChain(before, trace1, store.trace, from, given);
    if after.Err? {
      return Err(after.error), lost;
    }
    lost := after.value;
    return Ok(if established.value == Written then Saved else AlreadySaved), lost;
  }

  // ----- The daemon -----

  /** What an autosave takes the state of. */
  function Chosen(config: SaveConfig, captured: Captured, withProcesses: State): State {
    if config.processes then withProcesses else captured.state
  }

  predicate IsProtected(d: Disk, captured: Captured, protectedId: Option<Id>) {
    captured.bootstrap && protectedId.Some? && CurrentId(d) == protectedId
  }

  /** The current snapshot can be compared with what was captured, and it says the same. */
  ghost predicate SaysSame(d: Disk, captured: Captured) {
    CurrentSays(d, captured.origin, StructuralView(captured.state))
  }

  /** Nothing but the sidecar is different. */
  ghost predicate SameButSidecar(before: Disk, after: Disk) {
    after == before.(sidecar := after.sidecar) && Current(after) == Current(before)
  }

  /** What one autosave answers, when it answers, and what is on disk then. The prune saw every readable file if
      nothing failed. */
  ghost predicate Answered(before: Disk, after: Disk, config: SaveConfig, captured: Captured, state: State,
                           protectedId: Option<Id>, stamp: int, compressed: bool, clock: Clock, smooth: bool,
                           lost: bool, outcome: SaveOutcome)
  {
    match outcome
    case ProtectedBootstrap => IsProtected(before, captured, protectedId) && SameButSidecar(before, after)
    case AlreadySaved =>
      && SaysSame(after, captured) && SameButSidecar(before, after)
      && (config.processes && !lost ==> UpToDate(after, Current(after).value.id, state, config.interval, clock))
      && (config.processes && smooth && Fresh(before, Current(after).value.id, config.interval, clock.looked)
          ==> after == before)
    case Saved =>
      var s := Taken(None, captured.origin, state, stamp);
      && SaysSame(after, captured) && Current(after) == Some(s)
      && Pruned(Committed(before, s, compressed), config.retention, clock.pruned, smooth, after)
      && (config.processes && !lost ==> UpToDate(after, s.id, state, config.interval, clock) && Runs(after, state))
  }

  lemma NothingIsAnswer(d: Disk, config: SaveConfig, captured: Captured, state: State, protectedId: Option<Id>,
                        stamp: int, compressed: bool, clock: Clock, smooth: bool)
    ensures IsProtected(d, captured, protectedId) ==>
              Answered(d, d, config, captured, state, protectedId, stamp, compressed, clock, smooth, false,
                       ProtectedBootstrap)
    ensures SaysSame(d, captured) && !config.processes ==>
              Answered(d, d, config, captured, state, protectedId, stamp, compressed, clock, smooth, false,
                AlreadySaved)
  {
    hide Current, StructuralView;
  }

  lemma ChangeIsAnswer(before: Disk, after: Disk, config: SaveConfig, captured: Captured, state: State,
                       protectedId: Option<Id>, stamp: int, compressed: bool, clock: Clock, smooth: bool,
                       smooth': bool, lost: bool, outcome: SaveOutcome)
    requires outcome != ProtectedBootstrap && SaysSame(after, captured) && (smooth' ==> smooth)
    requires config.processes && !lost ==>
               UpToDate(after, Current(after).value.id, state, config.interval, clock)
               && (outcome == Saved ==> Runs(after, state))
    requires outcome == AlreadySaved ==> SameButSidecar(before, after)
    requires outcome == AlreadySaved && config.processes && smooth
             && Fresh(before, Current(after).value.id, config.interval, clock.looked)
             ==> after == before
    requires var s := Taken(None, captured.origin, state, stamp);
             outcome == Saved ==>
               Current(after) == Some(s)
               && Pruned(Committed(before, s, compressed), config.retention, clock.pruned, smooth, after)
    ensures Answered(before, after, config, captured, state, protectedId, stamp, compressed, clock, smooth', lost,
              outcome)
  {
    hide Current, StructuralView, Pruned, UpToDate, Runs, Fresh;
    if outcome == Saved {
      var written := Committed(before, Taken(None, captured.origin, state, stamp), compressed);
      PrunedApart(written, config.retention, clock.pruned, smooth, after, written, smooth', after);
    }
  }

  /** Whether a sidecar was in the way beforehand makes no difference. */
  lemma AnsweredApart(before: Disk, before': Disk, after: Disk, config: SaveConfig, captured: Captured, state: State,
                      protectedId: Option<Id>, stamp: int, compressed: bool, clock: Clock, smooth: bool, smooth': bool,
                      lost: bool, outcome: SaveOutcome)
    requires Answered(before, after, config, captured, state, protectedId, stamp, compressed, clock, smooth, lost,
               outcome)
    requires before' == before.(sidecar := before'.sidecar) && (smooth' ==> smooth)
    requires config.processes ==> before' == before
    ensures Answered(before', after, config, captured, state, protectedId, stamp, compressed, clock, smooth', lost,
              outcome)
  {
    hide Current, Pruned, Describes, Runs, UpToDate, Fresh, StructuralView;
    SidecarElsewhere(before, before'.sidecar);
    if outcome == Saved {
      var s := Taken(None, captured.origin, state, stamp);
      PrunedApart(Committed(before, s, compressed), config.retention, clock.pruned, smooth, after,
                  Committed(before', s, compressed), smooth', after);
    }
  }

  /** Which answer it is, when no read or write fails. */
  ghost predicate Expected(before: Disk, captured: Captured, protectedId: Option<Id>, outcome: SaveOutcome) {
    && (outcome == ProtectedBootstrap <==> IsProtected(before, captured, protectedId))
    && (outcome == AlreadySaved <==> !IsProtected(before, captured, protectedId) && SaysSame(before, captured))
  }

  /** A state and a store that an autosave cannot trip over. */
  ghost predicate Smooth(d: Disk, state: State, id: Id) {
    WellFormed(state) && NoTwins(d) && PointerOf(d).Ok? && Unused(d, id)
  }

  /** A freshly started server must not take the place of the snapshot it may be restored from. */
  method Protects(store: SnapshotStore, captured: Captured, protectedId: Option<Id>)
    returns (r: Result<bool, SaveError>)
    modifies store`faults
    ensures store.faults >= old(store.faults)
    ensures r.Ok? ==> (r.value <==> IsProtected(store.disk, captured, protectedId))
    ensures r.Err? ==> store.faults > old(store.faults) || PointerOf(store.disk).Err?
  {
    if captured.bootstrap && protectedId.Some? {
      var pointer := store.ReadPointer();
      if pointer.Err? {
        return Err(OfStore(pointer.error));
      }
      return Ok(pointer.value.Some? && Some(pointer.value.value.id) == protectedId);
    }
    return Ok(false);
  }

  /** The autosave, once a sidecar that is switched off is out of the way. */
  method SaveOnto(store: SnapshotStore, config: SaveConfig, protectedId: Option<Id>, captured: Captured,
                  withProcesses: State, stamp: int, clock: Clock)
    returns (r: Result<SaveOutcome, SaveError>, lost: bool)
    requires store.Valid()
    requires StructuralView(captured.state) == StructuralView(withProcesses)
    modifies store
    ensures store.Proceeds(config.retention)
    ensures r == Ok(Saved) ==> Stamped(stamp, HashOf(Chosen(config, captured, withProcesses))) in store.written
    ensures var state := Chosen(config, captured, withProcesses);
            var id := Stamped(stamp, HashOf(state));
            && store.Valid() && old(store.trace) <= store.trace && store.faults >= old(store.faults)
            && Upheld(old(store.disk), store.trace, |old(store.trace)|,
                      captured.origin.socket.Some? && Unused(old(store.disk), id))
            && (r.Ok? ==>
                  Answered(old(store.disk), store.disk, config, captured, state, protectedId, stamp, store.compression,
                           clock, store.faults == old(store.faults), lost, r.value))
            && (r.Ok? && store.faults == old(store.faults) ==>
                  Expected(old(store.disk), captured, protectedId, r.value))
            && (store.faults == old(store.faults) && Smooth(old(store.disk), state, id) ==> r.Ok?)
            && (lost ==> store.faults > old(store.faults))
    ensures r.Ok? && !config.processes ==> store.disk.sidecar == old(store.disk).sidecar
  {
    hide Retains, StructuralView, Current, Eligible, ValidSnapshot, ValidCheckpoint, Upheld, Unused, WellFormed,
         NoTwins, Distinct, Pruned, UpToDate, Runs, Describes, Fresh, Answered;
    lost := false;
    ghost var given := captured.origin.socket.Some?
                       && Unused(store.disk, Stamped(stamp, HashOf(Chosen(config, captured, withProcesses))));
    NothingNew(store.disk, store.trace);
    UpheldLess(store.disk, store.trace, |store.trace|, true, given);
    var protects := Protects(store, captured, protectedId);
    if protects.Err? {
      return Err(protects.error), lost;
    }
    if protects.value {
      NothingIsAnswer(store.disk, config, captured, Chosen(config, captured, withProcesses), protectedId, stamp,
                      store.compression, clock, store.faults == old(store.faults));
      return Ok(ProtectedBootstrap), lost;
    }
    var structure := StructuralView(captured.state);
    var base := store.CurrentIdIfStructureMatches(captured.origin, structure);
    if base.Some? {
      if !config.processes {
        NothingIsAnswer(store.disk, config, captured, captured.state, protectedId, stamp, store.compression, clock,
                        store.faults == old(store.faults));
        return Ok(AlreadySaved), lost;
      }
      var kept := KeepUp(store, config, base.value, captured.origin, withProcesses, clock);
      UpheldLess(old(store.disk), store.trace, |old(store.trace)|, captured.origin.socket.Some?, given);
      if kept.Fail? {
        if WellFormed(withProcesses) {
          PanesOfWellFormed(withProcesses);
        }
        return Err(kept.error), lost;
      }
      ChangeIsAnswer(old(store.disk), store.disk, config, captured, withProcesses, protectedId, stamp,
                     store.compression, clock, store.faults == old(store.faults), store.faults == old(store.faults),
                     lost, AlreadySaved);
      return Ok(AlreadySaved), lost;
    }
    var state := if config.processes then withProcesses else captured.state;
    ghost var faults1 := store.faults;
    r, lost := SaveChanged(store, config, captured.origin, state, stamp, clock);
    if r.Ok? {
      ChangeIsAnswer(old(store.disk), store.disk, config, captured, state, protectedId, stamp, store.compression, clock,
                     store.faults == faults1, store.faults == old(store.faults), lost, r.value);
    }
  }

  /** One autosave under the lock. `lost` tells that a sidecar could not be written and only a warning
      was given. */
  method SaveCaptured(store: SnapshotStore, config: SaveConfig, protectedId: Option<Id>, captured: Captured,
                      withProcesses: State, stamp: int, clock: Clock)
    returns (r: Result<SaveOutcome, SaveError>, lost: bool)
    requires store.Valid()
    requires OnlyProcessesDiffer(captured.state, withProcesses)
    modifies store
    ensures store.Proceeds(config.retention)
    ensures r == Ok(Saved) ==> Stamped(stamp, HashOf(Chosen(config, captured, withProcesses))) in store.written
    ensures var state := Chosen(config, captured, withProcesses);
            var id := Stamped(stamp, HashOf(state));
            && store.Valid() && old(store.trace) <= store.trace
            && Upheld(old(store.disk), store.trace, |old(store.trace)|,
                      captured.origin.socket.Some? && Unused(old(store.disk), id))
            && (r.Ok? ==>
                  Answered(old(store.disk), store.disk, config, captured, state, protectedId, stamp, store.compression,
                           clock, store.faults == old(store.faults), lost, r.value))
            && (r.Ok? && store.faults == old(store.faults) ==>
                  Expected(old(store.disk), captured, protectedId, r.value))
            && (store.faults == old(store.faults) && Smooth(old(store.disk), state, id) ==> r.Ok?)
            && (lost ==> store.faults > old(store.faults))
            && (r.Ok? && !config.processes && store.faults == old(store.faults) ==> store.disk.sidecar.None?)
  {
    hide Retains, StructuralView, Current, Eligible, ValidSnapshot, ValidCheckpoint, OnlyProcessesDiffer, Upheld,
         Unused, WellFormed, NoTwins, Answered;
    ghost var id := Stamped(stamp, HashOf(Chosen(config, captured, withProcesses)));
    ghost var before, from, given := store.disk, |store.trace|, captured.origin.socket.Some? && Unused(store.disk, id);
    ProcessesAreNotStructure(captured.state, withProcesses);
    NothingNew(before, store.trace);
    if !config.processes {
      var removed := store.RemoveCheckpoint();
      RemovedUpholds(store.trace, from, before, store.disk, id);
    }
    ghost var trace0, disk0 := store.trace, store.disk;
    assert LastOr(trace0, from, before) == disk0;
    UpheldLess(before, trace0, from, true, given);
    ghost var faults0 := store.faults;
    r, lost := SaveOnto(store, config, protectedId, captured, withProcesses, stamp, clock);
    if r.Ok? {
      AnsweredApart(disk0, before, store.disk, config, captured, Chosen(config, captured, withProcesses), protectedId,
                    stamp, store.compression, clock, store.faults == faults0, store.faults == old(store.faults), lost,
                    r.value);
    }
    UpheldLess(disk0, store.trace, |trace0|, captured.origin.socket.Some? && Unused(disk0, id), given);
    UpheldChain(before, trace0, store.trace, from, given);
  }

  // ----- The command line -----

  /** What the command-line save was asked for; `startsWith` is how a full id is found among the files. */
  datatype SaveRequest = SaveRequest(
    ifEmpty: bool, tag: Option<string>, pin: bool, key: string, startsWith: (Id, FileName) -> bool)

  datatype CliOutcome = AlreadyInitialized | Done(outcome: CommitOutcome)

  /** A capture that the sidecar of a command-line save can be checked against. */
  predicate Identified(request: SaveRequest, origin: Origin) {
    origin.socket.Some? && origin.socket.value.key == request.key
  }

  /** No file name but those of an id begins with that id. */
  ghost predicate ExactNames(request: SaveRequest) {
    forall id, f :: request.startsWith(id, f) <==> f.id == id
  }

  /** The name of a file begins with its own id. */
  ghost predicate OwnNames(request: SaveRequest) {
    forall id, compressed :: request.startsWith(id, FileName(id, compressed))
  }

  lemma ExactAreOwn(request: SaveRequest)
    requires ExactNames(request)
    ensures OwnNames(request)
  {
    forall id, compressed ensures request.startsWith(id, FileName(id, compressed)) {
      assert FileName(id, compressed).id == id;
    }
  }

  method ByFullId(request: SaveRequest, id: Id) returns (q: Query)
    ensures q.Prefix? && forall f :: q.matches(f) == request.startsWith(id, f)
  {
    q := Prefix(f => request.startsWith(id, f));
  }

  /** Nothing else is called like the current snapshot. */
  lemma CurrentIsFound(d: Disk, request: SaveRequest, query: Query)
    requires Current(d).Some? && NoTwins(d) && ExactNames(request)
    requires query.Prefix? && forall f :: query.matches(f) == request.startsWith(Current(d).value.id, f)
    ensures exists f :: Finds(d, query, f)
  {
    hide ValidSnapshot;
    var file := d.pointer.value.file.value;
    forall g | g in d.bodies && query.matches(g) ensures g == file {
      assert g.id == file.id;
      assert !(FileName(g.id, false) in d.bodies && FileName(g.id, true) in d.bodies);
    }
    assert Finds(d, query, file);
  }

  /** Pins the current snapshot by its full id. */
  method PinCurrent(store: SnapshotStore, request: SaveRequest, id: Id) returns (r: Outcome<SaveError>)
    requires store.Valid() && Current(store.disk).Some? && Current(store.disk).value.id == id
    modifies store
    ensures store.Rests()
    ensures store.Valid() && old(store.trace) <= store.trace && Current(store.disk) == old(Current(store.disk))
    ensures Upheld(old(store.disk), store.trace, |old(store.trace)|, true)
    ensures store.disk == old(store.disk).(pins := store.disk.pins)
    ensures r.Pass? && OwnNames(request) ==> store.disk == WithPin(old(store.disk), true, id)
    ensures store.faults >= old(store.faults)
    ensures store.faults == old(store.faults) && NoTwins(old(store.disk)) && ExactNames(request) ==> r.Pass?
  {
    hide Retains, Current, Upheld, SteadySince, NoTwins, ExactNames, OwnNames, Finds, Stored;
    ghost var from, before := |store.trace|, store.disk;
    var query := ByFullId(request, id);
    if NoTwins(before) && ExactNames(request) {
      CurrentIsFound(before, request, query);
    }
    var pinned := store.Pin(query);
    SteadyUpholds(store.trace, from, before, true);
    if pinned.Err? {
      return Fail(OfStore(pinned.error));
    }
    if OwnNames(request) {
      CurrentIsStored(before);
      FoundAsAsked(before, query, pinned.value, request, id);
    }
    return Pass;
  }

  function WithPin(d: Disk, pin: bool, id: Id): Disk {
    if pin then d.(pins := d.pins + {id}) else d
  }

  lemma CurrentIsStored(d: Disk)
    requires Current(d).Some?
    ensures Stored(d, Current(d).value.id)
  {
    LoadedIsStored(d, Current(d).value);
  }

  /** After the commit of a command-line save: the pin, the prune, and the id the sidecar is for. */
  method AfterCommit(store: SnapshotStore, config: SaveConfig, request: SaveRequest, s: Snapshot,
                     outcome: CommitOutcome, clock: Clock)
    returns (r: Result<Option<Id>, SaveError>)
    requires store.Valid() && Current(store.disk).Some?
    requires outcome == Written ==> Current(store.disk) == Some(s)
    modifies store
    ensures store.Proceeds(config.retention)
    ensures store.Valid() && old(store.trace) <= store.trace && Current(store.disk) == old(Current(store.disk))
    ensures Upheld(old(store.disk), store.trace, |old(store.trace)|, true)
    ensures r.Ok? ==> r.value == Some(Current(store.disk).value.id)
    ensures r.Ok? && OwnNames(request) ==>
              var pinned := WithPin(old(store.disk), request.pin, Current(store.disk).value.id);
              if outcome == Unchanged then store.disk == pinned
              else Pruned(pinned, config.retention, clock.pruned, store.faults == old(store.faults), store.disk)
    ensures store.disk.sidecar == old(store.disk).sidecar
    ensures store.faults >= old(store.faults)
    ensures store.faults == old(store.faults) && NoTwins(old(store.disk)) && PointerOf(old(store.disk)).Ok?
              && ExactNames(request)
            ==> r.Ok?
  {
    hide Retains, Current, ValidSnapshot, Upheld, SteadySince, Keep, Expired, NoTwins, ExactNames, OwnNames;
    ghost var from, before := |store.trace|, store.disk;
    NothingNew(before, store.trace);
    var base: Option<Id> := Some(s.id);
    if outcome == Unchanged {
      var pointer := store.ReadPointer();
      if pointer.Err? {
        return Err(OfStore(pointer.error));
      }
      base := if pointer.value.Some? then Some(pointer.value.value.id) else None;
    }
    if request.pin {
      if base.None? {
        return Err(OfStore(NoCurrent));
      }
      var pinned := PinCurrent(store, request, base.value);
      if pinned.Fail? {
        return Err(pinned.error);
      }
    }
    if outcome == Written {
      ghost var trace1, disk1, faults1 := store.trace, store.disk, store.faults;
      SameBodies(before, disk1);
      var pruned, listing := store.Prune(config.retention, clock.pruned);
      OneFileEach(disk1, config.retention, clock.pruned, listing);
      SteadyUpholds(store.trace, |trace1|, disk1, true);
      assert LastOr(trace1, from, before) == disk1;
      UpheldChain(before, trace1, store.trace, from, true);
      if pruned.Err? {
        return Err(OfStore(pruned.error));
      }
      PrunedApart(disk1, config.retention, clock.pruned, store.faults == faults1, store.disk, disk1,
                  store.faults == old(store.faults), store.disk);
    }
    return Ok(base);
  }

  /** What a full id finds is what has that id. */
  lemma FoundAsAsked(d: Disk, query: Query, found: Id, request: SaveRequest, id: Id)
    requires query.Prefix? && forall f :: query.matches(f) == request.startsWith(id, f)
    requires OwnNames(request) && Stored(d, id) && exists f :: Finds(d, query, f) && f.id == found
    ensures found == id
  {
    hide ValidSnapshot;
    var f :| Finds(d, query, f) && f.id == found;
    var own :| own in d.bodies && BodyAt(d, own).Some? && BodyAt(d, own).value.id == id;
    assert request.startsWith(id, FileName(own.id, own.compressed));
  }

  lemma SameBodies(before: Disk, d: Disk)
    requires d.bodies == before.bodies && d.pointer == before.pointer
    ensures NoTwins(before) ==> NoTwins(d)
    ensures PointerOf(before) == PointerOf(d)
  {
  }

  /** What is on disk after a command-line save, but for the sidecar: after a commit, a pin if one was asked for
      and a prune, or after a pin alone. */
  ghost predicate Filed(before: Disk, after: Disk, config: SaveConfig, request: SaveRequest, s: Snapshot,
                        compressed: bool, clock: Clock, smooth: bool, outcome: CommitOutcome)
  {
    match outcome
    case Written =>
      && Current(after) == Some(s)
      && Pruned(WithPin(Committed(before, s, compressed), request.pin, s.id), config.retention, clock.pruned, smooth,
                after)
    case Unchanged =>
      && Current(after) == Current(before) && Current(after).Some?
      && after == WithPin(before, request.pin, Current(after).value.id).(sidecar := after.sidecar)
  }

  lemma FiledApart(before: Disk, before': Disk, after: Disk, after': Disk, config: SaveConfig, request: SaveRequest,
                   s: Snapshot, compressed: bool, clock: Clock, smooth: bool, smooth': bool, outcome: CommitOutcome)
    requires Filed(before, after, config, request, s, compressed, clock, smooth, outcome) && (smooth' ==> smooth)
    requires before' == before.(sidecar := before'.sidecar) && after' == after.(sidecar := after'.sidecar)
    ensures Filed(before', after', config, request, s, compressed, clock, smooth', outcome)
  {
    hide Current, Pruned;
    SidecarElsewhere(before, before'.sidecar);
    SidecarElsewhere(after, after'.sidecar);
    if outcome == Written {
      PrunedApart(WithPin(Committed(before, s, compressed), request.pin, s.id), config.retention, clock.pruned, smooth,
                  after, WithPin(Committed(before', s, compressed), request.pin, s.id), smooth', after');
    }
  }

  /** The command-line save, under the lock. */
  method Save(store: SnapshotStore, config: SaveConfig, request: SaveRequest, origin: Origin, state: State, stamp: int,
              clock: Clock)
    returns (r: Result<CliOutcome, SaveError>)
    requires store.Valid()
    modifies store
    ensures store.Proceeds(config.retention)
    ensures r == Ok(Done(Written)) ==> Stamped(stamp, HashOf(state)) in store.written
    ensures store.Valid() && old(store.trace) <= store.trace
    ensures Upheld(old(store.disk), store.trace, |old(store.trace)|,
                   Identified(request, origin) && Unused(old(store.disk), Stamped(stamp, HashOf(state))))
    ensures r == Ok(AlreadyInitialized) ==> request.ifEmpty && Current(store.disk) == old(Current(store.disk))
                                            && (old(store.disk.pointer).Some? || old(store.disk.bodies).Keys != {})
    ensures r.Ok? && request.ifEmpty && (old(store.disk.pointer).Some? || old(store.disk.bodies).Keys != {})
            ==> r == Ok(AlreadyInitialized)
    ensures r.Ok? && r.value.Done? ==> CurrentSays(store.disk, origin, StructuralView(state))
    ensures r.Ok? && r.value.Done? && config.processes ==>
              Describes(store.disk, Current(store.disk).value.id) && Runs(store.disk, state)
    ensures r.Ok? && !config.processes ==> store.disk.sidecar.None?
    ensures r.Ok? && r.value.Done? && OwnNames(request) ==>
              Filed(old(store.disk), store.disk, config, request, Taken(request.tag, origin, state, stamp),
                    store.compression, clock, store.faults == old(store.faults), r.value.outcome)
    ensures r.Ok? && r.value.Done? && store.faults == old(store.faults) ==>
              Decided(old(store.disk), request.tag, origin, state, r.value.outcome)
    ensures store.faults == old(store.faults) && ExactNames(request)
            && Smooth(old(store.disk), state, Stamped(stamp, HashOf(state)))
            ==> r.Ok?
  {
    hide Retains, StructuralView, Current, Eligible, WellFormed, ValidCheckpoint, Committing, Upheld, Unused,
         ExactNames, OwnNames, NoTwins, Filed, Runs, Describes;
    ghost var id := Stamped(stamp, HashOf(state));
    ghost var before, from, given := store.disk, |store.trace|, Identified(request, origin) && Unused(store.disk, id);
    NothingNew(before, store.trace);
    if !config.processes {
      var removed := store.RemoveCheckpoint();
      RemovedUpholds(store.trace, from, before, store.disk, id);
      if removed.Err? {
        UpheldLess(before, store.trace, from, true, given);
        return Err(OfStore(removed.error));
      }
    }
    ghost var trace0, disk0 := store.trace, store.disk;
    UpheldLess(before, trace0, from, true, given);
    if request.ifEmpty {
      var empty := store.IsEmpty();
      if empty.Err? {
        return Err(OfStore(empty.error));
      }
      if !empty.value {
        return Ok(AlreadyInitialized);
      }
    }
    ghost var faults0 := store.faults;
    SidecarElsewhere(before, disk0.sidecar);
    r := Publish(store, config, request, origin, state, stamp, clock);
    if r.Ok? && OwnNames(request) {
      FiledApart(disk0, before, store.disk, store.disk, config, request, Taken(request.tag, origin, state, stamp),
                 store.compression, clock, store.faults == faults0, store.faults == old(store.faults), r.value.outcome);
    }
    UpheldLess(disk0, store.trace, |trace0|, Identified(request, origin) && Unused(disk0, id), given);
    assert LastOr(trace0, from, before) == disk0;
    UpheldChain(before, trace0, store.trace, from, given);
  }

  /** The rest of a command-line save, once it is decided that there is one. */
  method Publish(store: SnapshotStore, config: SaveConfig, request: SaveRequest, origin: Origin, state: State,
                 stamp: int, clock: Clock)
    returns (r: Result<CliOutcome, SaveError>)
    requires store.Valid()
    modifies store
    ensures store.Proceeds(config.retention)
    ensures r == Ok(Done(Written)) ==> Stamped(stamp, HashOf(state)) in store.written
    ensures store.Valid() && old(store.trace) <= store.trace
    ensures Upheld(old(store.disk), store.trace, |old(store.trace)|,
                   Identified(request, origin) && Unused(old(store.disk), Stamped(stamp, HashOf(state))))
    ensures r.Ok? ==> r.value.Done? && CurrentSays(store.disk, origin, StructuralView(state))
    ensures r.Ok? && config.processes ==>
              Describes(store.disk, Current(store.disk).value.id) && Runs(store.disk, state)
    ensures r.Ok? && !config.processes ==> store.disk.sidecar == old(store.disk).sidecar
    ensures r.Ok? && OwnNames(request) ==>
              Filed(old(store.disk), store.disk, config, request, Taken(request.tag, origin, state, stamp),
                    store.compression, clock, store.faults == old(store.faults), r.value.outcome)
    ensures r.Ok? && store.faults == old(store.faults) ==>
              Decided(old(store.disk), request.tag, origin, state, r.value.outcome)
    ensures store.faults >= old(store.faults)
    ensures store.faults == old(store.faults) && ExactNames(request)
            && Smooth(old(store.disk), state, Stamped(stamp, HashOf(state)))
            ==> r.Ok?
  {
    hide Retains, StructuralView, Current, Eligible, WellFormed, ValidCheckpoint, Upheld, Unused, ExactNames, OwnNames,
         NoTwins, Distinct, Pruned, Runs, Describes, Filed, PinnedAndPruned, Decided;
    ghost var before, from, given := store.disk, |store.trace|,
      Identified(request, origin) && Unused(store.disk, Stamped(stamp, HashOf(state)));
    var established := Establish(store, request.tag, origin, state, stamp);
    UpheldLess(before, store.trace, from, Unused(before, Stamped(stamp, HashOf(state))), given);
    if established.Err? {
      return Err(established.error);
    }
    var s := Taken(request.tag, origin, state, stamp);
    ghost var trace1, disk1, faults1 := store.trace, store.disk, store.faults;
    assert LastOr(trace1, from, before) == disk1;
    r := Complete(store, config, request, s, established.value, clock);
    if r.Ok? && OwnNames(request) {
      PrunedAnyhow(disk1, store.disk, config, request, Current(store.disk).value.id, clock, store.faults == faults1,
                   store.faults == old(store.faults), established.value);
      FiledFrom(before, disk1, store.disk, config, request, s, store.compression, clock,
                store.faults == old(store.faults), established.value);
    }
    UpheldLess(disk1, store.trace, |trace1|, Identified(request, origin), given);
    UpheldChain(before, trace1, store.trace, from, given);
  }

  /** The pin if one was asked for, and the prune that follows a commit. */
  ghost predicate PinnedAndPruned(before: Disk, after: Disk, config: SaveConfig, request: SaveRequest, id: Id,
                                  clock: Clock, smooth: bool, outcome: CommitOutcome)
  {
    var pinned := WithPin(before, request.pin, id);
    if outcome == Unchanged then after == pinned.(sidecar := after.sidecar)
    else Pruned(pinned, config.retention, clock.pruned, smooth, after)
  }

  lemma PrunedAnyhow(before: Disk, after: Disk, config: SaveConfig, request: SaveRequest, id: Id, clock: Clock,
                     smooth: bool, smooth': bool, outcome: CommitOutcome)
    requires PinnedAndPruned(before, after, config, request, id, clock, smooth, outcome) && (smooth' ==> smooth)
    ensures PinnedAndPruned(before, after, config, request, id, clock, smooth', outcome)
  {
    hide Pruned;
    if outcome == Written {
      var pinned := WithPin(before, request.pin, id);
      PrunedApart(pinned, config.retention, clock.pruned, smooth, after, pinned, smooth', after);
    }
  }

  lemma FiledFrom(before: Disk, committed: Disk, after: Disk, config: SaveConfig, request: SaveRequest, s: Snapshot,
                  compressed: bool, clock: Clock, smooth: bool, outcome: CommitOutcome)
    requires committed == if outcome == Written then Committed(before, s, compressed) else before
    requires Current(after).Some? && Current(after) == Current(committed)
    requires outcome == Written ==> Current(committed) == Some(s)
    requires PinnedAndPruned(committed, after, config, request, Current(after).value.id, clock, smooth, outcome)
    ensures Filed(before, after, config, request, s, compressed, clock, smooth, outcome)
  {
    hide Current, Pruned;
  }

  /** What follows the commit: pin, prune, sidecar. */
  method Complete(store: SnapshotStore, config: SaveConfig, request: SaveRequest, s: Snapshot, outcome: CommitOutcome,
                  clock: Clock)
    returns (r: Result<CliOutcome, SaveError>)
    requires store.Valid() && CurrentSays(store.disk, s.origin, StructuralView(s.state))
    requires outcome == Written ==> Current(store.disk) == Some(s)
    modifies store
    ensures store.Proceeds(config.retention)
    ensures store.Valid() && old(store.trace) <= store.trace && Current(store.disk) == old(Current(store.disk))
    ensures Upheld(old(store.disk), store.trace, |old(store.trace)|, Identified(request, s.origin))
    ensures r.Ok? ==> r.value == Done(outcome)
    ensures r.Ok? && config.processes ==>
              Describes(store.disk, Current(store.disk).value.id) && Runs(store.disk, s.state)
    ensures r.Ok? && !config.processes ==> store.disk.sidecar == old(store.disk).sidecar
    ensures r.Ok? && OwnNames(request) ==>
              PinnedAndPruned(old(store.disk), store.disk, config, request, Current(store.disk).value.id, clock,
                              store.faults == old(store.faults), outcome)
    ensures store.faults >= old(store.faults)
    ensures store.faults == old(store.faults) && NoTwins(old(store.disk)) && PointerOf(old(store.disk)).Ok?
            && ExactNames(request) && Distinct(PaneIds(AllPanes(s.state.windows)))
            ==> r.Ok?
  {
    hide Retains, StructuralView, Current, Eligible, ValidSnapshot, ValidCheckpoint, Upheld, NoTwins, ExactNames,
         OwnNames, Distinct, Pruned, Runs, Describes;
    ghost var before, from, given := store.disk, |store.trace|, Identified(request, s.origin);
    var base := AfterCommit(store, config, request, s, outcome, clock);
    UpheldLess(before, store.trace, from, true, given);
    if base.Err? {
      return Err(base.error);
    }
    if config.processes {
      if base.value.None? {
        return Ok(Done(outcome));
      }
      ghost var trace2, disk2, faults2 := store.trace, store.disk, store.faults;
      var origin := CheckpointOrigin(request.key, s.origin.serverStartedAt);
      var written := Accompany(store, base.value.value, s, origin, clock.captured);
      if OwnNames(request) && outcome == Written {
        var pinned := WithPin(before, request.pin, Current(store.disk).value.id);
        PrunedApart(pinned, config.retention, clock.pruned, faults2 == old(store.faults), disk2, pinned,
                    store.faults == old(store.faults), store.disk);
      }
      UpheldLess(disk2, store.trace, |trace2|, s.origin.socket.Some? && origin == OriginOfCheckpoint(s.origin), given);
      assert LastOr(trace2, from, before) == disk2;
      UpheldChain(before, trace2, store.trace, from, given);
      if written.Err? {
        return Err(written.error);
      }
      if !written.value {
        return Err(OfStore(Io));
      }
    }
    return Ok(Done(outcome));
  }

  // ----- The safety snapshot of a restore -----

  /** Some disk since then holds the snapshot and its mark. */
  ghost predicate MarkedSomewhere(trace: seq<Disk>, from: nat, id: Id) {
    exists k :: from <= k < |trace| && Marked(trace[k], id)
  }

  /** Marks the stored snapshot with this full id. */
  method MarkById(store: SnapshotStore, request: SaveRequest, id: Id) returns (r: Outcome<SaveError>)
    requires store.Valid()
    modifies store
    ensures store.Rests()
    ensures store.Valid() && old(store.trace) <= store.trace && store.faults >= old(store.faults)
    ensures Upheld(old(store.disk), store.trace, |old(store.trace)|, true)
    ensures store.disk == old(store.disk).(safety := store.disk.safety)
    ensures Current(store.disk) == old(Current(store.disk))
    ensures r.Pass? && OwnNames(request) && Stored(old(store.disk), id) ==>
              store.disk == WithMark(old(store.disk), id) && MarkedSomewhere(store.trace, |old(store.trace)|, id)
    ensures store.faults == old(store.faults) && NoTwins(old(store.disk)) && ExactNames(request)
            && Stored(old(store.disk), id)
            ==> r.Pass?
  {
    hide Retains, Current, Upheld, NoTwins, ExactNames, OwnNames, Stored, Finds, SteadySince, Marked;
    ghost var before, from := store.disk, |store.trace|;
    var query := ByFullId(request, id);
    if NoTwins(before) && ExactNames(request) && Stored(before, id) {
      StoredIsFound(before, request, query, id);
    }
    var marked := store.MarkSafety(query);
    SteadyUpholds(store.trace, from, before, true);
    if marked.Err? {
      return Fail(OfStore(marked.error));
    }
    if OwnNames(request) && Stored(before, id) {
      FoundAsAsked(before, query, marked.value, request, id);
      MarkedHere(before, id);
      assert Marked(store.trace[|store.trace| - 1], id);
    }
    return Pass;
  }

  method MarkAndPrune(store: SnapshotStore, config: SaveConfig, request: SaveRequest, id: Id, clock: Clock)
    returns (r: Outcome<SaveError>)
    requires store.Valid()
    modifies store
    ensures store.Proceeds(config.retention)
    ensures store.Valid() && old(store.trace) <= store.trace
    ensures Upheld(old(store.disk), store.trace, |old(store.trace)|, true)
    ensures store.disk.pointer == old(store.disk).pointer && Current(store.disk) == old(Current(store.disk))
    ensures store.disk.sidecar == old(store.disk).sidecar && store.faults >= old(store.faults)
    ensures r.Pass? && OwnNames(request) && Stored(old(store.disk), id) ==>
              && MarkedSomewhere(store.trace, |old(store.trace)|, id)
              && Pruned(WithMark(old(store.disk), id), config.retention, clock.pruned, store.faults
                   == old(store.faults),
                        store.disk)
    ensures store.faults == old(store.faults) && NoTwins(old(store.disk)) && PointerOf(old(store.disk)).Ok?
            && ExactNames(request) && Stored(old(store.disk), id)
            ==> r.Pass?
  {
    hide Retains, Current, Upheld, Keep, Expired, NoTwins, ExactNames, OwnNames, Stored, PointerOf, Pruned,
         MarkedSomewhere, SteadySince;
    ghost var before, from := store.disk, |store.trace|;
    r := MarkById(store, request, id);
    if r.Fail? {
      return;
    }
    ghost var trace1, disk1, faults1 := store.trace, store.disk, store.faults;
    assert LastOr(trace1, from, before) == disk1;
    SameBodies(before, disk1);
    var pruned, listing := store.Prune(config.retention, clock.pruned);
    OneFileEach(disk1, config.retention, clock.pruned, listing);
    SteadyUpholds(store.trace, |trace1|, disk1, true);
    SteadyPointer(store.trace, |trace1|, disk1, store.disk);
    UpheldChain(before, trace1, store.trace, from, true);
    MarkedStill(trace1, store.trace, from, id);
    if pruned.Err? {
      return Fail(OfStore(pruned.error));
    }
    PrunedApart(disk1, config.retention, clock.pruned, store.faults == faults1, store.disk, disk1,
                store.faults == old(store.faults), store.disk);
    return Pass;
  }

  lemma MarkedStill(trace: seq<Disk>, after: seq<Disk>, from: nat, id: Id)
    requires trace <= after
    ensures MarkedSomewhere(trace, from, id) ==> MarkedSomewhere(after, from, id)
  {
    hide Marked;
    if MarkedSomewhere(trace, from, id) {
      var k :| from <= k < |trace| && Marked(trace[k], id);
      assert Marked(after[k], id);
    }
  }

  lemma MarkedHere(d: Disk, id: Id)
    requires Stored(d, id)
    ensures Marked(WithMark(d, id), id)
  {
    hide ValidSnapshot;
    var file :| file in d.bodies && BodyAt(d, file).Some? && BodyAt(d, file).value.id == id;
    assert BodyAt(WithMark(d, id), file) == BodyAt(d, file);
  }

  /** Nothing else is called like a stored snapshot. */
  lemma StoredIsFound(d: Disk, request: SaveRequest, query: Query, id: Id)
    requires Stored(d, id) && NoTwins(d) && ExactNames(request)
    requires query.Prefix? && forall f :: query.matches(f) == request.startsWith(id, f)
    ensures exists f :: Finds(d, query, f)
  {
    hide ValidSnapshot;
    var file :| file in d.bodies && BodyAt(d, file).Some? && BodyAt(d, file).value.id == id;
    forall g | g in d.bodies && query.matches(g) ensures g == file {
      assert g.id == id && file.id == id;
      assert !(FileName(id, false) in d.bodies && FileName(id, true) in d.bodies);
    }
    assert Finds(d, query, file);
  }

  lemma SteadyPointer(trace: seq<Disk>, from: nat, before: Disk, d: Disk)
    requires SteadySince(trace, from, before) && d == LastOr(trace, from, before)
    ensures d.pointer == before.pointer && d.sidecar == before.sidecar && Current(d) == Current(before)
  {
    hide Current;
  }

  /** The body, its mark and a prune, without the pointer. */
  method PublishSafety(store: SnapshotStore, config: SaveConfig, request: SaveRequest, origin: Origin, state: State,
                       stamp: int, clock: Clock)
    returns (r: Result<Id, SaveError>)
    requires store.Valid()
    modifies store
    ensures store.Proceeds(config.retention)
    ensures r.Ok? ==> Stamped(stamp, HashOf(state)) in store.written
    ensures store.Valid() && old(store.trace) <= store.trace && store.faults >= old(store.faults)
    ensures Upheld(old(store.disk), store.trace, |old(store.trace)|,
              Unused(old(store.disk), Stamped(stamp, HashOf(state))))
    ensures store.disk.pointer == old(store.disk).pointer && (r.Ok? ==> r.value == Stamped(stamp, HashOf(state)))
    ensures Unused(old(store.disk), Stamped(stamp, HashOf(state))) ==> Current(store.disk) == old(Current(store.disk))
    ensures r.Ok? && OwnNames(request) ==>
              var s := Taken(request.tag, origin, state, stamp);
              && ValidSnapshot(s) && MarkedSomewhere(store.trace, |old(store.trace)|, s.id)
              && Pruned(WithMark(WithBody(old(store.disk), s, store.compression), s.id), config.retention, clock.pruned,
                        store.faults == old(store.faults), store.disk)
    ensures store.disk.sidecar == old(store.disk).sidecar
    ensures store.faults == old(store.faults) && ExactNames(request)
            && Smooth(old(store.disk), state, Stamped(stamp, HashOf(state)))
            ==> r.Ok?
  {
    hide Retains, StructuralView, Current, Eligible, WellFormed, ValidCheckpoint, Upheld, Unused, SteadySince, Keep,
         Expired, NoTwins, ExactNames, OwnNames, Stored, Marked, Pruned;
    ghost var before, from, given := store.disk, |store.trace|, Unused(store.disk, Stamped(stamp, HashOf(state)));
    NothingNew(before, store.trace);
    UpheldLess(before, store.trace, from, true, given);
    var made := NewSnapshot(request.tag, origin, state, stamp);
    if made.Err? {
      return Err(OfSnapshot(made.error));
    }
    var s := made.value;
    var committed := store.Commit(s, false, OnUnchangedStructure);
    CommittingUpholds(store.trace, from, before, s, store.compression, false);
    UpheldLess(before, store.trace, from, Unused(before, s.id), given);
    assert Committing(before, s, store.compression, false, store.disk);
    UnusedBody(before, s, store.compression, store.disk);
    BodyIsStored(before, s, store.compression);
    if committed.Err? {
      return Err(OfStore(committed.error));
    }
    ghost var trace1, disk1, faults1 := store.trace, store.disk, store.faults;
    assert LastOr(trace1, from, before) == disk1;
    assert committed.value == Written && disk1 == WithBody(before, s, store.compression);
    var done := MarkAndPrune(store, config, request, s.id, clock);
    UpheldLess(disk1, store.trace, |trace1|, true, given);
    UpheldChain(before, trace1, store.trace, from, given);
    if done.Fail? {
      return Err(done.error);
    }
    if OwnNames(request) {
      var marked := WithMark(disk1, s.id);
      PrunedApart(marked, config.retention, clock.pruned, store.faults == faults1, store.disk, marked,
                  store.faults == old(store.faults), store.disk);
    }
    return Ok(s.id);
  }

  /** What is written before a restore touches the server: it never becomes current. */
  method SafetySave(store: SnapshotStore, config: SaveConfig, request: SaveRequest, origin: Origin, state: State,
                    stamp: int, clock: Clock)
    returns (r: Result<Id, SaveError>)
    requires store.Valid()
    modifies store
    ensures store.Proceeds(config.retention)
    ensures r.Ok? ==> Stamped(stamp, HashOf(state)) in store.written
    ensures store.Valid() && old(store.trace) <= store.trace
    ensures Upheld(old(store.disk), store.trace, |old(store.trace)|,
              Unused(old(store.disk), Stamped(stamp, HashOf(state))))
    ensures store.disk.pointer == old(store.disk).pointer && (r.Ok? ==> r.value == Stamped(stamp, HashOf(state)))
    ensures Unused(old(store.disk), Stamped(stamp, HashOf(state))) ==> Current(store.disk) == old(Current(store.disk))
    ensures r.Ok? && OwnNames(request) ==>
              var s := Taken(request.tag, origin, state, stamp);
              && ValidSnapshot(s) && MarkedSomewhere(store.trace, |old(store.trace)|, s.id)
              && Pruned(WithMark(WithBody(old(store.disk), s, store.compression), s.id), config.retention, clock.pruned,
                        store.faults == old(store.faults), store.disk)
    ensures r.Ok? && !config.processes ==> store.disk.sidecar.None?
    ensures r.Ok? && config.processes ==> store.disk.sidecar == old(store.disk).sidecar
    ensures r.Ok? && OwnNames(request) && Unused(old(store.disk), r.value)
            && |MarkedSince(old(store.disk), stamp)| < config.retention.safetySnapshots
            ==> Marked(store.disk, r.value)
    ensures store.faults == old(store.faults) && ExactNames(request)
            && Smooth(old(store.disk), state, Stamped(stamp, HashOf(state)))
            ==> r.Ok?
  {
    hide Retains, StructuralView, Current, Eligible, WellFormed, ValidCheckpoint, Upheld, Unused, ExactNames, OwnNames,
         NoTwins, Marked, Pruned, MarkedSince;
    ghost var id := Stamped(stamp, HashOf(state));
    ghost var before, from, given := store.disk, |store.trace|, Unused(store.disk, id);
    NothingNew(before, store.trace);
    if !config.processes {
      var removed := store.RemoveCheckpoint();
      RemovedUpholds(store.trace, from, before, store.disk, id);
      if removed.Err? {
        UpheldLess(before, store.trace, from, true, given);
        return Err(OfStore(removed.error));
      }
    }
    ghost var trace0, disk0 := store.trace, store.disk;
    UpheldLess(before, trace0, from, true, given);
    assert LastOr(trace0, from, before) == disk0;
    ghost var faults0 := store.faults;
    r := PublishSafety(store, config, request, origin, state, stamp, clock);
    UpheldLess(disk0, store.trace, |trace0|, Unused(disk0, id), given);
    UpheldChain(before, trace0, store.trace, from, given);
    if r.Ok? && OwnNames(request) {
      var s, compressed := Taken(request.tag, origin, state, stamp), store.compression;
      var marked := WithMark(WithBody(before, s, compressed), s.id);
      PrunedApart(WithMark(WithBody(disk0, s, compressed), s.id), config.retention, clock.pruned,
                  store.faults == faults0, store.disk, marked, store.faults == old(store.faults), store.disk);
      if Unused(before, id) && |MarkedSince(before, stamp)| < config.retention.safetySnapshots {
        NewMarkSurvives(before, s, compressed, config.retention, clock.pruned, store.faults == old(store.faults),
                        store.disk);
      }
    }
  }

  lemma BodyIsStored(d: Disk, s: Snapshot, compressed: bool)
    requires ValidSnapshot(s)
    ensures Stored(WithBody(d, s, compressed), s.id)
    ensures NoTwins(d) && Unused(d, s.id) ==> NoTwins(WithBody(d, s, compressed))
  {
    hide WellFormed;
    assert BodyAt(WithBody(d, s, compressed), FileName(s.id, compressed)) == Some(s);
  }

  /** A body that is not made current changes nothing about what is. */
  lemma UnusedBody(before: Disk, s: Snapshot, compressed: bool, d: Disk)
    requires Committing(before, s, compressed, false, d)
    ensures d.pointer == before.pointer && d.sidecar == before.sidecar
    ensures Unused(before, s.id) ==> Current(d) == Current(before)
  {
    hide ValidSnapshot;
  }

  // ----- Any sequence of writers -----

  /** One writer's turn under the lock. */
  datatype Work =
    | Autosave(protectedId: Option<Id>, captured: Captured, withProcesses: State, stamp: int)
    | CommandSave(request: SaveRequest, origin: Origin, state: State, stamp: int)
    | BeforeRestore(request: SaveRequest, origin: Origin, state: State, stamp: int)
    | PinOne(query: Query)
    | UnpinOne(query: Query)

  ghost predicate Admissible(w: Work) {
    match w
    case Autosave(_, captured, withProcesses, _) =>
      OnlyProcessesDiffer(captured.state, withProcesses) && captured.origin.socket.Some?
    case CommandSave(request, origin, _, _) => Identified(request, origin)
    case _ => true
  }

  /** The id the snapshot of this turn would have, which no snapshot had before. */
  predicate Novel(d: Disk, config: SaveConfig, w: Work) {
    match w
    case Autosave(_, captured, withProcesses, stamp) =>
      Unused(d, Stamped(stamp, HashOf(if config.processes then withProcesses else captured.state)))
    case CommandSave(_, _, state, stamp) => Unused(d, Stamped(stamp, HashOf(state)))
    case BeforeRestore(_, _, state, stamp) => Unused(d, Stamped(stamp, HashOf(state)))
    case _ => true
  }

  method Turn(store: SnapshotStore, config: SaveConfig, w: Work)
    requires store.Valid() && Admissible(w) && Novel(store.disk, config, w)
    modifies store
    ensures store.Proceeds(config.retention)
    ensures store.Valid() && old(store.trace) <= store.trace
    ensures Upheld(old(store.disk), store.trace, |old(store.trace)|, true)
  {
    hide Retains, Upheld, Unused, Current, OnlyProcessesDiffer, StructuralView, WellFormed, SteadySince;
    ghost var before, from := store.disk, |store.trace|;
    var pruned: int, looked: int, captured: int := *, *, *;
    var clock := Clock(pruned, looked, captured);
    match w {
      case Autosave(protectedId, captured, withProcesses, stamp) =>
        var r, lost := SaveCaptured(store, config, protectedId, captured, withProcesses, stamp, clock);
      case CommandSave(request, origin, state, stamp) =>
        var r := Save(store, config, request, origin, state, stamp, clock);
      case BeforeRestore(request, origin, state, stamp) =>
        var r := SafetySave(store, config, request, origin, state, stamp, clock);
      case PinOne(query) =>
        var r := store.Pin(query);
        SteadyUpholds(store.trace, from, before, true);
      case UnpinOne(query) =>
        var r := store.Unpin(query);
        SteadyUpholds(store.trace, from, before, true);
    }
  }

  /** A policy that is no longer than what was promised and than what any writer was told. */
  ghost predicate NoLonger(config: Config, promised: Config, configs: seq<SaveConfig>) {
    RetentionRuns.Longer(promised, config)
    && forall k | 0 <= k < |configs| :: RetentionRuns.Longer(configs[k].retention, config)
  }

  /** Whatever the daemon, the command line and restores do one after the other, each of them stopping
      anywhere: a sound store stays sound after every single file operation, a sidecar for the current id
      stays one that a restore accepts, and the newest snapshot of an hour or a day stays on disk while it is
      young enough for every policy that was used. */
  method Turns(store: SnapshotStore, configs: seq<SaveConfig>, work: seq<Work>)
    requires store.Valid() && |configs| == |work|
    requires forall w | w in work :: Admissible(w)
    modifies store
    ensures store.Valid() && old(store.trace) <= store.trace
    ensures Upheld(old(store.disk), store.trace, |old(store.trace)|, true)
    ensures old(store.written) <= store.written && old(store.latest) <= store.latest
    ensures NewestStored(store.disk, store.windows, store.latest, store.written)
    ensures forall config :: NoLonger(config, old(store.windows), configs)
              ==> RetentionRuns.Longer(store.windows, config)
  {
    hide Retains, Upheld, Novel, Admissible, NewestStored;
    NothingNew(store.disk, store.trace);
    for i := 0 to |work|
      invariant store.Valid() && old(store.trace) <= store.trace
      invariant Upheld(old(store.disk), store.trace, |old(store.trace)|, true)
      invariant old(store.written) <= store.written && old(store.latest) <= store.latest
      invariant forall config :: NoLonger(config, old(store.windows), configs)
                  ==> RetentionRuns.Longer(store.windows, config)
    {
      ghost var trace, disk := store.trace, store.disk;
      assert LastOr(trace, |old(store.trace)|, old(store.disk)) == disk;
      if Novel(store.disk, configs[i], work[i]) {
        Turn(store, configs[i], work[i]);
        UpheldChain(old(store.disk), trace, store.trace, |old(store.trace)|, true);
      }
    }
    RetainsNewest(store.disk, store.windows, store.latest, store.written);
  }
}
