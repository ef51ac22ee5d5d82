/** The snapshot store: immutable bodies, the current pointer, pins, safety marks, the process
    sidecar, and pruning. Every file write or removal is one step; the store may stop after any of
    them. Reads may fail for reasons of their own. */
module Store {
  import opened Wrappers
  import opened SnapshotGraph
  import opened Structure
  import opened Retention
  import opened RetentionRuns
  import opened Snapshots

  /** `<id>.json` or `<id>.json.zst`. */
  datatype FileName = FileName(id: Id, compressed: bool)

  /** What a reader makes of a body: a snapshot, something that has only an id, or nothing. */
  datatype Body = Whole(snapshot: Snapshot) | IdOnly(id: Id) | Garbage

  datatype PointerFile =
    | Pointer(schema: nat, id: Id, file: Option<FileName>, hash: Option<Digest>)
    | BadPointer

  datatype SidecarFile = Sidecar(checkpoint: Checkpoint) | BadSidecar

  datatype Disk = Disk(
    bodies: map<FileName, Body>, pointer: Option<PointerFile>, pins: set<Id>, safety: set<Id>,
    sidecar: Option<SidecarFile>)

  datatype StoreError =
    | Io
    | BadCurrent
    | NoCurrent
    | NotFound
    | Ambiguous
    | Unreadable
    | WrongTarget
    | Invalid(error: SnapshotError)
    | InvalidCheckpoint(checkpointError: CheckpointError)
    | MarkerGone

  datatype CommitOutcome = Written | Unchanged

  datatype Dedup = OnUnchangedStructure | Never

  // ----- What the files mean -----

  /** A name that is one plain component of a path. */
  predicate Component(name: string) {
    name != "" && name != "." && name != ".." && '/' !in name
  }

  predicate ValidPointer(p: PointerFile) {
    && p.Pointer?
    && p.schema == SCHEMA_VERSION
    && (p.id.Foreign? ==> Component(p.id.name))
    && p.file.Some? && p.file.value.id == p.id
    && p.hash.Some?
  }

  function PointerOf(d: Disk): Result<Option<PointerFile>, StoreError> {
    match d.pointer
    case None => Ok(None)
    case Some(p) => if ValidPointer(p) then Ok(Some(p)) else Err(BadCurrent)
  }

  ghost function BodyAt(d: Disk, file: FileName): (r: Option<Snapshot>)
    ensures r.Some? ==> ValidSnapshot(r.value) && r.value.id == file.id
  {
    if file in d.bodies && d.bodies[file].Whole? && ValidSnapshot(d.bodies[file].snapshot)
       && d.bodies[file].snapshot.id == file.id
    then Some(d.bodies[file].snapshot)
    else None
  }

  /** The snapshot the current pointer stands for, if it stands for one. */
  ghost function Current(d: Disk): (r: Option<Snapshot>)
    ensures r.Some? ==> ValidSnapshot(r.value) && CurrentId(d) == Some(r.value.id)
  {
    match PointerOf(d)
    case Err(_) => None
    case Ok(None) => None
    case Ok(Some(p)) =>
      var body := BodyAt(d, p.file.value);
      if body.Some? && body.value.id == p.id && Some(body.value.semanticHash) == p.hash then body else None
  }

  function CurrentId(d: Disk): Option<Id> {
    match PointerOf(d)
    case Ok(Some(p)) => Some(p.id)
    case _ => None
  }

  /** A current pointer, when there is one, names a stored body with the same id and hash. */
  ghost predicate Sound(d: Disk) {
    d.pointer.Some? ==> Current(d).Some?
  }

  /** A usable sidecar for the current id is one a restore of the current body accepts. */
  ghost predicate Agrees(d: Disk) {
    d.sidecar.Some? && d.sidecar.value.Sidecar? && ValidCheckpoint(d.sidecar.value.checkpoint)
    && Current(d).Some? && d.sidecar.value.checkpoint.base == Current(d).value.id
    ==> Eligible(d.sidecar.value.checkpoint, Current(d).value)
  }

  /** The id belongs to nothing that is on disk. */
  predicate Unused(d: Disk, id: Id) {
    && FileName(id, false) !in d.bodies && FileName(id, true) !in d.bodies
    && CurrentId(d) != Some(id)
    && (d.sidecar.Some? && d.sidecar.value.Sidecar? ==> d.sidecar.value.checkpoint.base != id)
  }

  predicate RecognisedFile(d: Disk, file: FileName) {
    && file in d.bodies
    && file.id.Stamped?
    && match d.bodies[file]
       case Whole(snapshot) => snapshot.id == file.id
       case IdOnly(id) => id == file.id
       case Garbage => false
  }

  function EntryOf(file: FileName): Entry
    requires file.id.Stamped?
  {
    Entry(file.id, file.id.stamp, file.compressed)
  }

  function FileOf(e: Entry): FileName {
    FileName(e.id, e.compressed)
  }

  /** The files retention decides about. */
  function Recognised(d: Disk): set<Entry> {
    set file | file in d.bodies && RecognisedFile(d, file) :: EntryOf(file)
  }

  // ----- What the operations write -----

  function WithBody(d: Disk, s: Snapshot, compressed: bool): Disk {
    d.(bodies := d.bodies[FileName(s.id, compressed) := Whole(s)])
  }

  function WithCurrent(d: Disk, s: Snapshot, compressed: bool): Disk {
    d.(pointer := Some(Pointer(SCHEMA_VERSION, s.id, Some(FileName(s.id, compressed)), Some(s.semanticHash))))
  }

  function Committed(d: Disk, s: Snapshot, compressed: bool): Disk {
    WithCurrent(WithBody(d, s, compressed), s, compressed)
  }

  /** Every disk a commit passes through. */
  ghost predicate Committing(before: Disk, s: Snapshot, compressed: bool, setCurrent: bool, d: Disk) {
    || d == before
    || d == WithBody(before, s, compressed)
    || (setCurrent && d == WithCurrent(WithBody(before, s, compressed), s, compressed))
  }

  /** The files a prune may remove. */
  function Doomed(listing: seq<Entry>, keep: set<Id>): set<FileName> {
    set e | e in listing && e.id !in keep :: FileOf(e)
  }

  /** Every disk a prune passes through: some doomed files, then some expired marks are gone. */
  ghost predicate Pruning(before: Disk, doomed: set<FileName>, expired: set<Id>, d: Disk) {
    && d == before.(bodies := d.bodies, safety := d.safety)
    && (exists gone :: gone <= doomed && d.bodies == before.bodies - gone)
    && before.safety - expired <= d.safety <= before.safety
  }

  /** What the policy gives up is gone, files and marks, and nothing else. */
  ghost predicate PrunedBy(before: Disk, p: Policy, listing: seq<Entry>, d: Disk) {
    && d.bodies == before.bodies - Doomed(listing, Keep(p, listing))
    && d.safety == before.safety - Elements(Expired(p, listing))
    && d.pointer == before.pointer && d.pins == before.pins
  }

  /** A prune went through, of all recognised files or at least of those it could read. */
  ghost predicate Pruned(before: Disk, config: Config, now: int, all: bool, d: Disk) {
    exists listing ::
      && Listing(before, listing) && (all ==> Elements(listing) == Recognised(before))
      && PrunedBy(before, PrunePolicy(before, config, now), listing, d)
  }

  /** The sidecar has no part in a prune. */
  lemma PrunedApart(before: Disk, config: Config, now: int, all: bool, d: Disk, before': Disk, all': bool, d': Disk)
    requires Pruned(before, config, now, all, d) && (all' ==> all)
    requires before' == before.(sidecar := before'.sidecar) && d' == d.(sidecar := d'.sidecar)
    ensures Pruned(before', config, now, all', d')
  {
    hide Keep, Expired, Doomed;
    var listing: seq<Entry> :| Listing(before, listing) && (all ==> Elements(listing) == Recognised(before))
                   && PrunedBy(before, PrunePolicy(before, config, now), listing, d);
    assert PrunePolicy(before', config, now) == PrunePolicy(before, config, now);
    SameFiles(before, before');
    assert Listing(before', listing);
    assert PrunedBy(before', PrunePolicy(before', config, now), listing, d');
  }

  lemma SameFiles(before: Disk, d: Disk)
    requires d.bodies == before.bodies
    ensures Recognised(d) == Recognised(before)
  {
    forall x ensures x in Recognised(d) <==> x in Recognised(before) {
      if x in Recognised(d) {
        var file :| file in d.bodies && RecognisedFile(d, file) && EntryOf(file) == x;
        assert RecognisedFile(before, file);
      }
      if x in Recognised(before) {
        var file :| file in before.bodies && RecognisedFile(before, file) && EntryOf(file) == x;
        assert RecognisedFile(d, file);
      }
    }
  }

  /** The files with a safety mark that are listed before, or along with, those of a time. */
  ghost function MarkedSince(d: Disk, stamp: int): set<FileName> {
    set f | f in d.bodies && RecognisedFile(d, f) && f.id in d.safety && f.id.stamp >= stamp
  }

  ghost predicate Marked(d: Disk, id: Id) {
    Stored(d, id) && id in d.safety
  }

  function WithMark(d: Disk, id: Id): Disk {
    d.(safety := d.safety + {id})
  }

  /** A new snapshot with a mark survives the prune that follows, and so does its mark, unless as many marked
      files as are to be kept are listed before it. */
  lemma NewMarkSurvives(before: Disk, s: Snapshot, compressed: bool, config: Config, now: int, all: bool, d: Disk)
    requires ValidSnapshot(s) && Unused(before, s.id)
    requires Pruned(WithMark(WithBody(before, s, compressed), s.id), config, now, all, d)
    requires |MarkedSince(before, s.id.stamp)| < config.safetySnapshots
    ensures Marked(d, s.id)
  {
    hide Keep, Expired, Doomed, MarksBefore, WellFormed;
    var marked := WithMark(WithBody(before, s, compressed), s.id);
    var p := PrunePolicy(marked, config, now);
    var listing: seq<Entry> :| Listing(marked, listing) && PrunedBy(marked, p, listing, d);
    var file := FileName(s.id, compressed);
    forall k | 0 <= k < |listing| && listing[k].id == s.id
      ensures MarksBefore(listing, marked.safety, k) < config.safetySnapshots && FileOf(listing[k]) == file
    {
      FewMarksBefore(before, s, compressed, listing, k);
    }
    ExpiredExactly(p, listing);
    KeepExactly(p, listing);
    assert file !in Doomed(listing, Keep(p, listing)) by {
      NotDoomed(p, listing, file);
    }
    assert s.id !in Expired(p, listing);
    assert PrunedBy(marked, p, listing, d);
    StillHere(marked, d, Doomed(listing, Keep(p, listing)), file);
    assert BodyAt(d, file) == Some(s);
  }

  lemma StillHere(before: Disk, d: Disk, doomed: set<FileName>, file: FileName)
    requires d.bodies == before.bodies - doomed && file in before.bodies && file !in doomed
    ensures file in d.bodies && d.bodies[file] == before.bodies[file]
  {
  }

  lemma NotDoomed(p: Policy, listing: seq<Entry>, file: FileName)
    requires file.id in p.safety
    requires forall k | 0 <= k < |listing| && listing[k].id == file.id ::
               MarksBefore(listing, p.safety, k) < p.config.safetySnapshots
    ensures file !in Doomed(listing, Keep(p, listing))
  {
    hide Keep, MarksBefore, KeptFor, SomeKept;
    KeepExactly(p, listing);
    forall e | e in listing && FileOf(e) == file ensures e.id in Keep(p, listing) {
      var k :| 0 <= k < |listing| && listing[k] == e;
      MarkedIsKept(p, listing, k);
    }
  }

  lemma MarkedIsKept(p: Policy, listing: seq<Entry>, k: nat)
    requires k < |listing| && listing[k].id in p.safety
    requires MarksBefore(listing, p.safety, k) < p.config.safetySnapshots
    ensures SomeKept(p, listing, listing[k].id)
  {
    assert KeptFor(p, listing, k);
  }

  lemma FewMarksBefore(before: Disk, s: Snapshot, compressed: bool, listing: seq<Entry>, k: nat)
    requires ValidSnapshot(s) && Unused(before, s.id)
    requires Listing(WithMark(WithBody(before, s, compressed), s.id), listing)
    requires k < |listing| && listing[k].id == s.id
    ensures MarksBefore(listing, before.safety + {s.id}, k) <= |MarkedSince(before, s.id.stamp)|
    ensures FileOf(listing[k]) == FileName(s.id, compressed)
  {
    hide WellFormed;
    var marked := WithMark(WithBody(before, s, compressed), s.id);
    forall j | 0 <= j < |listing|
      ensures RecognisedFile(marked, FileOf(listing[j])) && EntryOf(FileOf(listing[j])) == listing[j]
    {
      assert listing[j] in Elements(listing);
      RecognisedEntry(marked, listing[j]);
    }
    forall j | 0 <= j < k ensures listing[j].id == s.id ==> listing[j] == listing[k] {
      assert FileOf(listing[j]) in marked.bodies && FileOf(listing[k]) in marked.bodies;
    }
    var at := set j | 0 <= j < k && listing[j].id in before.safety + {s.id};
    forall j | j in at ensures FileOf(listing[j]) in MarkedSince(before, s.id.stamp) {
      assert listing[j] != listing[k];
      assert RecognisedFile(before, FileOf(listing[j]));
    }
    FilesCounted(listing, k, at, MarkedSince(before, s.id.stamp));
  }

  /** Different places of a listing are different files. */
  lemma {:induction false} FilesCounted(listing: seq<Entry>, k: nat, at: set<int>, files: set<FileName>)
    requires Distinct(listing) && k <= |listing|
    requires forall j | j in at :: 0 <= j < k
    requires forall j | j in at :: FileOf(listing[j]) in files && listing[j].id.Stamped?
    requires forall j | j in at :: EntryOf(FileOf(listing[j])) == listing[j]
    ensures |at| <= |files|
  {
    if k == 0 {
      assert forall j :: j !in at;
      assert at == {};
    } else if k - 1 in at {
      forall i | i in at && i != k - 1 ensures FileOf(listing[i]) != FileOf(listing[k - 1]) {
        assert listing[i] != listing[k - 1];
      }
      FilesCounted(listing, k - 1, at - {k - 1}, files - {FileOf(listing[k - 1])});
    } else {
      FilesCounted(listing, k - 1, at, files);
    }
  }

  /** No id has both a plain and a compressed file. */
  ghost predicate NoTwins(d: Disk) {
    forall id :: !(FileName(id, false) in d.bodies && FileName(id, true) in d.bodies)
  }

  lemma ListingIsDistinct(d: Disk, listing: seq<Entry>)
    requires Listing(d, listing) && NoTwins(d)
    ensures DistinctIds(listing)
  {
    forall i, j | 0 <= i < j < |listing| ensures listing[i].id != listing[j].id {
      assert listing[i] in Elements(listing) && listing[j] in Elements(listing);
      RecognisedEntry(d, listing[i]);
      RecognisedEntry(d, listing[j]);
    }
  }

  ghost predicate Listing(d: Disk, listing: seq<Entry>) {
    Elements(listing) <= Recognised(d) && Distinct(listing) && NewestFirst(listing)
  }

  function PrunePolicy(d: Disk, config: Config, now: int): Policy {
    Policy(config, now, d.pins, CurrentId(d), d.safety)
  }

  // ----- A commit keeps the store sound, and its current is what was committed -----

  lemma CommittedCurrent(d: Disk, s: Snapshot, compressed: bool)
    requires ValidSnapshot(s)
    ensures Current(WithCurrent(WithBody(d, s, compressed), s, compressed)) == Some(s)
  {
    hide WellFormed;
  }

  lemma CommittedOrderly(d: Disk, s: Snapshot, compressed: bool)
    requires ValidSnapshot(s)
    ensures var after := WithCurrent(WithBody(d, s, compressed), s, compressed);
            PointerOf(after).Ok? && (NoTwins(d) && Unused(d, s.id) ==> NoTwins(after))
  {
    hide WellFormed;
  }

  lemma CommittingIsSound(before: Disk, s: Snapshot, compressed: bool, setCurrent: bool, d: Disk)
    requires ValidSnapshot(s) && Committing(before, s, compressed, setCurrent, d) && Sound(before)
    ensures Sound(d)
  {
    hide WellFormed;
    if d == WithBody(before, s, compressed) && d.pointer.Some? {
      var p := d.pointer.value;
      if p.file.value == FileName(s.id, compressed) {
        assert BodyAt(d, p.file.value) == Some(s);
      }
    } else if d != before {
      CommittedCurrent(before, s, compressed);
    }
  }

  lemma CommittingAgrees(before: Disk, s: Snapshot, compressed: bool, setCurrent: bool, d: Disk)
    requires ValidSnapshot(s) && Committing(before, s, compressed, setCurrent, d)
    requires Agrees(before) && Unused(before, s.id)
    ensures Agrees(d)
  {
    hide WellFormed, Eligible, ValidCheckpoint;
    if d == WithBody(before, s, compressed) {
      assert Current(d) == Current(before);
    } else if d != before {
      CommittedCurrent(before, s, compressed);
    }
  }

  // ----- A prune never touches what the pointer stands for -----

  lemma PruningKeepsCurrent(before: Disk, config: Config, now: int, listing: seq<Entry>, expired: set<Id>, d: Disk)
    requires Pruning(before, Doomed(listing, Keep(PrunePolicy(before, config, now), listing)), expired, d)
    ensures Current(d) == Current(before)
  {
    hide WellFormed;
    var p := PrunePolicy(before, config, now);
    if CurrentId(before).Some? {
      var file := before.pointer.value.file.value;
      CurrentNotDoomed(p, listing, file);
      assert file in before.bodies <==> file in d.bodies;
    }
  }

  lemma CurrentNotDoomed(p: Policy, listing: seq<Entry>, file: FileName)
    requires p.current == Some(file.id)
    ensures file !in Doomed(listing, Keep(p, listing))
  {
    forall e | e in listing && e.id == file.id ensures e.id in Keep(p, listing) {
      assert e.id in ProtectedIds(p, listing);
    }
  }

  // ----- What the store does is a step of the retention histories -----

  function HistoryOf(d: Disk, clock: int, committed: set<Id>): History {
    History(clock, committed, Recognised(d), d.pins, CurrentId(d), d.safety)
  }

  lemma CommittingIsAStep(before: Disk, s: Snapshot, compressed: bool, clock: int, committed: set<Id>, config: Config)
    requires ValidSnapshot(s)
    ensures var body := WithBody(before, s, compressed);
            var e := Entry(s.id, s.id.stamp, compressed);
            && Next(config, HistoryOf(before, clock, committed), RetentionRuns.Commit(e, false),
                    HistoryOf(body, clock, committed + {s.id}))
            && Next(config, HistoryOf(before, clock, committed), RetentionRuns.Commit(e, true),
                    HistoryOf(WithCurrent(body, s, compressed), clock, committed + {s.id}))
  {
    hide WellFormed, Keep, Expired;
    var body := WithBody(before, s, compressed);
    var e := Entry(s.id, s.id.stamp, compressed);
    var name := FileName(s.id, compressed);
    assert RecognisedFile(body, name) && EntryOf(name) == e;
    forall x | x in Recognised(before) ensures x in Recognised(body) {
      var file :| file in before.bodies && RecognisedFile(before, file) && EntryOf(file) == x;
      assert file in body.bodies && RecognisedFile(body, file);
    }
    forall x | x in Recognised(body) ensures x in Recognised(before) + {e} {
      var file :| file in body.bodies && RecognisedFile(body, file) && EntryOf(file) == x;
      if file != name {
        assert RecognisedFile(before, file);
      }
    }
    assert Recognised(WithCurrent(body, s, compressed)) == Recognised(body);
  }

  /** Files gone that a prune may remove: what it has to keep is there, and nothing is new. */
  lemma PruningSurvives(before: Disk, listing: seq<Entry>, keep: set<Id>, d: Disk, gone: set<FileName>)
    requires Listing(before, listing) && gone <= Doomed(listing, keep) && d.bodies == before.bodies - gone
    ensures Survivors(keep, listing, Recognised(before)) <= Recognised(d) <= Recognised(before)
  {
    forall x | x in Survivors(keep, listing, Recognised(before)) ensures x in Recognised(d) {
      var file :| file in before.bodies && RecognisedFile(before, file) && EntryOf(file) == x;
      forall e | e in listing && FileOf(e) == file ensures e == x {
        assert e in Elements(listing);
        RecognisedEntry(before, e);
      }
      assert file !in Doomed(listing, keep);
      assert RecognisedFile(d, file);
    }
    forall x | x in Recognised(d) ensures x in Recognised(before) {
      var file :| file in d.bodies && RecognisedFile(d, file) && EntryOf(file) == x;
      assert RecognisedFile(before, file);
    }
  }

  lemma PruningIsAStep(before: Disk, config: Config, now: int, listing: seq<Entry>, d: Disk, committed: set<Id>)
    requires Listing(before, listing)
    requires var p := PrunePolicy(before, config, now);
             Pruning(before, Doomed(listing, Keep(p, listing)), Elements(Expired(p, listing)), d)
    ensures Next(config, HistoryOf(before, now, committed),
                 RetentionRuns.Prune(listing, Recognised(d), d.safety),
                 HistoryOf(d, now, committed))
  {
    hide Keep, Expired;
    var p := PrunePolicy(before, config, now);
    var keep := Keep(p, listing);
    assert p == PolicyOf(config, HistoryOf(before, now, committed));
    var gone :| gone <= Doomed(listing, keep) && d.bodies == before.bodies - gone;
    PruningSurvives(before, listing, keep, d, gone);
  }

  /** Everything written is retained for as long as `windows` promises, as of `latest`. */
  ghost predicate Retains(d: Disk, windows: Config, latest: int, written: set<Id>) {
    Retained(windows, HistoryOf(d, latest, written))
  }

  lemma RetainsSame(before: Disk, d: Disk, windows: Config, latest: int, written: set<Id>)
    requires d.bodies == before.bodies && Retains(before, windows, latest, written)
    ensures Retains(d, windows, latest, written)
  {
    hide HourHeld, DayHeld;
    SameFiles(before, d);
  }

  lemma CommitRetainsMore(before: Disk, s: Snapshot, compressed: bool, windows: Config, latest: int, written: set<Id>)
    requires ValidSnapshot(s) && Retains(before, windows, latest, written)
    ensures Retains(WithBody(before, s, compressed), windows, latest, written + {s.id})
  {
    hide WellFormed, Retained, Next;
    CommittingIsAStep(before, s, compressed, latest, written, windows);
    StepRetains(windows, HistoryOf(before, latest, written),
                RetentionRuns.Commit(Entry(s.id, s.id.stamp, compressed), false),
                HistoryOf(WithBody(before, s, compressed), latest, written + {s.id}));
  }

  /** The shorter of what was promised and what a prune is told. */
  function Shorter(a: Config, b: Config): (c: Config)
    ensures Longer(a, c) && Longer(b, c)
  {
    a.(hourlyDays := if a.hourlyDays < b.hourlyDays then a.hourlyDays else b.hourlyDays,
       dailyDays := if a.dailyDays < b.dailyDays then a.dailyDays else b.dailyDays)
  }

  function Later(a: int, b: int): int { if a < b then b else a }

  function With(written: set<Id>, newly: Option<Id>): set<Id> {
    if newly.Some? then written + {newly.value} else written
  }

  /** Whichever of the doomed files are gone, everything promised is retained. */
  ghost predicate Expendable(d: Disk, doomed: set<FileName>, windows: Config, latest: int, written: set<Id>) {
    forall gone | gone <= doomed :: Retains(d.(bodies := d.bodies - gone), windows, latest, written)
  }

  lemma DoomedIsExpendable(d: Disk, config: Config, now: int, listing: seq<Entry>, windows: Config, latest: int,
                           written: set<Id>)
    requires Listing(d, listing) && Retains(d, windows, latest, written)
    ensures Expendable(d, Doomed(listing, Keep(PrunePolicy(d, config, now), listing)), Shorter(windows, config),
                       Later(latest, now), written)
  {
    hide Retained, Keep, Recognised, Doomed, Listing, RetentionRuns.Lists;
    var p := PrunePolicy(d, config, now);
    var h := HistoryOf(d, latest, written).(clock := Later(latest, now));
    ListingLists(d, listing, Later(latest, now), written);
    RetainedLess(windows, HistoryOf(d, latest, written), Shorter(windows, config), Later(latest, now));
    forall gone | gone <= Doomed(listing, Keep(p, listing))
      ensures Retains(d.(bodies := d.bodies - gone), Shorter(windows, config), Later(latest, now), written)
    {
      var after := d.(bodies := d.bodies - gone);
      PruningSurvives(d, listing, Keep(p, listing), after, gone);
      PruneRetains(Shorter(windows, config), p, h, HistoryOf(after, Later(latest, now), written), listing);
    }
  }

  lemma ListingLists(d: Disk, listing: seq<Entry>, clock: int, written: set<Id>)
    requires Listing(d, listing)
    ensures RetentionRuns.Lists(HistoryOf(d, clock, written), listing)
  {
  }

  /** The newest snapshot written in an hour or on a day is here while it is young enough. */
  ghost predicate NewestStored(d: Disk, windows: Config, latest: int, written: set<Id>) {
    forall id | id in written && id.Stamped? ::
      && (latest - id.stamp <= windows.hourlyDays * DAY && NewestOfHour(written, id) ==> Holds(Recognised(d), id))
      && (latest - id.stamp <= windows.dailyDays * DAY && NewestOfDay(written, id) ==> Holds(Recognised(d), id))
  }

  lemma RetainsNewest(d: Disk, windows: Config, latest: int, written: set<Id>)
    requires Retains(d, windows, latest, written)
    ensures NewestStored(d, windows, latest, written)
  {
    hide Retained, NewestOfHour, NewestOfDay, Holds, Recognised;
    forall id | id in written && id.Stamped?
      ensures latest - id.stamp <= windows.hourlyDays * DAY && NewestOfHour(written, id) ==> Holds(Recognised(d), id)
      ensures latest - id.stamp <= windows.dailyDays * DAY && NewestOfDay(written, id) ==> Holds(Recognised(d), id)
    {
      NewestHeld(windows, HistoryOf(d, latest, written), id);
    }
  }

  /** What is on disk to begin with is retained. */
  lemma StoredIsRetained(d: Disk, windows: Config, latest: int)
    ensures Retains(d, windows, latest, set e | e in Recognised(d) :: e.id)
  {
    StartRetains(windows, HistoryOf(d, latest, set e | e in Recognised(d) :: e.id));
  }

  lemma RecognisedEntry(d: Disk, e: Entry)
    requires e in Recognised(d)
    ensures RecognisedFile(d, FileOf(e)) && EntryOf(FileOf(e)) == e
  {
  }

  // ----- Deciding what to keep -----

  function InsertNewest(e: Entry, sorted: seq<Entry>): seq<Entry> {
    if sorted == [] then [e]
    else if e.stamp >= sorted[0].stamp then [e] + sorted
    else [sorted[0]] + InsertNewest(e, sorted[1..])
  }

  lemma {:induction false} InsertNewestMembers(e: Entry, sorted: seq<Entry>)
    ensures forall x :: x in InsertNewest(e, sorted) <==> x == e || x in sorted
  {
    if sorted != [] && e.stamp < sorted[0].stamp {
      InsertNewestMembers(e, sorted[1..]);
      assert sorted == [sorted[0]] + sorted[1..];
    }
  }

  lemma {:induction false} InsertNewestOk(e: Entry, sorted: seq<Entry>)
    requires NewestFirst(sorted) && Distinct(sorted) && e !in sorted
    ensures NewestFirst(InsertNewest(e, sorted)) && Distinct(InsertNewest(e, sorted))
    ensures forall x :: x in InsertNewest(e, sorted) <==> x == e || x in sorted
  {
    InsertNewestMembers(e, sorted);
    if sorted != [] && e.stamp < sorted[0].stamp {
      var rest := sorted[1..];
      InsertNewestOk(e, rest);
      InsertNewestMembers(e, rest);
      var inner := InsertNewest(e, rest);
      forall j | 0 <= j < |inner| ensures sorted[0].stamp >= inner[j].stamp && sorted[0] != inner[j] {
        assert inner[j] in inner;
        if inner[j] != e {
          var k :| 0 <= k < |rest| && rest[k] == inner[j];
          assert sorted[k + 1] == inner[j];
        }
      }
    }
  }

  lemma DoomedStep(entries: seq<Entry>, keep: set<Id>, i: nat)
    requires i < |entries|
    ensures Doomed(entries[..i + 1], keep)
            == Doomed(entries[..i], keep) + if entries[i].id in keep then {} else {FileOf(entries[i])}
    ensures Ids(entries[..i + 1]) == Ids(entries[..i]) + {entries[i].id}
    ensures Doomed(entries[..i + 1], keep) <= Doomed(entries, keep)
  {
    assert entries[..i + 1] == entries[..i] + [entries[i]];
  }

  ghost predicate Removing(before: Disk, doomed: set<FileName>, d: Disk) {
    exists gone :: gone <= doomed && d == before.(bodies := before.bodies - gone)
  }

  ghost predicate Unmarking(before: Disk, expired: set<Id>, d: Disk) {
    d == before.(safety := d.safety) && before.safety - expired <= d.safety <= before.safety
  }

  lemma MarkerIsGone(safety: set<Id>, expired: seq<Id>, i: nat)
    requires i < |expired| && expired[i] !in safety - Elements(expired[..i])
    ensures !Distinct(expired) || !(Elements(expired) <= safety)
  {
    assert expired[i] in Elements(expired);
    if expired[i] in Elements(expired[..i]) {
      var j :| 0 <= j < i && expired[..i][j] == expired[i];
      assert expired[j] == expired[i];
    }
  }

  lemma RemovalStarts(before: Disk, entries: seq<Entry>, keep: set<Id>)
    ensures Doomed(entries[..0], keep) == {} && Ids(entries[..0]) == {}
    ensures before == before.(bodies := before.bodies - {})
  {
    assert before.bodies - {} == before.bodies;
  }

  lemma RemovalEnds(before: Disk, entries: seq<Entry>, keep: set<Id>)
    ensures Removing(before, Doomed(entries, keep), before.(bodies := before.bodies - Doomed(entries, keep)))
  {
  }

  lemma NoneGone(d: Disk, doomed: set<FileName>, windows: Config, latest: int, written: set<Id>)
    requires Expendable(d, doomed, windows, latest, written)
    ensures Retains(d, windows, latest, written)
  {
    hide Retains;
    assert d.bodies - {} == d.bodies;
    assert d.(bodies := d.bodies - {}) == d;
  }

  lemma OneMoreGone(before: Disk, doomed: set<FileName>, gone: set<FileName>, file: FileName, windows: Config,
                    latest: int, written: set<Id>)
    requires Expendable(before, doomed, windows, latest, written) && gone <= doomed && file in doomed
    ensures var d := before.(bodies := before.bodies - gone);
            Retains(d.(bodies := d.bodies - {file}), windows, latest, written)
  {
    hide Retains;
    assert before.bodies - gone - {file} == before.bodies - (gone + {file});
  }

  lemma RemovalStep(before: Disk, doomed: set<FileName>, gone: set<FileName>, file: FileName, d: Disk)
    requires gone <= doomed && file in doomed
    requires d == before.(bodies := before.bodies - gone)
             || d == before.(bodies := (before.bodies - gone) - {file})
    ensures Removing(before, doomed, d)
    ensures (before.bodies - gone) - {file} == before.bodies - (gone + {file})
  {
    assert (before.bodies - gone) - {file} == before.bodies - (gone + {file});
  }

  lemma RemovingIsPruning(trace: seq<Disk>, from: nat, before: Disk, doomed: set<FileName>, expired: set<Id>)
    requires from <= |trace| && forall k | from <= k < |trace| :: Removing(before, doomed, trace[k])
    ensures forall k | from <= k < |trace| :: Pruning(before, doomed, expired, trace[k])
  {
    forall k | from <= k < |trace| ensures Pruning(before, doomed, expired, trace[k]) {
      assert Removing(before, doomed, trace[k]);
    }
  }

  lemma UnmarkingIsPruning(trace: seq<Disk>, from: nat, middle: nat, before: Disk, half: Disk,
                           doomed: set<FileName>, expired: set<Id>)
    requires from <= middle <= |trace| && half == before.(bodies := before.bodies - doomed)
    requires forall k | from <= k < middle :: Pruning(before, doomed, expired, trace[k])
    requires forall k | middle <= k < |trace| :: Unmarking(half, expired, trace[k])
    ensures forall k | from <= k < |trace| :: Pruning(before, doomed, expired, trace[k])
  {
    forall k | middle <= k < |trace| ensures Pruning(before, doomed, expired, trace[k]) {
      assert Unmarking(half, expired, trace[k]);
      assert doomed <= doomed;
    }
  }

  lemma NothingListed(d: Disk)
    ensures Listing(d, [])
  {
  }

  // ----- Collecting the listing -----

  ghost predicate Collected(d: Disk, seen: set<FileName>, listing: seq<Entry>) {
    && NewestFirst(listing) && Distinct(listing)
    && forall e | e in listing :: FileOf(e) in seen && RecognisedFile(d, FileOf(e)) && EntryOf(FileOf(e)) == e
  }

  ghost predicate Complete(d: Disk, seen: set<FileName>, listing: seq<Entry>) {
    forall f | f in seen && RecognisedFile(d, f) :: EntryOf(f) in listing
  }

  lemma NoneCollected(d: Disk)
    ensures Collected(d, {}, []) && Complete(d, {}, [])
  {
  }

  lemma CollectStep(d: Disk, seen: set<FileName>, listing: seq<Entry>, file: FileName)
    requires Collected(d, seen, listing) && file !in seen
    ensures Collected(d, seen + {file}, listing)
    ensures !RecognisedFile(d, file) && Complete(d, seen, listing) ==> Complete(d, seen + {file}, listing)
    ensures RecognisedFile(d, file) ==>
              && file.id.Stamped?
              && Collected(d, seen + {file}, InsertNewest(EntryOf(file), listing))
              && (Complete(d, seen, listing) ==> Complete(d, seen + {file}, InsertNewest(EntryOf(file), listing)))
  {
    if RecognisedFile(d, file) {
      var e := EntryOf(file);
      assert FileOf(e) == file;
      InsertNewestOk(e, listing);
    }
  }

  lemma AllCollected(d: Disk, seen: set<FileName>, listing: seq<Entry>)
    requires Collected(d, seen, listing) && seen == d.bodies.Keys
    ensures Listing(d, listing)
    ensures Complete(d, seen, listing) ==> Elements(listing) == Recognised(d)
  {
    forall e | e in Elements(listing) ensures e in Recognised(d) {
    }
  }

  lemma PruneSteady(trace: seq<Disk>, from: nat, before: Disk, config: Config, now: int, listing: seq<Entry>)
    requires from <= |trace|
    requires var p := PrunePolicy(before, config, now);
             forall k | from <= k < |trace| ::
               Pruning(before, Doomed(listing, Keep(p, listing)), Elements(Expired(p, listing)), trace[k])
    ensures SteadySince(trace, from, before)
  {
    hide Keep, Expired, Current, Doomed;
    var p := PrunePolicy(before, config, now);
    forall k | from <= k < |trace| ensures Current(trace[k]) == Current(before) {
      PruningKeepsCurrent(before, config, now, listing, Elements(Expired(p, listing)), trace[k]);
    }
  }

  method MarkedIds(entries: seq<Entry>, safety: set<Id>) returns (safetyIds: seq<Id>)
    ensures safetyIds == SafetyIds(entries, safety)
  {
    safetyIds := [];
    for i := 0 to |entries|
      invariant safetyIds == SafetyIds(entries[..i], safety)
    {
      assert entries[..i + 1][..i] == entries[..i];
      if entries[i].id in safety {
        safetyIds := safetyIds + [entries[i].id];
      }
    }
    assert entries[..|entries|] == entries;
  }

  /** One pass over the listing: what is protected, and the first of each hour and of each day. */
  method Windows(entries: seq<Entry>, p: Policy) returns (kept: set<Id>, hourly: map<int, Id>, daily: map<int, Id>)
    ensures kept == ProtectedIds(p, entries) && hourly == Hourly(p, entries) && daily == Daily(p, entries)
  {
    hide ProtectedIds, Hourly, Daily;
    kept, hourly, daily := {}, map[], map[];
    WindowsStart(p, entries);
    for i := 0 to |entries|
      invariant kept == ProtectedIds(p, entries[..i])
      invariant hourly == Hourly(p, entries[..i]) && daily == Daily(p, entries[..i])
    {
      var e := entries[i];
      assert entries[..i + 1] == entries[..i] + [e];
      ProtectedStep(p, entries, i);
      HourlyLast(p, entries[..i + 1], entries[..i], e);
      DailyLast(p, entries[..i + 1], entries[..i], e);
      if e.id in p.pins || p.current == Some(e.id) {
        kept := kept + {e.id};
      } else {
        var age := p.now - e.stamp;
        if age <= p.config.hourlyDays * DAY {
          if HourOf(e.stamp) !in hourly {
            hourly := hourly[HourOf(e.stamp) := e.id];
          }
        } else if age <= p.config.dailyDays * DAY {
          if DayOf(e.stamp) !in daily {
            daily := daily[DayOf(e.stamp) := e.id];
          }
        }
      }
    }
    assert entries[..|entries|] == entries;
  }

  lemma WindowsStart(p: Policy, entries: seq<Entry>)
    ensures ProtectedIds(p, entries[..0]) == {} && Hourly(p, entries[..0]) == map[] && Daily(p, entries[..0]) == map[]
  {
  }

  /** What to keep, and which safety marks have had their time. */
  method Decide(entries: seq<Entry>, p: Policy) returns (keep: set<Id>, expired: seq<Id>)
    ensures keep == Keep(p, entries) && expired == Expired(p, entries)
  {
    var safetyIds := MarkedIds(entries, p.safety);
    keep := Elements(Take(safetyIds, p.config.safetySnapshots));
    expired := Drop(safetyIds, p.config.safetySnapshots);
    var kept, hourly, daily := Windows(entries, p);
    keep := keep + Ids(Take(entries, p.config.recent)) + kept + hourly.Values + daily.Values;
  }

  lemma ProtectedStep(p: Policy, entries: seq<Entry>, i: nat)
    requires i < |entries|
    ensures ProtectedIds(p, entries[..i + 1])
            == ProtectedIds(p, entries[..i]) + if Protected(p, entries[i]) then {entries[i].id} else {}
  {
    assert entries[..i + 1] == entries[..i] + [entries[i]];
  }

  // ----- What a whole operation keeps -----

  ghost predicate SoundSince(trace: seq<Disk>, from: nat) {
    from <= |trace| && forall k | from <= k < |trace| :: Sound(trace[k])
  }

  ghost predicate AgreesSince(trace: seq<Disk>, from: nat) {
    from <= |trace| && forall k | from <= k < |trace| :: Agrees(trace[k])
  }

  /** Since then, nothing changed what is current, nor the sidecar. */
  ghost predicate SteadySince(trace: seq<Disk>, from: nat, before: Disk) {
    from <= |trace| && forall k | from <= k < |trace| ::
      Current(trace[k]) == Current(before) && trace[k].pointer == before.pointer && trace[k].sidecar == before.sidecar
  }

  lemma SteadyKeeps(trace: seq<Disk>, from: nat, before: Disk)
    requires SteadySince(trace, from, before)
    ensures Sound(before) ==> SoundSince(trace, from)
    ensures Agrees(before) ==> AgreesSince(trace, from)
  {
    hide Current, Eligible, ValidCheckpoint;
  }

  /** From a sound store only sound ones; from one whose sidecar agrees, and given agree ids, only such. */
  ghost predicate Upheld(before: Disk, trace: seq<Disk>, from: nat, agree: bool) {
    && from <= |trace|
    && (Sound(before) ==> SoundSince(trace, from))
    && (Agrees(before) && agree ==> AgreesSince(trace, from))
  }

  ghost function LastOr(trace: seq<Disk>, from: nat, before: Disk): Disk
    requires from <= |trace|
  {
    if from < |trace| then trace[|trace| - 1] else before
  }

  lemma UpheldChain(before: Disk, first: seq<Disk>, second: seq<Disk>, from: nat, agree: bool)
    requires from <= |first| && first <= second
    requires Upheld(before, first, from, agree)
    requires Upheld(LastOr(first, from, before), second, |first|, agree)
    ensures Upheld(before, second, from, agree)
  {
    hide Sound, Agrees;
    assert forall k | from <= k < |first| :: second[k] == first[k];
  }

  lemma UpheldLess(before: Disk, trace: seq<Disk>, from: nat, strong: bool, weak: bool)
    requires Upheld(before, trace, from, strong) && (weak ==> strong)
    ensures Upheld(before, trace, from, weak)
  {
  }

  lemma NothingNew(d: Disk, trace: seq<Disk>)
    ensures Upheld(d, trace, |trace|, true)
  {
  }

  lemma SteadyUpholds(trace: seq<Disk>, from: nat, before: Disk, agree: bool)
    requires SteadySince(trace, from, before)
    ensures Upheld(before, trace, from, agree)
  {
    hide Sound, Agrees, Current;
    SteadyKeeps(trace, from, before);
  }

  lemma CommittingUpholds(trace: seq<Disk>, from: nat, before: Disk, s: Snapshot, compressed: bool, setCurrent: bool)
    requires from <= |trace| && ValidSnapshot(s)
    requires forall k | from <= k < |trace| :: Committing(before, s, compressed, setCurrent, trace[k])
    ensures Upheld(before, trace, from, Unused(before, s.id))
  {
    hide Committing, ValidSnapshot, Sound, Agrees, Unused;
    forall k | from <= k < |trace|
      ensures Sound(before) ==> Sound(trace[k])
      ensures Agrees(before) && Unused(before, s.id) ==> Agrees(trace[k])
    {
      if Sound(before) {
        CommittingIsSound(before, s, compressed, setCurrent, trace[k]);
      }
      if Agrees(before) && Unused(before, s.id) {
        CommittingAgrees(before, s, compressed, setCurrent, trace[k]);
      }
    }
  }

  ghost predicate SidecarOnly(before: Disk, sidecar: Option<SidecarFile>, d: Disk) {
    d == before || d == before.(sidecar := sidecar)
  }

  lemma SidecarElsewhere(d: Disk, sidecar: Option<SidecarFile>)
    ensures Current(d.(sidecar := sidecar)) == Current(d) && CurrentId(d.(sidecar := sidecar)) == CurrentId(d)
  {
    hide ValidSnapshot;
  }

  /** Writing or removing the sidecar keeps the store as it was, if what is written agrees. */
  lemma SidecarUpholds(trace: seq<Disk>, from: nat, before: Disk, sidecar: Option<SidecarFile>)
    requires from <= |trace| && forall k | from <= k < |trace| :: SidecarOnly(before, sidecar, trace[k])
    requires Agrees(before.(sidecar := sidecar))
    ensures Upheld(before, trace, from, true)
  {
    hide Agrees, Current;
    SidecarElsewhere(before, sidecar);
    forall k | from <= k < |trace|
      ensures Sound(before) ==> Sound(trace[k])
      ensures Agrees(before) ==> Agrees(trace[k])
    {
      assert SidecarOnly(before, sidecar, trace[k]);
    }
  }

  datatype Query = CurrentSnapshot | Prefix(matches: FileName -> bool)

  /** The query stands for exactly one file, and that holds a valid snapshot. */
  ghost predicate Finds(d: Disk, query: Query, file: FileName) {
    && query.Prefix? && file in d.bodies && query.matches(file) && BodyAt(d, file).Some?
    && forall g | g in d.bodies && query.matches(g) :: g == file
  }

  lemma NoneFound(d: Disk, query: Query, candidates: set<FileName>)
    requires query.Prefix? && candidates == (set f | f in d.bodies && query.matches(f)) && candidates == {}
    ensures forall f :: !Finds(d, query, f)
  {
    forall f ensures !Finds(d, query, f) {
      assert f in candidates <==> f in d.bodies && query.matches(f);
    }
  }

  lemma ManyFound(d: Disk, query: Query, candidates: set<FileName>, file: FileName)
    requires query.Prefix? && candidates == (set f | f in d.bodies && query.matches(f))
    requires file in candidates && candidates - {file} != {}
    ensures forall f :: !Finds(d, query, f)
  {
    var other :| other in candidates - {file};
    assert other in candidates && other != file;
  }

  /** Where no id has two files, no mark is to be removed twice. */
  lemma OneFileEach(d: Disk, config: Config, now: int, listing: seq<Entry>)
    requires Listing(d, listing)
    ensures NoTwins(d) ==> Distinct(Expired(PrunePolicy(d, config, now), listing))
  {
    hide Listing, NoTwins, Expired;
    if NoTwins(d) {
      ListingIsDistinct(d, listing);
      ExpiredOnce(PrunePolicy(d, config, now), listing);
    }
  }

  class SnapshotStore {
    const compression: bool
    var disk: Disk
    /** Every disk there has been, the present one last. */
    ghost var trace: seq<Disk>
    /** How many reads and writes have failed. */
    ghost var faults: nat
    /** Every id whose snapshot was here at the start or has been written since. */
    ghost var written: set<Id>
    /** The shortest policy a prune has been told, and the latest time one has worked with. */
    ghost var windows: Config
    ghost var latest: int

    constructor (compression: bool, disk: Disk, ghost windows: Config, ghost start: int)
      ensures Valid() && this.compression == compression && this.disk == disk && trace == [disk] && faults == 0
      ensures written == (set e | e in Recognised(disk) :: e.id) && this.windows == windows && latest == start
    {
      this.compression := compression;
      this.disk := disk;
      trace := [disk];
      faults := 0;
      written := set e | e in Recognised(disk) :: e.id;
      this.windows := windows;
      latest := start;
      new;
      StoredIsRetained(disk, windows, start);
    }

    ghost predicate Valid()
      reads this
    {
      trace != [] && trace[|trace| - 1] == disk && Retains(disk, windows, latest, written)
    }

    /** Nothing was written and nothing pruned. */
    twostate predicate Rests()
      reads this
    {
      written == old(written) && windows == old(windows) && latest == old(latest)
    }

    /** At most snapshots were written, and prunes told this policy. */
    twostate predicate Proceeds(config: Config)
      reads this
    {
      && old(written) <= written && old(latest) <= latest
      && Longer(windows, Shorter(old(windows), config))
    }

    /** One atomic replacement or removal of a file. It may fail before or after it took effect. */
    method Step(next: Disk, ghost newly: Option<Id>) returns (ok: bool)
      requires Valid() && Retains(next, windows, latest, With(written, newly))
      modifies this`disk, this`trace, this`faults, this`written
      ensures Valid() && trace == old(trace) + [disk]
      ensures || (disk == next && written == With(old(written), newly))
              || (!ok && disk == old(disk) && written == old(written))
      ensures ok ==> disk == next && faults == old(faults)
      ensures !ok ==> faults == old(faults) + 1
    {
      ok := *;
      var done := *;
      if ok || done {
        disk := next;
        written := With(written, newly);
      }
      if !ok {
        faults := faults + 1;
      }
      trace := trace + [disk];
    }

    /** A read may fail whatever is on disk. */
    method ReadFails() returns (failed: bool)
      modifies this`faults
      ensures faults == old(faults) + if failed then 1 else 0
    {
      failed := *;
      if failed {
        faults := faults + 1;
      }
    }

    method ReadPointer() returns (r: Result<Option<PointerFile>, StoreError>)
      modifies this`faults
      ensures old(faults) <= faults
      ensures faults == old(faults) ==> r == PointerOf(disk)
      ensures r.Ok? ==> r == PointerOf(disk)
    {
      var failed := ReadFails();
      if failed {
        return Err(Io);
      }
      return PointerOf(disk);
    }

    method LoadPath(file: FileName) returns (r: Result<Snapshot, StoreError>)
      modifies this`faults
      ensures old(faults) <= faults
      ensures r.Ok? ==> BodyAt(disk, file) == Some(r.value)
      ensures r.Err? ==> BodyAt(disk, file) == None || faults > old(faults)
    {
      hide WellFormed;
      var failed := ReadFails();
      if failed {
        return Err(Io);
      }
      if file !in disk.bodies {
        return Err(NotFound);
      }
      match disk.bodies[file] {
        case Whole(snapshot) =>
          var valid := ValidateSnapshot(snapshot);
          if valid.Fail? {
            return Err(Invalid(valid.error));
          }
          if snapshot.id != file.id {
            return Err(WrongTarget);
          }
          return Ok(snapshot);
        case _ =>
          return Err(Unreadable);
      }
    }

    method LoadCurrent() returns (r: Result<Snapshot, StoreError>)
      modifies this`faults
      ensures old(faults) <= faults
      ensures r.Ok? ==> Current(disk) == Some(r.value)
      ensures r.Err? ==> Current(disk) == None || faults > old(faults)
    {
      hide ValidSnapshot;
      var pointer := ReadPointer();
      if pointer.Err? {
        return Err(pointer.error);
      }
      if pointer.value.None? {
        return Err(NoCurrent);
      }
      var p := pointer.value.value;
      var body := LoadPath(p.file.value);
      if body.Err? {
        return body;
      }
      if body.value.id != p.id || Some(body.value.semanticHash) != p.hash {
        return Err(WrongTarget);
      }
      return body;
    }

    /** The current snapshot's id, when its body has this origin and this structure. */
    method CurrentIdIfStructureMatches(origin: Origin, structure: Shape) returns (r: Option<Id>)
      modifies this`faults
      ensures r.Some? ==> Current(disk).Some? && Current(disk).value.id == r.value
                          && Current(disk).value.origin == origin
                          && StructuralView(Current(disk).value.state) == structure
      ensures r.None? && faults == old(faults) && Current(disk).Some? && Current(disk).value.origin == origin
              ==> StructuralView(Current(disk).value.state) != structure
      ensures faults >= old(faults)
    {
      hide StructuralView, ValidSnapshot;
      var current := LoadCurrent();
      if current.Ok? && current.value.origin == origin && StructuralView(current.value.state) == structure {
        return Some(current.value.id);
      }
      return None;
    }

    /** Writes a snapshot unless the current one already says the same, and makes it current.
        Whatever was on disk before, success with `setCurrent` means the current snapshot loads and has
        the committed origin and structure. */
    method Commit(s: Snapshot, setCurrent: bool, dedup: Dedup) returns (r: Result<CommitOutcome, StoreError>)
      requires Valid()
      modifies this
      ensures Valid() && faults >= old(faults)
      ensures old(trace) <= trace
      ensures forall k | |old(trace)| <= k < |trace| ::
                Committing(old(disk), s, compression, setCurrent, trace[k])
      ensures !ValidSnapshot(s) ==> r.Err? && disk == old(disk) && trace == old(trace)
      ensures r == Ok(Written) ==>
                disk == if setCurrent then WithCurrent(WithBody(old(disk), s, compression), s, compression)
                        else WithBody(old(disk), s, compression)
      ensures r == Ok(Unchanged) ==>
                disk == old(disk) && trace == old(trace) && setCurrent && dedup == OnUnchangedStructure
      ensures r.Ok? && setCurrent ==>
                && Current(disk).Some?
                && Current(disk).value.origin == s.origin
                && StructuralView(Current(disk).value.state) == StructuralView(s.state)
      ensures r == Ok(Written) && setCurrent ==> Current(disk) == Some(s)
      ensures windows == old(windows) && latest == old(latest)
      ensures old(written) <= written && (r == Ok(Written) ==> s.id in written)
      ensures faults == old(faults) && ValidSnapshot(s) ==> r.Ok?
      ensures r == Ok(Written) && faults == old(faults) && setCurrent && dedup == OnUnchangedStructure
              && old(Current(disk)).Some? ==>
                !(old(Current(disk)).value.origin == s.origin
                  && StructuralView(old(Current(disk)).value.state) == StructuralView(s.state))
    {
      hide StructuralView, WellFormed, Current, Retains;
      var valid := ValidateSnapshot(s);
      if valid.Fail? {
        return Err(Invalid(valid.error));
      }
      if dedup == OnUnchangedStructure && setCurrent {
        var current := LoadCurrent();
        if current.Ok? && current.value.origin == s.origin
           && StructuralView(current.value.state) == StructuralView(s.state) {
          return Ok(Unchanged);
        }
      }
      CommitRetainsMore(disk, s, compression, windows, latest, written);
      var body := Step(WithBody(disk, s, compression), Some(s.id));
      if !body {
        return Err(Io);
      }
      if setCurrent {
        RetainsSame(disk, WithCurrent(disk, s, compression), windows, latest, written);
        var pointer := Step(WithCurrent(disk, s, compression), None);
        if !pointer {
          return Err(Io);
        }
        CommittedCurrent(old(disk), s, compression);
      }
      return Ok(Written);
    }

    /** A file whose id cannot be read is skipped; so is one whose contents claim another id, and one
        whose id carries no time. */
    method Entries() returns (listing: seq<Entry>)
      modifies this`faults
      ensures faults >= old(faults)
      ensures Listing(disk, listing)
      ensures faults == old(faults) ==> Elements(listing) == Recognised(disk)
    {
      hide RecognisedFile, Collected, Listing, Complete;
      var files := disk.bodies.Keys;
      ghost var seen: set<FileName> := {};
      listing := [];
      NoneCollected(disk);
      while files != {}
        invariant files + seen == disk.bodies.Keys && files !! seen
        invariant faults >= old(faults) && Collected(disk, seen, listing)
        invariant faults == old(faults) ==> Complete(disk, seen, listing)
        decreases |files|
      {
        var file :| file in files;
        var failed := ReadFails();
        CollectStep(disk, seen, listing, file);
        if !failed && RecognisedFile(disk, file) {
          listing := InsertNewest(EntryOf(file), listing);
        }
        files, seen := files - {file}, seen + {file};
      }
      AllCollected(disk, seen, listing);
    }

    /** Removes the doomed files one by one, in the order of the listing. */
    method RemoveDoomed(entries: seq<Entry>, keep: set<Id>) returns (r: Result<seq<Id>, StoreError>)
      requires Valid() && Expendable(disk, Doomed(entries, keep), windows, latest, written)
      modifies this`disk, this`trace, this`faults, this`written
      ensures Rests()
      ensures Valid() && old(trace) <= trace && faults >= old(faults)
      ensures forall k | |old(trace)| <= k < |trace| :: Removing(old(disk), Doomed(entries, keep), trace[k])
      ensures Removing(old(disk), Doomed(entries, keep), disk)
      ensures r.Ok? ==> disk == old(disk).(bodies := old(disk).bodies - Doomed(entries, keep))
      ensures r.Ok? ==> Elements(r.value) == Ids(entries) - keep
      ensures r.Err? ==> faults > old(faults)
    {
      hide Doomed, Ids, Removing, Retains, Expendable;
      var removed := [];
      ghost var gone: set<FileName> := {};
      RemovalStarts(disk, entries, keep);
      for i := 0 to |entries|
        invariant Valid() && old(trace) <= trace && faults == old(faults) && Rests()
        invariant gone == Doomed(entries[..i], keep) && gone <= Doomed(entries, keep)
        invariant disk == old(disk).(bodies := old(disk).bodies - gone)
        invariant Elements(removed) == Ids(entries[..i]) - keep
        invariant forall k | |old(trace)| <= k < |trace| :: Removing(old(disk), Doomed(entries, keep), trace[k])
      {
        var e := entries[i];
        DoomedStep(entries, keep, i);
        if e.id !in keep {
          OneMoreGone(old(disk), Doomed(entries, keep), gone, FileOf(e), windows, latest, written);
          var ok := Step(disk.(bodies := disk.bodies - {FileOf(e)}), None);
          RemovalStep(old(disk), Doomed(entries, keep), gone, FileOf(e), disk);
          if !ok {
            return Err(Io);
          }
          gone := gone + {FileOf(e)};
          assert Elements(removed + [e.id]) == Elements(removed) + {e.id};
          removed := removed + [e.id];
        }
      }
      RemovalEnds(old(disk), entries, keep);
      assert entries[..|entries|] == entries;
      return Ok(removed);
    }

    method RemoveMarkers(expired: seq<Id>) returns (r: Outcome<StoreError>)
      requires Valid()
      modifies this`disk, this`trace, this`faults, this`written
      ensures Rests()
      ensures Valid() && old(trace) <= trace && faults >= old(faults)
      ensures forall k | |old(trace)| <= k < |trace| :: Unmarking(old(disk), Elements(expired), trace[k])
      ensures Unmarking(old(disk), Elements(expired), disk)
      ensures r.Pass? ==> Distinct(expired) && Elements(expired) <= old(disk).safety
      ensures r.Fail? ==> faults > old(faults) || !Distinct(expired) || !(Elements(expired) <= old(disk).safety)
      ensures r.Pass? ==> disk == old(disk).(safety := old(disk).safety - Elements(expired))
    {
      hide Retains;
      for i := 0 to |expired|
        invariant Valid() && old(trace) <= trace && faults == old(faults) && Rests()
        invariant disk == old(disk).(safety := old(disk).safety - Elements(expired[..i]))
        invariant Distinct(expired[..i]) && Elements(expired[..i]) <= old(disk).safety
        invariant forall k | |old(trace)| <= k < |trace| :: Unmarking(old(disk), Elements(expired), trace[k])
      {
        assert expired[..i + 1] == expired[..i] + [expired[i]];
        assert Elements(expired[..i + 1]) == Elements(expired[..i]) + {expired[i]};
        if expired[i] !in disk.safety {
          MarkerIsGone(old(disk).safety, expired, i);
          return Fail(MarkerGone);
        }
        DistinctAppend(expired[..i], expired[i]);
        RetainsSame(disk, disk.(safety := disk.safety - {expired[i]}), windows, latest, written);
        var ok := Step(disk.(safety := disk.safety - {expired[i]}), None);
        if !ok {
          return Fail(Io);
        }
      }
      assert expired[..|expired|] == expired;
      return Pass;
    }

    /** First the doomed files go, then the expired marks. */
    method RemoveAll(entries: seq<Entry>, keep: set<Id>, expired: seq<Id>) returns (r: Result<seq<Id>, StoreError>)
      requires Valid() && Expendable(disk, Doomed(entries, keep), windows, latest, written)
      requires Elements(expired) <= disk.safety
      modifies this`disk, this`trace, this`faults, this`written
      ensures Rests() && Valid() && old(trace) <= trace && faults >= old(faults)
      ensures forall k | |old(trace)| <= k < |trace| ::
                Pruning(old(disk), Doomed(entries, keep), Elements(expired), trace[k])
      ensures faults == old(faults) ==> (r.Ok? <==> Distinct(expired))
      ensures r.Ok? ==>
                && disk == old(disk).(bodies := old(disk).bodies - Doomed(entries, keep),
                                      safety := old(disk).safety - Elements(expired))
                && Elements(r.value) == Ids(entries) - keep
    {
      hide Pruning, Removing, Unmarking, Doomed, Ids, Distinct, Retains, Expendable;
      r := RemoveDoomed(entries, keep);
      RemovingIsPruning(trace, |old(trace)|, old(disk), Doomed(entries, keep), Elements(expired));
      if r.Err? {
        return;
      }
      ghost var half, from := disk, |trace|;
      var marks := RemoveMarkers(expired);
      UnmarkingIsPruning(trace, |old(trace)|, from, old(disk), half, Doomed(entries, keep), Elements(expired));
      if marks.Fail? {
        return Err(marks.error);
      }
    }

    /** Applies the retention policy. A bad current pointer stops it before anything is removed. */
    method Prune(config: Config, now: int) returns (r: Result<seq<Id>, StoreError>, ghost listing: seq<Entry>)
      requires Valid()
      modifies this
      ensures Valid() && old(trace) <= trace && faults >= old(faults)
      ensures Listing(old(disk), listing)
      ensures faults == old(faults) && PointerOf(old(disk)).Ok? ==> Elements(listing) == Recognised(old(disk))
      ensures var p := PrunePolicy(old(disk), config, now);
              forall k | |old(trace)| <= k < |trace| ::
                Pruning(old(disk), Doomed(listing, Keep(p, listing)), Elements(Expired(p, listing)), trace[k])
      ensures SteadySince(trace, |old(trace)|, old(disk))
      ensures Current(disk) == old(Current(disk))
      ensures Proceeds(config) && written == old(written)
      ensures latest == old(latest) || latest == Later(old(latest), now)
      ensures PointerOf(old(disk)).Err? ==> r.Err? && disk == old(disk) && trace == old(trace)
      ensures PointerOf(old(disk)).Ok? && faults == old(faults)
              ==> (r.Ok? <==> Distinct(Expired(PrunePolicy(old(disk), config, now), listing)))
      ensures r.Ok? ==> Pruned(old(disk), config, now, faults == old(faults), disk)
      ensures r.Ok? ==>
                var p := PrunePolicy(old(disk), config, now);
                && disk == old(disk).(bodies := old(disk).bodies - Doomed(listing, Keep(p, listing)),
                                      safety := old(disk).safety - Elements(Expired(p, listing)))
                && Elements(r.value) == Ids(listing) - Keep(p, listing)
    {
      hide Keep, Expired, Current, Pruning, Removing, Unmarking, Doomed, Ids, Listing, Recognised, Distinct, Retains,
           Expendable;
      listing := [];
      NothingListed(disk);
      var pointer := ReadPointer();
      if pointer.Err? {
        return Err(pointer.error), [];
      }
      var entries := Entries();
      listing := entries;
      var current := if pointer.value.Some? then Some(pointer.value.value.id) else None;
      ghost var p := PrunePolicy(disk, config, now);
      var keep, expired := Decide(entries, Policy(config, now, disk.pins, current, disk.safety));
      assert keep == Keep(p, listing) && expired == Expired(p, listing);
      DoomedIsExpendable(disk, config, now, listing, windows, latest, written);
      NoneGone(disk, Doomed(entries, keep), Shorter(windows, config), Later(latest, now), written);
      windows, latest := Shorter(windows, config), Later(latest, now);
      ExpiredMarked(p, entries);
      r := RemoveAll(entries, keep, expired);
      PruneSteady(trace, |old(trace)|, old(disk), config, now, listing);
    }

    /** Whether nothing was ever stored here; a lost pointer does not make a store empty. */
    method IsEmpty() returns (r: Result<bool, StoreError>)
      modifies this`faults
      ensures faults >= old(faults)
      ensures r.Ok? ==> r.value == (disk.pointer.None? && disk.bodies.Keys == {})
      ensures r.Err? ==> faults > old(faults)
    {
      var failed := ReadFails();
      if failed {
        return Err(Io);
      }
      if disk.pointer.Some? {
        return Ok(false);
      }
      return Ok(disk.bodies.Keys == {});
    }

    /** A snapshot by the start of its file name, which has to be the start of one name only. */
    method Load(query: Query) returns (r: Result<Snapshot, StoreError>)
      modifies this`faults
      ensures faults >= old(faults)
      ensures r.Ok? && query.CurrentSnapshot? ==> Current(disk) == Some(r.value)
      ensures r.Ok? && query.Prefix? ==>
                exists f :: Finds(disk, query, f) && BodyAt(disk, f) == Some(r.value)
      ensures faults == old(faults) && (exists f :: Finds(disk, query, f)) ==> r.Ok?
      ensures faults == old(faults) && query.Prefix? && (forall f | f in disk.bodies :: !query.matches(f))
              ==> r == Err(NotFound)
      ensures faults == old(faults) && query.Prefix?
              && (exists f, g :: f in disk.bodies && g in disk.bodies && f != g && query.matches(f) && query.matches(g))
              ==> r == Err(Ambiguous)
    {
      hide ValidSnapshot, Current;
      if query.CurrentSnapshot? {
        r := LoadCurrent();
        return;
      }
      var failed := ReadFails();
      if failed {
        return Err(Io);
      }
      var candidates := set f | f in disk.bodies && query.matches(f);
      if candidates == {} {
        NoneFound(disk, query, candidates);
        forall f | f in disk.bodies ensures !query.matches(f) {
          assert f !in candidates;
        }
        return Err(NotFound);
      }
      var file :| file in candidates;
      if candidates - {file} != {} {
        ManyFound(disk, query, candidates, file);
        return Err(Ambiguous);
      }
      forall g | g in disk.bodies && query.matches(g) ensures g == file {
        assert g in candidates;
        assert g !in candidates - {file};
      }
      r := LoadPath(file);
      assert r.Ok? ==> Finds(disk, query, file);
    }

    method Pin(query: Query) returns (r: Result<Id, StoreError>)
      requires Valid()
      modifies this`disk, this`trace, this`faults, this`written
      ensures Rests()
      ensures Valid() && old(trace) <= trace && faults >= old(faults)
      ensures SteadySince(trace, |old(trace)|, old(disk))
      ensures Current(disk) == old(Current(disk))
      ensures faults == old(faults) && (exists f :: Finds(old(disk), query, f)) ==> r.Ok?
      ensures r.Ok? && query.Prefix? ==> exists f :: Finds(old(disk), query, f) && f.id == r.value
      ensures r.Ok? ==> Stored(old(disk), r.value) && disk == old(disk).(pins := old(disk).pins + {r.value})
      ensures r.Err? ==>
                disk == old(disk)
                || exists id :: Stored(old(disk), id) && disk == old(disk).(pins := old(disk).pins + {id})
    {
      hide Current, Retains;
      var snapshot := Load(query);
      if snapshot.Err? {
        return Err(snapshot.error);
      }
      assert Stored(disk, snapshot.value.id) by {
        LoadedIsStored(disk, snapshot.value);
      }
      RetainsSame(disk, disk.(pins := disk.pins + {snapshot.value.id}), windows, latest, written);
      var ok := Step(disk.(pins := disk.pins + {snapshot.value.id}), None);
      MarkersElsewhere(old(disk), disk.pins, disk.safety);
      if !ok {
        return Err(Io);
      }
      return Ok(snapshot.value.id);
    }

    method Unpin(query: Query) returns (r: Result<Id, StoreError>)
      requires Valid()
      modifies this`disk, this`trace, this`faults, this`written
      ensures Rests()
      ensures Valid() && old(trace) <= trace && faults >= old(faults)
      ensures SteadySince(trace, |old(trace)|, old(disk))
      ensures Current(disk) == old(Current(disk))
      ensures faults == old(faults) && (exists f :: Finds(old(disk), query, f)) ==> r.Ok?
      ensures r.Ok? && query.Prefix? ==> exists f :: Finds(old(disk), query, f) && f.id == r.value
      ensures r.Ok? ==> Stored(old(disk), r.value) && disk == old(disk).(pins := old(disk).pins - {r.value})
      ensures r.Err? ==>
                disk == old(disk)
                || exists id :: Stored(old(disk), id) && disk == old(disk).(pins := old(disk).pins - {id})
    {
      hide Current, Retains;
      var snapshot := Load(query);
      if snapshot.Err? {
        return Err(snapshot.error);
      }
      assert Stored(disk, snapshot.value.id) by {
        LoadedIsStored(disk, snapshot.value);
      }
      if snapshot.value.id in disk.pins {
        RetainsSame(disk, disk.(pins := disk.pins - {snapshot.value.id}), windows, latest, written);
        var ok := Step(disk.(pins := disk.pins - {snapshot.value.id}), None);
        MarkersElsewhere(old(disk), disk.pins, disk.safety);
        if !ok {
          return Err(Io);
        }
      }
      return Ok(snapshot.value.id);
    }

    method MarkSafety(query: Query) returns (r: Result<Id, StoreError>)
      requires Valid()
      modifies this`disk, this`trace, this`faults, this`written
      ensures Rests()
      ensures Valid() && old(trace) <= trace && faults >= old(faults) && (r.Ok? ==> |old(trace)| < |trace|)
      ensures SteadySince(trace, |old(trace)|, old(disk))
      ensures Current(disk) == old(Current(disk))
      ensures faults == old(faults) && (exists f :: Finds(old(disk), query, f)) ==> r.Ok?
      ensures r.Ok? && query.Prefix? ==> exists f :: Finds(old(disk), query, f) && f.id == r.value
      ensures r.Ok? ==> Stored(old(disk), r.value) && disk == old(disk).(safety := old(disk).safety + {r.value})
      ensures r.Err? ==>
                disk == old(disk)
                || exists id :: Stored(old(disk), id) && disk == old(disk).(safety := old(disk).safety + {id})
    {
      hide Current, Retains;
      var snapshot := Load(query);
      if snapshot.Err? {
        return Err(snapshot.error);
      }
      assert Stored(disk, snapshot.value.id) by {
        LoadedIsStored(disk, snapshot.value);
      }
      RetainsSame(disk, disk.(safety := disk.safety + {snapshot.value.id}), windows, latest, written);
      var ok := Step(disk.(safety := disk.safety + {snapshot.value.id}), None);
      MarkersElsewhere(old(disk), disk.pins, disk.safety);
      if !ok {
        return Err(Io);
      }
      return Ok(snapshot.value.id);
    }

    // ----- The process sidecar -----

    method ReadCheckpoint() returns (r: Result<Option<Checkpoint>, StoreError>)
      modifies this`faults
      ensures faults >= old(faults)
      ensures r == Ok(None) ==> disk.sidecar == None
      ensures r.Ok? && r.value.Some? ==> disk.sidecar == Some(Sidecar(r.value.value)) && ValidCheckpoint(r.value.value)
      ensures faults == old(faults) && disk.sidecar.Some? && disk.sidecar.value.Sidecar?
              && ValidCheckpoint(disk.sidecar.value.checkpoint)
              ==> r.Ok? && r.value.Some?
    {
      var failed := ReadFails();
      if failed {
        return Err(Io);
      }
      match disk.sidecar {
        case None => return Ok(None);
        case Some(BadSidecar) => return Err(Unreadable);
        case Some(Sidecar(checkpoint)) =>
          var valid := ValidateCheckpoint(checkpoint);
          if valid.Fail? {
            return Err(InvalidCheckpoint(valid.error));
          }
          return Ok(Some(checkpoint));
      }
    }

    method WriteCheckpoint(c: Checkpoint) returns (r: Outcome<StoreError>)
      requires Valid()
      modifies this`disk, this`trace, this`faults, this`written
      ensures Rests()
      ensures Valid() && old(trace) <= trace && faults >= old(faults)
      ensures forall k | |old(trace)| <= k < |trace| :: SidecarOnly(old(disk), Some(Sidecar(c)), trace[k])
      ensures SidecarOnly(old(disk), Some(Sidecar(c)), disk)
      ensures r.Pass? ==> disk == old(disk).(sidecar := Some(Sidecar(c))) && ValidCheckpoint(c)
      ensures !ValidCheckpoint(c) ==> trace == old(trace)
      ensures r.Fail? ==> !ValidCheckpoint(c) || faults > old(faults)
    {
      hide Retains;
      var valid := ValidateCheckpoint(c);
      if valid.Fail? {
        return Fail(InvalidCheckpoint(valid.error));
      }
      RetainsSame(disk, disk.(sidecar := Some(Sidecar(c))), windows, latest, written);
      var ok := Step(disk.(sidecar := Some(Sidecar(c))), None);
      if !ok {
        return Fail(Io);
      }
      return Pass;
    }

    method RemoveCheckpoint() returns (r: Result<bool, StoreError>)
      requires Valid()
      modifies this`disk, this`trace, this`faults, this`written
      ensures Rests()
      ensures Valid() && old(trace) <= trace && faults >= old(faults)
      ensures forall k | |old(trace)| <= k < |trace| :: SidecarOnly(old(disk), None, trace[k])
      ensures SidecarOnly(old(disk), None, disk)
      ensures r.Ok? ==> disk == old(disk).(sidecar := None) && r.value == old(disk).sidecar.Some?
      ensures r.Err? ==> faults > old(faults)
    {
      hide Retains;
      if disk.sidecar.None? {
        return Ok(false);
      }
      RetainsSame(disk, disk.(sidecar := None), windows, latest, written);
      var ok := Step(disk.(sidecar := None), None);
      if !ok {
        return Err(Io);
      }
      return Ok(true);
    }
  }

  ghost predicate Stored(d: Disk, id: Id) {
    exists f :: f in d.bodies && BodyAt(d, f).Some? && BodyAt(d, f).value.id == id
  }

  lemma LoadedIsStored(d: Disk, s: Snapshot)
    requires Current(d) == Some(s) || exists f :: f in d.bodies && BodyAt(d, f) == Some(s)
    ensures Stored(d, s.id)
  {
    hide ValidSnapshot;
    if Current(d) == Some(s) {
      assert BodyAt(d, d.pointer.value.file.value) == Some(s);
    }
  }

  lemma MarkersElsewhere(d: Disk, pins: set<Id>, safety: set<Id>)
    ensures Current(d.(pins := pins, safety := safety)) == Current(d)
  {
    hide ValidSnapshot;
  }
}
