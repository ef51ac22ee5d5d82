/** Retention over whole histories of a store: snapshots are committed, pinned, unpinned and marked,
    time passes, and prunes run, any of which may stop half way. */
module RetentionRuns {
  import opened Wrappers
  import opened Retention

  /** What a store has seen and what it still holds. */
  datatype History = History(
    clock: int, committed: set<Id>, stored: set<Entry>, pins: set<Id>, current: Option<Id>, safety: set<Id>)

  datatype Step =
    | Commit(entry: Entry, setCurrent: bool)
    | Pin(id: Id)
    | Unpin(id: Id)
    | MarkSafety(id: Id)
    | Tick(to: int)
    | Prune(listing: seq<Entry>, survivors: set<Entry>, marks: set<Id>)

  function PolicyOf(config: Config, h: History): Policy {
    Policy(config, h.clock, h.pins, h.current, h.safety)
  }

  predicate StampedEntry(e: Entry) {
    e.id.Stamped? && e.id.stamp == e.stamp
  }

  /** A prune sees each stored file at most once, newest first, files of one time in any order. A file
      whose id cannot be read just then is not seen at all. */
  ghost predicate Lists(h: History, listing: seq<Entry>) {
    Elements(listing) <= h.stored && Distinct(listing) && NewestFirst(listing)
  }

  /** What must be left of the stored files. */
  function Survivors(keep: set<Id>, listing: seq<Entry>, stored: set<Entry>): set<Entry> {
    set e | e in stored && (e !in listing || e.id in keep)
  }

  /** A finished prune leaves exactly what it keeps; one that stopped half way leaves more. */
  ghost predicate Next(config: Config, h: History, step: Step, h': History) {
    match step
    case Commit(entry, setCurrent) =>
      && StampedEntry(entry)
      && h' == h.(committed := h.committed + {entry.id}, stored := h.stored + {entry},
                  current := if setCurrent then Some(entry.id) else h.current)
    case Pin(id) => h' == h.(pins := h.pins + {id})
    case Unpin(id) => h' == h.(pins := h.pins - {id})
    case MarkSafety(id) => h' == h.(safety := h.safety + {id})
    case Tick(to) => to >= h.clock && h' == h.(clock := to)
    case Prune(listing, survivors, marks) =>
      && Lists(h, listing)
      && Survivors(Keep(PolicyOf(config, h), listing), listing, h.stored) <= survivors <= h.stored
      && h.safety - Elements(Expired(PolicyOf(config, h), listing)) <= marks <= h.safety
      && h' == h.(stored := survivors, safety := marks)
  }

  ghost predicate Start(h: History) {
    (forall e | e in h.stored :: StampedEntry(e)) && h.committed == set e | e in h.stored :: e.id
  }

  ghost predicate Run(config: Config, states: seq<History>, steps: seq<Step>) {
    && |states| == |steps| + 1
    && Start(states[0])
    && forall i | 0 <= i < |steps| :: Next(config, states[i], steps[i], states[i + 1])
  }

  // ----- What is never lost -----

  ghost predicate HourHeld(stored: set<Entry>, stamp: int) {
    exists e :: e in stored && HourOf(e.stamp) == HourOf(stamp) && e.stamp >= stamp
  }

  ghost predicate DayHeld(stored: set<Entry>, stamp: int) {
    exists e :: e in stored && DayOf(e.stamp) == DayOf(stamp) && e.stamp >= stamp
  }

  ghost predicate Recorded(h: History) {
    && (forall e | e in h.stored :: StampedEntry(e) && e.id in h.committed)
    && (forall id | id in h.committed :: id.Stamped?)
  }

  ghost predicate Retained(config: Config, h: History) {
    && Recorded(h)
    && (forall id {:trigger HourHeld(h.stored, id.stamp)} |
          id in h.committed && h.clock - id.stamp <= config.hourlyDays * DAY :: HourHeld(h.stored, id.stamp))
    && (forall id {:trigger DayHeld(h.stored, id.stamp)} |
          id in h.committed && h.clock - id.stamp <= config.dailyDays * DAY :: DayHeld(h.stored, id.stamp))
  }

  lemma StartRetains(config: Config, h: History)
    requires Start(h)
    ensures Retained(config, h)
  {
    forall id | id in h.committed ensures id.Stamped? && HourHeld(h.stored, id.stamp) && DayHeld(h.stored, id.stamp) {
      var e :| e in h.stored && e.id == id;
      assert StampedEntry(e);
    }
  }

  /** One policy keeps everything for at least as long as another. */
  predicate Longer(a: Config, b: Config) {
    a.hourlyDays >= b.hourlyDays && a.dailyDays >= b.dailyDays
  }

  lemma PruneRetainsHour(p: Policy, h: History, listing: seq<Entry>, stamp: int)
    requires Lists(h, listing) && HourHeld(h.stored, stamp) && p.now - stamp <= p.config.hourlyDays * DAY
    ensures HourHeld(Survivors(Keep(p, listing), listing, h.stored), stamp)
  {
    hide Keep;
    var e :| e in h.stored && HourOf(e.stamp) == HourOf(stamp) && e.stamp >= stamp;
    if e !in listing {
      assert e in Survivors(Keep(p, listing), listing, h.stored);
      return;
    }
    var i :| 0 <= i < |listing| && listing[i] == e;
    NewestOfHourKept(p, listing, i);
    var k :| 0 <= k < |listing| && listing[k].id in Keep(p, listing)
             && HourOf(listing[k].stamp) == HourOf(e.stamp) && listing[k].stamp >= e.stamp;
    assert listing[k] in Elements(listing);
    assert listing[k] in Survivors(Keep(p, listing), listing, h.stored);
  }

  lemma PruneRetainsDay(p: Policy, h: History, listing: seq<Entry>, stamp: int)
    requires Lists(h, listing) && DayHeld(h.stored, stamp) && p.now - stamp <= p.config.dailyDays * DAY
    ensures DayHeld(Survivors(Keep(p, listing), listing, h.stored), stamp)
  {
    hide Keep;
    var e :| e in h.stored && DayOf(e.stamp) == DayOf(stamp) && e.stamp >= stamp;
    if e !in listing {
      assert e in Survivors(Keep(p, listing), listing, h.stored);
      return;
    }
    var i :| 0 <= i < |listing| && listing[i] == e;
    NewestOfDayKept(p, listing, i);
    var k :| 0 <= k < |listing| && listing[k].id in Keep(p, listing)
             && DayOf(listing[k].stamp) == DayOf(e.stamp) && listing[k].stamp >= e.stamp;
    assert listing[k] in Elements(listing);
    assert listing[k] in Survivors(Keep(p, listing), listing, h.stored);
  }

  lemma Grows(a: set<Entry>, b: set<Entry>, stamp: int)
    requires a <= b
    ensures HourHeld(a, stamp) ==> HourHeld(b, stamp)
    ensures DayHeld(a, stamp) ==> DayHeld(b, stamp)
  {
  }

  lemma CommitRetains(config: Config, h: History, h': History, entry: Entry)
    requires Retained(config, h) && StampedEntry(entry) && h'.clock == h.clock
    requires h'.committed == h.committed + {entry.id} && h'.stored == h.stored + {entry}
    ensures Retained(config, h')
  {
    assert entry in h'.stored;
    forall id | id in h'.committed && h'.clock - id.stamp <= config.hourlyDays * DAY
      ensures HourHeld(h'.stored, id.stamp)
    {
      Grows(h.stored, h'.stored, id.stamp);
    }
    forall id | id in h'.committed && h'.clock - id.stamp <= config.dailyDays * DAY
      ensures DayHeld(h'.stored, id.stamp)
    {
      Grows(h.stored, h'.stored, id.stamp);
    }
  }

  /** A prune may use a longer policy than the one that is promised, and a clock that is behind. */
  lemma PruneRetains(config: Config, p: Policy, h: History, h': History, listing: seq<Entry>)
    requires Retained(config, h) && Lists(h, listing) && p.now <= h.clock && Longer(p.config, config)
    requires Survivors(Keep(p, listing), listing, h.stored) <= h'.stored <= h.stored
    requires h'.clock == h.clock && h'.committed == h.committed
    ensures Retained(config, h')
  {
    hide Keep, Lists, HourHeld, DayHeld;
    var kept := Survivors(Keep(p, listing), listing, h.stored);
    forall id | id in h.committed && h.clock - id.stamp <= config.hourlyDays * DAY
      ensures HourHeld(h'.stored, id.stamp)
    {
      PruneRetainsHour(p, h, listing, id.stamp);
      Grows(kept, h'.stored, id.stamp);
    }
    forall id | id in h.committed && h.clock - id.stamp <= config.dailyDays * DAY ensures DayHeld(h'.stored, id.stamp) {
      PruneRetainsDay(p, h, listing, id.stamp);
      Grows(kept, h'.stored, id.stamp);
    }
  }

  /** What is retained now is retained for a shorter policy, and as time passes. */
  lemma RetainedLess(config: Config, h: History, less: Config, clock: int)
    requires Retained(config, h) && Longer(config, less) && clock >= h.clock
    ensures Retained(less, h.(clock := clock))
  {
  }

  lemma StepRetains(config: Config, h: History, step: Step, h': History)
    requires Retained(config, h) && Next(config, h, step, h')
    ensures Retained(config, h')
  {
    hide Keep, Expired, Lists, HourHeld, DayHeld;
    match step
    case Commit(entry, _) => CommitRetains(config, h, h', entry);
    case Prune(listing, _, _) => PruneRetains(config, PolicyOf(config, h), h, h', listing);
    case _ =>
  }

  lemma {:induction false} RunRetains(config: Config, states: seq<History>, steps: seq<Step>, i: nat)
    requires Run(config, states, steps) && i < |states|
    ensures Retained(config, states[i])
  {
    hide Retained, Next, Start;
    if i == 0 {
      StartRetains(config, states[0]);
    } else {
      RunRetains(config, states, steps, i - 1);
      assert Next(config, states[i - 1], steps[i - 1], states[i]);
      StepRetains(config, states[i - 1], steps[i - 1], states[i]);
    }
  }

  ghost predicate Holds(stored: set<Entry>, id: Id) {
    exists e :: e in stored && e.id == id
  }

  ghost predicate NewestOfHour(committed: set<Id>, id: Id) {
    id.Stamped? && forall other | other in committed && other.Stamped? && other != id ::
      HourOf(other.stamp) == HourOf(id.stamp) ==> other.stamp < id.stamp
  }

  ghost predicate NewestOfDay(committed: set<Id>, id: Id) {
    id.Stamped? && forall other | other in committed && other.Stamped? && other != id ::
      DayOf(other.stamp) == DayOf(id.stamp) ==> other.stamp < id.stamp
  }

  lemma HeldNewestOfHour(h: History, id: Id)
    requires Recorded(h) && NewestOfHour(h.committed, id) && HourHeld(h.stored, id.stamp)
    ensures Holds(h.stored, id)
  {
    var e :| e in h.stored && HourOf(e.stamp) == HourOf(id.stamp) && e.stamp >= id.stamp;
    assert StampedEntry(e) && e.id in h.committed;
  }

  lemma HeldNewestOfDay(h: History, id: Id)
    requires Recorded(h) && NewestOfDay(h.committed, id) && DayHeld(h.stored, id.stamp)
    ensures Holds(h.stored, id)
  {
    var e :| e in h.stored && DayOf(e.stamp) == DayOf(id.stamp) && e.stamp >= id.stamp;
    assert StampedEntry(e) && e.id in h.committed;
  }

  lemma NewestHeld(config: Config, h: History, id: Id)
    requires Retained(config, h) && id in h.committed && id.Stamped?
    ensures h.clock - id.stamp <= config.hourlyDays * DAY && NewestOfHour(h.committed, id) ==> Holds(h.stored, id)
    ensures h.clock - id.stamp <= config.dailyDays * DAY && NewestOfDay(h.committed, id) ==> Holds(h.stored, id)
  {
    hide Recorded, NewestOfHour, NewestOfDay, Holds, HourHeld, DayHeld;
    if h.clock - id.stamp <= config.hourlyDays * DAY && NewestOfHour(h.committed, id) {
      HeldNewestOfHour(h, id);
    }
    if h.clock - id.stamp <= config.dailyDays * DAY && NewestOfDay(h.committed, id) {
      HeldNewestOfDay(h, id);
    }
  }

  /** Whatever happened before: the newest snapshot ever committed in an hour is still stored while it
      is young enough for the hourly window, and the newest of a day while it is young enough for the
      daily one, also across the time where it passes from the first to the second. */
  lemma NewestSurvives(config: Config, states: seq<History>, steps: seq<Step>, i: nat, id: Id)
    requires Run(config, states, steps) && i < |states| && id in states[i].committed && id.Stamped?
    ensures states[i].clock - id.stamp <= config.hourlyDays * DAY && NewestOfHour(states[i].committed, id)
            ==> Holds(states[i].stored, id)
    ensures states[i].clock - id.stamp <= config.dailyDays * DAY && NewestOfDay(states[i].committed, id)
            ==> Holds(states[i].stored, id)
  {
    hide Run, Retained, NewestOfHour, NewestOfDay, Holds;
    RunRetains(config, states, steps, i);
    NewestHeld(config, states[i], id);
  }
}
