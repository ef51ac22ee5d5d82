/** Which snapshots the retention policy keeps. Times are microseconds since the epoch; hours and
    days are the UTC ones. */
module Retention {
  import opened Wrappers
  import opened SnapshotGraph

  const HOUR: int := 3_600_000_000
  const DAY: int := 24 * HOUR

  /** Hashes are modelled by what they are taken of; any other text is the hash of nothing. */
  datatype Digest = HashOf(state: State) | Text(text: string)

  /** A snapshot id: its creation time and the hash of its state, or a name no time can be read from. */
  datatype Id = Stamped(stamp: int, digest: Digest) | Foreign(name: string)

  datatype Config = Config(recent: nat, hourlyDays: nat, dailyDays: nat, safetySnapshots: nat)

  /** One recognised file of the history. */
  datatype Entry = Entry(id: Id, stamp: int, compressed: bool)

  function HourOf(stamp: int): int { stamp / HOUR }

  function DayOf(stamp: int): int { stamp / DAY }

  ghost predicate NewestFirst(entries: seq<Entry>) {
    forall i, j | 0 <= i < j < |entries| :: entries[i].stamp >= entries[j].stamp
  }

  ghost predicate DistinctIds(entries: seq<Entry>) {
    forall i, j | 0 <= i < j < |entries| :: entries[i].id != entries[j].id
  }

  function SafetyIds(entries: seq<Entry>, safety: set<Id>): seq<Id> {
    if entries == [] then []
    else
      var rest := SafetyIds(entries[..|entries| - 1], safety);
      var last := entries[|entries| - 1];
      if last.id in safety then rest + [last.id] else rest
  }

  function Take<T>(s: seq<T>, n: nat): seq<T> {
    if n < |s| then s[..n] else s
  }

  function Drop<T>(s: seq<T>, n: nat): seq<T> {
    if n < |s| then s[n..] else []
  }

  function Ids(entries: seq<Entry>): set<Id> {
    set e | e in entries :: e.id
  }

  /** What one prune run looks at besides the listing. */
  datatype Policy = Policy(config: Config, now: int, pins: set<Id>, current: Option<Id>, safety: set<Id>)

  predicate Protected(p: Policy, e: Entry) {
    e.id in p.pins || p.current == Some(e.id)
  }

  predicate HourlyAge(p: Policy, e: Entry) {
    p.now - e.stamp <= p.config.hourlyDays * DAY
  }

  predicate DailyAge(p: Policy, e: Entry) {
    !HourlyAge(p, e) && p.now - e.stamp <= p.config.dailyDays * DAY
  }

  predicate HourlyCandidate(p: Policy, e: Entry) {
    !Protected(p, e) && HourlyAge(p, e)
  }

  predicate DailyCandidate(p: Policy, e: Entry) {
    !Protected(p, e) && DailyAge(p, e)
  }

  function Hourly(p: Policy, entries: seq<Entry>): map<int, Id> {
    if entries == [] then map[]
    else
      var m := Hourly(p, entries[..|entries| - 1]);
      var e := entries[|entries| - 1];
      if HourlyCandidate(p, e) && HourOf(e.stamp) !in m then m[HourOf(e.stamp) := e.id] else m
  }

  function Daily(p: Policy, entries: seq<Entry>): map<int, Id> {
    if entries == [] then map[]
    else
      var m := Daily(p, entries[..|entries| - 1]);
      var e := entries[|entries| - 1];
      if DailyCandidate(p, e) && DayOf(e.stamp) !in m then m[DayOf(e.stamp) := e.id] else m
  }

  function ProtectedIds(p: Policy, entries: seq<Entry>): set<Id> {
    set e | e in entries && Protected(p, e) :: e.id
  }

  /** The ids one prune keeps. */
  function Keep(p: Policy, entries: seq<Entry>): set<Id> {
    Elements(Take(SafetyIds(entries, p.safety), p.config.safetySnapshots))
    + Ids(Take(entries, p.config.recent))
    + ProtectedIds(p, entries)
    + Hourly(p, entries).Values
    + Daily(p, entries).Values
  }

  function Expired(p: Policy, entries: seq<Entry>): seq<Id> {
    Drop(SafetyIds(entries, p.safety), p.config.safetySnapshots)
  }

  /** The listing after a prune. */
  function Kept(entries: seq<Entry>, keep: set<Id>): seq<Entry> {
    if entries == [] then []
    else
      var rest := Kept(entries[..|entries| - 1], keep);
      var last := entries[|entries| - 1];
      if last.id in keep then rest + [last] else rest
  }

  // ----- Hours and days -----

  lemma Buckets(a: int, b: int)
    requires HourOf(a) == HourOf(b)
    ensures DayOf(a) == DayOf(b)
  {
    HourInDay(a);
    HourInDay(b);
  }

  lemma HourInDay(a: int)
    ensures DayOf(a) == HourOf(a) / 24
  {
    var h := HourOf(a);
    assert a == h * HOUR + a % HOUR;
    assert h == (h / 24) * 24 + h % 24;
  }

  /** The first candidate of each bucket represents it. */
  lemma {:induction false} HourlyFirst(p: Policy, entries: seq<Entry>, i: nat)
    requires i < |entries| && HourlyCandidate(p, entries[i])
    ensures HourOf(entries[i].stamp) in Hourly(p, entries)
    ensures exists k :: 0 <= k <= i && HourlyCandidate(p, entries[k])
              && HourOf(entries[k].stamp) == HourOf(entries[i].stamp)
              && Hourly(p, entries)[HourOf(entries[i].stamp)] == entries[k].id
    decreases |entries|
  {
    var n := |entries| - 1;
    var init := entries[..n];
    if i < n {
      HourlyFirst(p, init, i);
      var k :| 0 <= k <= i && HourlyCandidate(p, init[k]) && HourOf(init[k].stamp) == HourOf(init[i].stamp)
               && Hourly(p, init)[HourOf(init[i].stamp)] == init[k].id;
      assert entries[k] == init[k];
    } else if HourOf(entries[i].stamp) in Hourly(p, init) {
      HourlyKeys(p, init, HourOf(entries[i].stamp));
      var k :| 0 <= k < |init| && HourlyCandidate(p, init[k]) && HourOf(init[k].stamp) == HourOf(entries[i].stamp)
               && Hourly(p, init)[HourOf(entries[i].stamp)] == init[k].id;
      assert entries[k] == init[k];
    }
  }

  lemma {:induction false} HourlyKeys(p: Policy, entries: seq<Entry>, hour: int)
    requires hour in Hourly(p, entries)
    ensures exists k :: 0 <= k < |entries| && HourlyCandidate(p, entries[k]) && HourOf(entries[k].stamp) == hour
              && Hourly(p, entries)[hour] == entries[k].id
    decreases |entries|
  {
    var n := |entries| - 1;
    var init := entries[..n];
    if hour in Hourly(p, init) {
      HourlyKeys(p, init, hour);
      var k :| 0 <= k < |init| && HourlyCandidate(p, init[k]) && HourOf(init[k].stamp) == hour
               && Hourly(p, init)[hour] == init[k].id;
      assert entries[k] == init[k];
    } else {
      assert entries[n].id == Hourly(p, entries)[hour];
    }
  }

  lemma {:induction false} DailyKeys(p: Policy, entries: seq<Entry>, day: int)
    requires day in Daily(p, entries)
    ensures exists k :: 0 <= k < |entries| && DailyCandidate(p, entries[k]) && DayOf(entries[k].stamp) == day
              && Daily(p, entries)[day] == entries[k].id
    decreases |entries|
  {
    var n := |entries| - 1;
    var init := entries[..n];
    if day in Daily(p, init) {
      DailyKeys(p, init, day);
      var k :| 0 <= k < |init| && DailyCandidate(p, init[k]) && DayOf(init[k].stamp) == day
               && Daily(p, init)[day] == init[k].id;
      assert entries[k] == init[k];
    } else {
      assert entries[n].id == Daily(p, entries)[day];
    }
  }

  lemma {:induction false} DailyFirst(p: Policy, entries: seq<Entry>, i: nat)
    requires i < |entries| && DailyCandidate(p, entries[i])
    ensures DayOf(entries[i].stamp) in Daily(p, entries)
    ensures exists k :: 0 <= k <= i && DailyCandidate(p, entries[k])
              && DayOf(entries[k].stamp) == DayOf(entries[i].stamp)
              && Daily(p, entries)[DayOf(entries[i].stamp)] == entries[k].id
    decreases |entries|
  {
    var n := |entries| - 1;
    var init := entries[..n];
    if i < n {
      DailyFirst(p, init, i);
      var k :| 0 <= k <= i && DailyCandidate(p, init[k]) && DayOf(init[k].stamp) == DayOf(init[i].stamp)
               && Daily(p, init)[DayOf(init[i].stamp)] == init[k].id;
      assert entries[k] == init[k];
    } else if DayOf(entries[i].stamp) in Daily(p, init) {
      DailyKeys(p, init, DayOf(entries[i].stamp));
      var k :| 0 <= k < |init| && DailyCandidate(p, init[k]) && DayOf(init[k].stamp) == DayOf(entries[i].stamp)
               && Daily(p, init)[DayOf(entries[i].stamp)] == init[k].id;
      assert entries[k] == init[k];
    }
  }

  // ----- The newest of each hour and each day survive -----

  ghost predicate SurvivesInHour(entries: seq<Entry>, keep: set<Id>, stamp: int) {
    exists k :: 0 <= k < |entries| && entries[k].id in keep
      && HourOf(entries[k].stamp) == HourOf(stamp) && entries[k].stamp >= stamp
  }

  ghost predicate SurvivesInDay(entries: seq<Entry>, keep: set<Id>, stamp: int) {
    exists k :: 0 <= k < |entries| && entries[k].id in keep
      && DayOf(entries[k].stamp) == DayOf(stamp) && entries[k].stamp >= stamp
  }

  lemma KeepReasons(p: Policy, entries: seq<Entry>)
    ensures ProtectedIds(p, entries) <= Keep(p, entries)
    ensures Hourly(p, entries).Values <= Keep(p, entries)
    ensures Daily(p, entries).Values <= Keep(p, entries)
  {
  }

  lemma NewestOfHourKept(p: Policy, entries: seq<Entry>, i: nat)
    requires NewestFirst(entries) && i < |entries| && HourlyAge(p, entries[i])
    ensures SurvivesInHour(entries, Keep(p, entries), entries[i].stamp)
  {
    hide Keep;
    KeepReasons(p, entries);
    if Protected(p, entries[i]) {
      assert entries[i].id in ProtectedIds(p, entries);
      assert entries[i].id in Keep(p, entries);
    } else {
      HourlyFirst(p, entries, i);
      var k :| 0 <= k <= i && HourlyCandidate(p, entries[k]) && HourOf(entries[k].stamp) == HourOf(entries[i].stamp)
               && Hourly(p, entries)[HourOf(entries[i].stamp)] == entries[k].id;
      assert entries[k].id in Hourly(p, entries).Values;
      assert entries[k].id in Keep(p, entries);
    }
  }

  /** The first entry of a day is the newest of that day. */
  lemma FirstOfDay(entries: seq<Entry>, i: nat) returns (f: nat)
    requires NewestFirst(entries) && i < |entries|
    ensures f <= i && DayOf(entries[f].stamp) == DayOf(entries[i].stamp)
    ensures forall j | 0 <= j < f :: DayOf(entries[j].stamp) != DayOf(entries[i].stamp)
  {
    f := i;
    var j := i;
    while j > 0
      invariant 0 <= j <= i && f <= i && DayOf(entries[f].stamp) == DayOf(entries[i].stamp)
      invariant forall k | j <= k < f :: DayOf(entries[k].stamp) != DayOf(entries[i].stamp)
    {
      j := j - 1;
      if DayOf(entries[j].stamp) == DayOf(entries[i].stamp) {
        f := j;
      }
    }
  }

  lemma NewestOfDayKept(p: Policy, entries: seq<Entry>, i: nat)
    requires NewestFirst(entries) && i < |entries|
    requires p.now - entries[i].stamp <= p.config.dailyDays * DAY
    ensures SurvivesInDay(entries, Keep(p, entries), entries[i].stamp)
  {
    hide Keep, Hourly, Daily;
    KeepReasons(p, entries);
    var f := FirstOfDay(entries, i);
    var e := entries[f];
    assert f < i ==> e.stamp >= entries[i].stamp;
    if HourlyAge(p, e) {
      NewestOfHourKept(p, entries, f);
      var k :| 0 <= k < |entries| && entries[k].id in Keep(p, entries)
               && HourOf(entries[k].stamp) == HourOf(e.stamp) && entries[k].stamp >= e.stamp;
      Buckets(entries[k].stamp, e.stamp);
    } else if Protected(p, e) {
      assert e.id in ProtectedIds(p, entries);
      assert e.id in Keep(p, entries);
    } else {
      DailyFirst(p, entries, f);
      var k :| 0 <= k <= f && DailyCandidate(p, entries[k]) && DayOf(entries[k].stamp) == DayOf(e.stamp)
               && Daily(p, entries)[DayOf(e.stamp)] == entries[k].id;
      assert entries[k].id in Daily(p, entries).Values;
      assert entries[k].id in Keep(p, entries);
      assert k == f;
    }
  }

  // ----- How much is kept -----

  lemma {:induction false} HourlyCount(p: Policy, entries: seq<Entry>)
    requires forall e | e in entries :: e.stamp <= p.now
    ensures |Hourly(p, entries)| <= 24 * p.config.hourlyDays + 1
  {
    var low := HourOf(p.now - p.config.hourlyDays * DAY);
    var high := HourOf(p.now);
    forall hour | hour in Hourly(p, entries) ensures low <= hour <= high {
      HourlyKeys(p, entries, hour);
      var k :| 0 <= k < |entries| && HourlyCandidate(p, entries[k]) && HourOf(entries[k].stamp) == hour
               && Hourly(p, entries)[hour] == entries[k].id;
      assert entries[k] in entries;
      FloorMonotone(p.now - p.config.hourlyDays * DAY, entries[k].stamp, HOUR);
      FloorMonotone(entries[k].stamp, p.now, HOUR);
    }
    HoursBack(p.now, p.config.hourlyDays);
    RangeSize(Hourly(p, entries).Keys, low, high);
  }

  lemma {:induction false} DailyCount(p: Policy, entries: seq<Entry>)
    requires p.config.dailyDays >= p.config.hourlyDays
    ensures |Daily(p, entries)| <= p.config.dailyDays - p.config.hourlyDays + 1
  {
    var low := DayOf(p.now - p.config.dailyDays * DAY);
    var high := DayOf(p.now - p.config.hourlyDays * DAY);
    forall day | day in Daily(p, entries) ensures low <= day <= high {
      DailyKeys(p, entries, day);
      var k :| 0 <= k < |entries| && DailyCandidate(p, entries[k]) && DayOf(entries[k].stamp) == day
               && Daily(p, entries)[day] == entries[k].id;
      FloorMonotone(p.now - p.config.dailyDays * DAY, entries[k].stamp, DAY);
      FloorMonotone(entries[k].stamp, p.now - p.config.hourlyDays * DAY, DAY);
    }
    DaysBack(p.now, p.config.dailyDays);
    DaysBack(p.now, p.config.hourlyDays);
    RangeSize(Daily(p, entries).Keys, low, high);
  }

  lemma MultipleBelow(d: int, unit: int)
    requires unit > 0
    ensures d * unit < unit ==> d <= 0
    ensures -unit < d * unit ==> d >= 0
  {
    if d >= 1 {
      assert d * unit >= unit;
    }
    if d <= -1 {
      assert d * unit <= -unit;
    }
  }

  lemma FloorMonotone(a: int, b: int, unit: int)
    requires a <= b && unit > 0
    ensures a / unit <= b / unit
  {
    var d := a / unit - b / unit;
    assert a == (a / unit) * unit + a % unit && b == (b / unit) * unit + b % unit;
    assert d * unit == (a / unit) * unit - (b / unit) * unit;
    MultipleBelow(d, unit);
  }

  lemma ShiftedFloor(a: int, n: int, unit: int)
    requires unit > 0
    ensures (a - n * unit) / unit == a / unit - n
  {
    var q, r := a / unit, a % unit;
    assert a - n * unit == (q - n) * unit + r;
    FloorUnique(a - n * unit, q - n, r, unit);
  }

  lemma FloorUnique(a: int, q: int, r: int, unit: int)
    requires unit > 0 && 0 <= r < unit && a == q * unit + r
    ensures a / unit == q
  {
    var d := a / unit - q;
    assert d * unit == r - a % unit;
    MultipleBelow(d, unit);
  }

  lemma HoursBack(now: int, days: nat)
    ensures HourOf(now - days * DAY) == HourOf(now) - 24 * days
  {
    assert days * DAY == (24 * days) * HOUR;
    ShiftedFloor(now, 24 * days, HOUR);
  }

  lemma DaysBack(now: int, days: nat)
    ensures DayOf(now - days * DAY) == DayOf(now) - days
  {
    ShiftedFloor(now, days, DAY);
  }

  lemma {:induction false} RangeSize(keys: set<int>, low: int, high: int)
    requires low <= high + 1 && forall k | k in keys :: low <= k <= high
    ensures |keys| <= high - low + 1
    decreases high + 1 - low
  {
    if low == high + 1 {
      assert forall k :: k !in keys;
      assert keys == {};
    } else {
      var rest := keys - {high};
      RangeSize(rest, low, high - 1);
      if high in keys {
        assert keys == rest + {high};
      } else {
        assert keys == rest;
      }
    }
  }

  lemma {:induction false} ValuesBound(m: map<int, Id>)
    ensures |m.Values| <= |m|
    decreases |m|
  {
    if m.Keys == {} {
      NoValues(m);
    } else {
      SomeMember(m.Keys);
      var k :| k in m.Keys;
      var rest := m - {k};
      assert m.Keys == rest.Keys + {k};
      assert |rest| == |rest.Keys| && |m| == |m.Keys|;
      ValuesBound(rest);
      forall v | v in m.Values ensures v in rest.Values + {m[k]} {
        KeyOfValue(m, v);
        var j :| j in m && m[j] == v;
        if j != k {
          assert rest[j] == v;
        }
      }
      SubsetSize(m.Values, rest.Values + {m[k]});
    }
  }

  lemma NoValues(m: map<int, Id>)
    requires m.Keys == {}
    ensures m.Values == {}
  {
    assert m == map[];
  }

  lemma {:induction false} IdsBound(entries: seq<Entry>)
    ensures |Ids(entries)| <= |entries|
  {
    if entries == [] {
      assert Ids(entries) == {};
    } else {
      var init, last := entries[..|entries| - 1], entries[|entries| - 1];
      IdsBound(init);
      assert entries == init + [last];
      assert Ids(entries) == Ids(init) + {last.id};
    }
  }

  /** How many ids a prune keeps at most, when nothing claims to be from the future. */
  lemma KeepBound(p: Policy, entries: seq<Entry>)
    requires p.config.dailyDays >= p.config.hourlyDays
    requires forall e | e in entries :: e.stamp <= p.now
    ensures |Keep(p, entries)|
            <= p.config.recent + p.config.safetySnapshots + |p.pins| + 1
               + (24 * p.config.hourlyDays + 1) + (p.config.dailyDays - p.config.hourlyDays + 1)
  {
    var a := Elements(Take(SafetyIds(entries, p.safety), p.config.safetySnapshots));
    var b := Ids(Take(entries, p.config.recent));
    var c := ProtectedIds(p, entries);
    var d := Hourly(p, entries).Values;
    var e := Daily(p, entries).Values;
    ElementsSize(Take(SafetyIds(entries, p.safety), p.config.safetySnapshots));
    IdsBound(Take(entries, p.config.recent));
    var guards := if p.current.Some? then {p.current.value} else {};
    assert c <= p.pins + guards;
    SubsetSize(c, p.pins + guards);
    HourlyCount(p, entries);
    DailyCount(p, entries);
    ValuesBound(Hourly(p, entries));
    ValuesBound(Daily(p, entries));
    assert Keep(p, entries) == a + b + c + d + e;
    assert |a + b| <= |a| + |b| && |a + b + c| <= |a + b| + |c|;
    assert |a + b + c + d| <= |a + b + c| + |d| && |a + b + c + d + e| <= |a + b + c + d| + |e|;
  }

  lemma OneMore(ids: set<Id>, id: Id, keep: set<Id>)
    requires id !in ids
    ensures |(ids + {id}) * keep| == |ids * keep| + if id in keep then 1 else 0
  {
    if id in keep {
      assert (ids + {id}) * keep == (ids * keep) + {id};
    } else {
      assert (ids + {id}) * keep == ids * keep;
    }
  }

  lemma LastIsNew(entries: seq<Entry>)
    requires entries != [] && DistinctIds(entries)
    ensures var init, last := entries[..|entries| - 1], entries[|entries| - 1];
            DistinctIds(init) && Ids(entries) == Ids(init) + {last.id} && last.id !in Ids(init)
  {
    var init, last := entries[..|entries| - 1], entries[|entries| - 1];
    assert entries == init + [last];
  }

  lemma {:induction false} KeptSize(entries: seq<Entry>, keep: set<Id>)
    requires DistinctIds(entries)
    ensures |Kept(entries, keep)| <= |Ids(entries) * keep|
  {
    hide DistinctIds, Ids;
    if entries != [] {
      var init, last := entries[..|entries| - 1], entries[|entries| - 1];
      LastIsNew(entries);
      KeptSize(init, keep);
      OneMore(Ids(init), last.id, keep);
    }
  }

  /** How many files a prune leaves at most, and what it leaves in any case: the current snapshot, the
      pinned ones, the newest ones and the newest safety snapshots. */
  lemma PruneBound(p: Policy, entries: seq<Entry>)
    requires p.config.dailyDays >= p.config.hourlyDays && DistinctIds(entries)
    requires forall e | e in entries :: e.stamp <= p.now
    ensures |Kept(entries, Keep(p, entries))|
            <= p.config.recent + p.config.safetySnapshots + |p.pins| + 1
               + (24 * p.config.hourlyDays + 1) + (p.config.dailyDays - p.config.hourlyDays + 1)
    ensures forall e | e in entries && Protected(p, e) :: e in Kept(entries, Keep(p, entries))
    ensures forall k | 0 <= k < |entries| && k < p.config.recent :: entries[k] in Kept(entries, Keep(p, entries))
    ensures forall k | 0 <= k < |SafetyIds(entries, p.safety)| && k < p.config.safetySnapshots ::
              SafetyIds(entries, p.safety)[k] in Ids(Kept(entries, Keep(p, entries)))
  {
    var keep := Keep(p, entries);
    KeepBound(p, entries);
    KeptSize(entries, keep);
    SubsetSize(Ids(entries) * keep, keep);
    KeptMembers(entries, keep);
    KeepReasons(p, entries);
    forall k | 0 <= k < |entries| && k < p.config.recent ensures entries[k].id in keep {
      assert Take(entries, p.config.recent)[k] == entries[k];
      assert entries[k] in Take(entries, p.config.recent);
    }
    var marked := SafetyIds(entries, p.safety);
    KeepListed(p, entries);
    forall k | 0 <= k < |marked| && k < p.config.safetySnapshots ensures marked[k] in Ids(Kept(entries, keep)) {
      assert Take(marked, p.config.safetySnapshots)[k] == marked[k];
      assert marked[k] in keep;
      var e :| e in entries && e.id == marked[k];
      assert e in Kept(entries, keep);
    }
  }

  // ----- A second prune -----

  /** What is kept for any reason other than a safety mark. */
  function KeptAnyway(p: Policy, entries: seq<Entry>): set<Id> {
    Ids(Take(entries, p.config.recent))
    + ProtectedIds(p, entries)
    + Hourly(p, entries).Values
    + Daily(p, entries).Values
  }

  function SafetyTaken(p: Policy, entries: seq<Entry>): set<Id> {
    Elements(Take(SafetyIds(entries, p.safety), p.config.safetySnapshots))
  }

  /** What a later prune at the same time looks at: the expired safety marks are gone. */
  function Afterwards(p: Policy, entries: seq<Entry>): Policy {
    p.(safety := p.safety - Elements(Expired(p, entries)))
  }

  lemma {:induction false} KeptMembers(entries: seq<Entry>, keep: set<Id>)
    ensures forall e :: e in Kept(entries, keep) <==> e in entries && e.id in keep
  {
    if entries != [] {
      var init, last := entries[..|entries| - 1], entries[|entries| - 1];
      KeptMembers(init, keep);
      assert entries == init + [last];
    }
  }

  lemma {:induction false} KeptAll(entries: seq<Entry>, keep: set<Id>)
    ensures Kept(entries, keep) == entries <==> Ids(entries) <= keep
  {
    if Ids(entries) <= keep {
      if entries != [] {
        var init, last := entries[..|entries| - 1], entries[|entries| - 1];
        assert entries == init + [last];
        forall id | id in Ids(init) ensures id in keep {
          var e :| e in init && e.id == id;
          assert e in entries;
        }
        KeptAll(init, keep);
        assert last in entries && last.id in Ids(entries);
      }
    } else {
      var id :| id in Ids(entries) && id !in keep;
      var e :| e in entries && e.id == id;
      KeptMembers(entries, keep);
    }
  }

  lemma KeptLast(entries: seq<Entry>, keep: set<Id>)
    requires entries != []
    ensures var init, last := entries[..|entries| - 1], entries[|entries| - 1];
            Kept(entries, keep) == if last.id in keep then Kept(init, keep) + [last] else Kept(init, keep)
  {
  }

  lemma {:induction false} HourlyAfter(p: Policy, q: Policy, entries: seq<Entry>, keep: set<Id>)
    requires q == p.(safety := q.safety) && Hourly(p, entries).Values <= keep
    ensures Hourly(q, Kept(entries, keep)) == Hourly(p, entries)
  {
    if entries != [] {
      hide Kept, Hourly;
      var init, last := entries[..|entries| - 1], entries[|entries| - 1];
      var before := Hourly(p, init);
      HourlyGrows(p, entries);
      HourlyAfter(p, q, init, keep);
      KeptLast(entries, keep);
      HourlyLast(p, entries, init, last);
      if last.id in keep {
        HourlyLast(q, Kept(init, keep) + [last], Kept(init, keep), last);
      }
    }
  }

  lemma HourlyLast(p: Policy, entries: seq<Entry>, init: seq<Entry>, last: Entry)
    requires entries == init + [last]
    ensures Hourly(p, entries)
            == if HourlyCandidate(p, last) && HourOf(last.stamp) !in Hourly(p, init)
               then Hourly(p, init)[HourOf(last.stamp) := last.id] else Hourly(p, init)
    ensures HourlyCandidate(p, last) && HourOf(last.stamp) !in Hourly(p, init) ==> last.id in Hourly(p, entries).Values
  {
    assert entries[..|entries| - 1] == init;
    if HourlyCandidate(p, last) && HourOf(last.stamp) !in Hourly(p, init) {
      assert Hourly(p, entries)[HourOf(last.stamp)] == last.id;
    }
  }

  lemma HourlyGrows(p: Policy, entries: seq<Entry>)
    requires entries != []
    ensures Hourly(p, entries[..|entries| - 1]).Values <= Hourly(p, entries).Values
  {
    var before := Hourly(p, entries[..|entries| - 1]);
    forall id | id in before.Values ensures id in Hourly(p, entries).Values {
      KeyOfValue(before, id);
      var hour :| hour in before && before[hour] == id;
      assert hour in Hourly(p, entries) && Hourly(p, entries)[hour] == id;
    }
  }

  lemma {:induction false} DailyAfter(p: Policy, q: Policy, entries: seq<Entry>, keep: set<Id>)
    requires q == p.(safety := q.safety) && Daily(p, entries).Values <= keep
    ensures Daily(q, Kept(entries, keep)) == Daily(p, entries)
  {
    if entries != [] {
      hide Kept, Daily;
      var init, last := entries[..|entries| - 1], entries[|entries| - 1];
      var before := Daily(p, init);
      DailyGrows(p, entries);
      DailyAfter(p, q, init, keep);
      KeptLast(entries, keep);
      DailyLast(p, entries, init, last);
      if last.id in keep {
        DailyLast(q, Kept(init, keep) + [last], Kept(init, keep), last);
      }
    }
  }

  lemma DailyLast(p: Policy, entries: seq<Entry>, init: seq<Entry>, last: Entry)
    requires entries == init + [last]
    ensures Daily(p, entries)
            == if DailyCandidate(p, last) && DayOf(last.stamp) !in Daily(p, init)
               then Daily(p, init)[DayOf(last.stamp) := last.id] else Daily(p, init)
    ensures DailyCandidate(p, last) && DayOf(last.stamp) !in Daily(p, init) ==> last.id in Daily(p, entries).Values
  {
    assert entries[..|entries| - 1] == init;
    if DailyCandidate(p, last) && DayOf(last.stamp) !in Daily(p, init) {
      assert Daily(p, entries)[DayOf(last.stamp)] == last.id;
    }
  }

  lemma DailyGrows(p: Policy, entries: seq<Entry>)
    requires entries != []
    ensures Daily(p, entries[..|entries| - 1]).Values <= Daily(p, entries).Values
  {
    var before := Daily(p, entries[..|entries| - 1]);
    forall id | id in before.Values ensures id in Daily(p, entries).Values {
      KeyOfValue(before, id);
      var day :| day in before && before[day] == id;
      assert day in Daily(p, entries) && Daily(p, entries)[day] == id;
    }
  }

  /** The first entries are all kept, so they are still the first ones. */
  lemma {:induction false} RecentAfter(entries: seq<Entry>, keep: set<Id>, n: nat)
    requires Ids(Take(entries, n)) <= keep
    ensures Take(Kept(entries, keep), n) == Take(entries, n)
  {
    if entries != [] {
      var init, last := entries[..|entries| - 1], entries[|entries| - 1];
      assert entries == init + [last];
      assert Ids(Take(init, n)) <= keep by {
        forall id | id in Ids(Take(init, n)) ensures id in keep {
          var e :| e in Take(init, n) && e.id == id;
          assert e in Take(entries, n);
        }
      }
      RecentAfter(init, keep, n);
      KeptLength(init, keep);
      if |init| < n {
        assert Take(entries, n) == entries && last in Take(entries, n);
        assert last.id in Ids(Take(entries, n));
        assert Take(init, n) == init && Kept(init, keep) == init;
      } else {
        assert Take(entries, n) == Take(init, n);
        assert |Take(Kept(init, keep), n)| == n;
      }
    }
  }

  lemma {:induction false} KeptLength(entries: seq<Entry>, keep: set<Id>)
    ensures |Kept(entries, keep)| <= |entries|
  {
    if entries != [] {
      KeptLength(entries[..|entries| - 1], keep);
    }
  }

  /** The marked entries that survive are at most as many as were taken, and exactly those taken whose
      mark was not also removed. */
  lemma {:induction false} SafetyAfter(entries: seq<Entry>, keep: set<Id>, safety: set<Id>, gone: set<Id>, n: nat)
    requires Elements(Take(SafetyIds(entries, safety), n)) <= keep
    requires Elements(Drop(SafetyIds(entries, safety), n)) <= gone
    ensures |SafetyIds(Kept(entries, keep), safety - gone)| <= n
    ensures Elements(SafetyIds(Kept(entries, keep), safety - gone))
            == Elements(Take(SafetyIds(entries, safety), n)) - gone
  {
    if entries == [] {
      assert SafetyIds(Kept(entries, keep), safety - gone) == [];
      assert Take(SafetyIds(entries, safety), n) == [];
    } else {
      var init, last := entries[..|entries| - 1], entries[|entries| - 1];
      var before, all := SafetyIds(init, safety), SafetyIds(entries, safety);
      assert (Kept(init, keep) + [last])[..|Kept(init, keep)|] == Kept(init, keep);
      TakeDropGrow(before, last.id, n);
      assert all == before || all == before + [last.id];
      SafetyAfter(init, keep, safety, gone, n);
      var rest := SafetyIds(Kept(init, keep), safety - gone);
      if |before| >= n {
        DropEnd(before, last.id, n);
      }
      if last.id in safety && last.id !in gone {
        assert all == before + [last.id] && |before| < n;
        assert last.id in Take(all, n);
        assert last.id in Elements(Take(all, n));
        assert SafetyIds(Kept(entries, keep), safety - gone) == rest + [last.id];
        SafetyFewer(init, keep, safety, gone);
        assert Elements(rest + [last.id]) == Elements(rest) + {last.id};
        assert Elements(Take(all, n)) == Elements(Take(before, n)) + {last.id};
      } else {
        assert SafetyIds(Kept(entries, keep), safety - gone) == rest;
        assert Elements(Take(all, n)) - gone == Elements(Take(before, n)) - gone;
      }
    }
  }

  lemma DropEnd<T>(s: seq<T>, x: T, n: nat)
    requires |s| >= n
    ensures x in Elements(Drop(s + [x], n))
  {
    assert Drop(s + [x], n)[|s| - n] == x;
  }

  lemma {:induction false} SafetyFewer(entries: seq<Entry>, keep: set<Id>, safety: set<Id>, gone: set<Id>)
    ensures |SafetyIds(Kept(entries, keep), safety - gone)| <= |SafetyIds(entries, safety)|
  {
    if entries != [] {
      var init, last := entries[..|entries| - 1], entries[|entries| - 1];
      SafetyFewer(init, keep, safety, gone);
      assert (Kept(init, keep) + [last])[..|Kept(init, keep)|] == Kept(init, keep);
    }
  }

  lemma TakeDropGrow<T>(s: seq<T>, x: T, n: nat)
    ensures Take(s + [x], n) == if |s| < n then Take(s, n) + [x] else Take(s, n)
    ensures Drop(s + [x], n) == if |s| < n then [] else Drop(s, n) + [x]
    ensures Elements(Take(s, n)) <= Elements(Take(s + [x], n))
    ensures Elements(Drop(s, n)) <= Elements(Drop(s + [x], n))
  {
  }

  /** A second prune at the same time, over the listing the first one left, expires no safety mark;
      and it removes nothing exactly when no id that is kept for its safety mark alone also lost
      that mark, which takes two files of one id. */
  lemma PruneTwice(p: Policy, entries: seq<Entry>)
    ensures var after := Kept(entries, Keep(p, entries));
            && Expired(Afterwards(p, entries), after) == []
            && (Kept(after, Keep(Afterwards(p, entries), after)) == after
                <==> SafetyTaken(p, entries) * Elements(Expired(p, entries)) <= KeptAnyway(p, entries))
  {
    var keep := Keep(p, entries);
    var after, q := Kept(entries, keep), Afterwards(p, entries);
    var gone := Elements(Expired(p, entries));
    SafetyAfter(entries, keep, p.safety, gone, p.config.safetySnapshots);
    HourlyAfter(p, q, entries, keep);
    DailyAfter(p, q, entries, keep);
    RecentAfter(entries, keep, p.config.recent);
    KeptMembers(entries, keep);
    assert ProtectedIds(q, after) == ProtectedIds(p, entries);
    assert Keep(q, after) == (SafetyTaken(p, entries) - gone) + KeptAnyway(p, entries);
    assert keep == SafetyTaken(p, entries) + KeptAnyway(p, entries);
    KeepListed(p, entries);
    assert Ids(after) == keep;
    KeptAll(after, Keep(q, after));
  }

  /** Only listed ids are kept. */
  lemma KeepListed(p: Policy, entries: seq<Entry>)
    ensures Keep(p, entries) <= Ids(entries)
  {
    forall id | id in Keep(p, entries) ensures id in Ids(entries) {
      if id in Hourly(p, entries).Values {
        KeyOfValue(Hourly(p, entries), id);
        var hour :| hour in Hourly(p, entries) && Hourly(p, entries)[hour] == id;
        HourlyKeys(p, entries, hour);
        var k :| 0 <= k < |entries| && entries[k].id == id;
        assert entries[k] in entries;
      } else if id in Daily(p, entries).Values {
        KeyOfValue(Daily(p, entries), id);
        var day :| day in Daily(p, entries) && Daily(p, entries)[day] == id;
        DailyKeys(p, entries, day);
        var k :| 0 <= k < |entries| && entries[k].id == id;
        assert entries[k] in entries;
      } else if id in SafetyTaken(p, entries) {
        SafetyListed(entries, p.safety);
        assert id in Elements(SafetyIds(entries, p.safety));
      } else if id in Ids(Take(entries, p.config.recent)) {
        var e :| e in Take(entries, p.config.recent) && e.id == id;
        assert e in entries;
      }
    }
  }

  lemma {:induction false} SafetyListed(entries: seq<Entry>, safety: set<Id>)
    ensures Elements(SafetyIds(entries, safety)) == Ids(entries) * safety
  {
    if entries != [] {
      var init, last := entries[..|entries| - 1], entries[|entries| - 1];
      SafetyListed(init, safety);
      var rest := SafetyIds(init, safety);
      assert entries == init + [last];
      assert Ids(entries) == Ids(init) + {last.id};
      assert Elements(rest + [last.id]) == Elements(rest) + {last.id};
    } else {
      assert Elements(SafetyIds(entries, safety)) == {} && Ids(entries) == {};
    }
  }

  lemma {:induction false} SafetyDistinct(entries: seq<Entry>, safety: set<Id>)
    requires DistinctIds(entries)
    ensures Distinct(SafetyIds(entries, safety))
  {
    if entries != [] {
      var init, last := entries[..|entries| - 1], entries[|entries| - 1];
      SafetyDistinct(init, safety);
      SafetyListed(init, safety);
      assert last.id !in Ids(init);
      assert last.id !in Elements(SafetyIds(init, safety));
      DistinctAppend(SafetyIds(init, safety), last.id);
    }
  }

  /** With one file to an id, no mark is to be removed twice. */
  lemma ExpiredOnce(p: Policy, entries: seq<Entry>)
    requires DistinctIds(entries)
    ensures Distinct(Expired(p, entries))
  {
    SafetyDistinct(entries, p.safety);
    var s, n := SafetyIds(entries, p.safety), p.config.safetySnapshots;
    forall i, j | 0 <= i < j < |Drop(s, n)| ensures Drop(s, n)[i] != Drop(s, n)[j] {
      assert Drop(s, n)[i] == s[n + i] && Drop(s, n)[j] == s[n + j];
    }
  }

  /** What is expired is marked. */
  lemma ExpiredMarked(p: Policy, entries: seq<Entry>)
    ensures Elements(Expired(p, entries)) <= p.safety
  {
    SafetyListed(entries, p.safety);
    var s, n := SafetyIds(entries, p.safety), p.config.safetySnapshots;
    forall id | id in Drop(s, n) ensures id in p.safety {
      assert id in s && id in Elements(s);
    }
  }

  /** A marked file is listed after the marked files before it. */
  lemma {:induction false} SafetyAt(entries: seq<Entry>, safety: set<Id>, i: nat)
    requires i < |entries| && entries[i].id in safety
    ensures var at := |SafetyIds(entries[..i], safety)|;
            at < |SafetyIds(entries, safety)| && SafetyIds(entries, safety)[at] == entries[i].id
    decreases |entries|
  {
    var init := entries[..|entries| - 1];
    if i < |init| {
      assert init[..i] == entries[..i];
      SafetyAt(init, safety, i);
    } else {
      assert init == entries[..i];
    }
  }

  lemma {:induction false} SafetyFrom(entries: seq<Entry>, safety: set<Id>, k: nat) returns (i: nat)
    requires k < |SafetyIds(entries, safety)|
    ensures i < |entries| && entries[i].id in safety && |SafetyIds(entries[..i], safety)| == k
    decreases |entries|
  {
    var init := entries[..|entries| - 1];
    if k < |SafetyIds(init, safety)| {
      i := SafetyFrom(init, safety, k);
      assert init[..i] == entries[..i];
    } else {
      i := |init|;
    }
  }

  lemma SafetyAscends(entries: seq<Entry>, safety: set<Id>, i: nat, j: nat)
    requires i < j < |entries| && entries[i].id in safety
    ensures |SafetyIds(entries[..i], safety)| < |SafetyIds(entries[..j], safety)|
  {
    SafetyAt(entries[..j], safety, i);
    assert entries[..j][..i] == entries[..i];
  }

  /** A marked id has two files, and enough marked files are listed before the first of them. */
  ghost predicate MarkedTwice(p: Policy, entries: seq<Entry>, i: nat, j: nat) {
    && i < j < |entries| && entries[i].id == entries[j].id && entries[i].id in p.safety
    && |SafetyIds(entries[..i], p.safety)| >= p.config.safetySnapshots
  }

  /** A mark is to be removed twice exactly when an id beyond the newest safety snapshots has two files. */
  lemma ExpiredTwiceExactly(p: Policy, entries: seq<Entry>)
    ensures Distinct(Expired(p, entries)) <==> forall i: nat, j: nat :: !MarkedTwice(p, entries, i, j)
  {
    var s, n := SafetyIds(entries, p.safety), p.config.safetySnapshots;
    forall i: nat, j: nat | MarkedTwice(p, entries, i, j) ensures !Distinct(Expired(p, entries)) {
      SafetyAt(entries, p.safety, i);
      SafetyAt(entries, p.safety, j);
      SafetyAscends(entries, p.safety, i, j);
      var a, b := |SafetyIds(entries[..i], p.safety)|, |SafetyIds(entries[..j], p.safety)|;
      assert Drop(s, n)[a - n] == s[a] && Drop(s, n)[b - n] == s[b];
    }
    if !Distinct(Expired(p, entries)) {
      var a, b :| 0 <= a < b < |Drop(s, n)| && Drop(s, n)[a] == Drop(s, n)[b];
      var i := SafetyFrom(entries, p.safety, n + a);
      var j := SafetyFrom(entries, p.safety, n + b);
      SafetyAt(entries, p.safety, i);
      SafetyAt(entries, p.safety, j);
      if j < i {
        SafetyAscends(entries, p.safety, j, i);
      }
      assert MarkedTwice(p, entries, i, j);
    }
  }

  /** With both a plain and a compressed file of one marked id and no safety snapshot to be kept, the mark is
      to be removed twice. */
  lemma OneMarkTwoFiles(id: Id, now: int)
    requires id.Stamped?
    ensures var entries := [Entry(id, id.stamp, false), Entry(id, id.stamp, true)];
            var p := Policy(Config(0, 0, 0, 0), now, {}, None, {id});
            MarkedTwice(p, entries, 0, 1) && !Distinct(Expired(p, entries))
  {
    var entries := [Entry(id, id.stamp, false), Entry(id, id.stamp, true)];
    var p := Policy(Config(0, 0, 0, 0), now, {}, None, {id});
    assert MarkedTwice(p, entries, 0, 1);
    ExpiredTwiceExactly(p, entries);
  }

  /** With one file to an id, a second prune removes nothing. */
  lemma PruneIsIdempotent(p: Policy, entries: seq<Entry>)
    requires DistinctIds(entries)
    ensures var after := Kept(entries, Keep(p, entries));
            && Expired(Afterwards(p, entries), after) == []
            && Kept(after, Keep(Afterwards(p, entries), after)) == after
  {
    PruneTwice(p, entries);
    SafetyDistinct(entries, p.safety);
    TakeDropApart(SafetyIds(entries, p.safety), p.config.safetySnapshots);
  }

  lemma TakeDropApart<T>(s: seq<T>, n: nat)
    requires Distinct(s)
    ensures Elements(Take(s, n)) !! Elements(Drop(s, n))
  {
    var taken, dropped := Take(s, n), Drop(s, n);
    forall i, j | 0 <= i < |taken| && 0 <= j < |dropped| ensures taken[i] != dropped[j] {
      assert taken[i] == s[i] && dropped[j] == s[n + j];
    }
  }

  /** With both a plain and a compressed file of one id, the first prune takes the mark away that kept
      them, and the second one removes both. */
  lemma TwoFilesOfOneId(id: Id, now: int)
    requires id.Stamped? && now > id.stamp
    ensures var entries := [Entry(id, id.stamp, false), Entry(id, id.stamp, true)];
            var p := Policy(Config(0, 0, 0, 1), now, {}, None, {id});
            var after := Kept(entries, Keep(p, entries));
            after == entries && Kept(after, Keep(Afterwards(p, entries), after)) == []
  {
    var a, b := Entry(id, id.stamp, false), Entry(id, id.stamp, true);
    var entries := [a, b];
    var p := Policy(Config(0, 0, 0, 1), now, {}, None, {id});
    assert entries[..|entries| - 1] == [a] && [a][..|[a]| - 1] == [];
    assert SafetyIds([a], {id}) == [id] && SafetyIds(entries, {id}) == [id, id];
    assert Take([id, id], 1) == [id] && Drop([id, id], 1) == [id];
    assert Kept(entries, Keep(p, entries)) == entries by {
      assert id in Keep(p, entries);
      assert Kept([a], Keep(p, entries)) == [a];
    }
    var q := Afterwards(p, entries);
    assert q.safety == {};
    NothingKept(q, entries);
    KeptMembers(entries, {});
    FirstIsIn(Kept(entries, {}));
  }

  lemma {:induction false} NothingKept(p: Policy, entries: seq<Entry>)
    requires p.config == Config(0, 0, 0, 1) && p.pins == {} && p.current == None && p.safety == {}
    requires forall e | e in entries :: e.stamp < p.now
    ensures Keep(p, entries) == {}
  {
    if entries != [] {
      var init, last := entries[..|entries| - 1], entries[|entries| - 1];
      assert entries == init + [last];
      NothingKept(p, init);
      assert Hourly(p, init).Values == {} && Daily(p, init).Values == {};
      assert last in entries;
      assert Hourly(p, entries) == Hourly(p, init) && Daily(p, entries) == Daily(p, init);
    }
    SafetyListed(entries, p.safety);
    assert forall id :: id !in Elements(SafetyIds(entries, p.safety));
    FirstIsIn(SafetyIds(entries, p.safety));
    assert Take(entries, 0) == [] && Ids([]) == {};
    assert ProtectedIds(p, entries) == {};
  }

  // ----- What is kept and what expires, entry by entry -----

  /** How many entries before the k-th carry a safety mark. */
  ghost function MarksBefore(entries: seq<Entry>, safety: set<Id>, k: nat): nat
    requires k <= |entries|
  {
    |set j | 0 <= j < k && entries[j].id in safety|
  }

  lemma {:induction false} MarksCounted(entries: seq<Entry>, safety: set<Id>, k: nat)
    requires k <= |entries|
    ensures |SafetyIds(entries[..k], safety)| == MarksBefore(entries, safety, k)
  {
    var marks := set j | 0 <= j < k && entries[j].id in safety;
    if k > 0 {
      MarksCounted(entries, safety, k - 1);
      assert entries[..k][..k - 1] == entries[..k - 1];
      var fewer := set j | 0 <= j < k - 1 && entries[j].id in safety;
      assert marks == fewer + if entries[k - 1].id in safety then {k - 1} else {};
    } else {
      assert marks == {};
    }
  }

  /** The first entry of its hour among those that stand for an hour. */
  ghost predicate StandsForHour(p: Policy, entries: seq<Entry>, k: nat)
    requires k < |entries|
  {
    && HourlyCandidate(p, entries[k])
    && forall j | 0 <= j < k ::
         !(HourlyCandidate(p, entries[j]) && HourOf(entries[j].stamp) == HourOf(entries[k].stamp))
  }

  ghost predicate StandsForDay(p: Policy, entries: seq<Entry>, k: nat)
    requires k < |entries|
  {
    && DailyCandidate(p, entries[k])
    && forall j | 0 <= j < k :: !(DailyCandidate(p, entries[j]) && DayOf(entries[j].stamp) == DayOf(entries[k].stamp))
  }

  /** Pinned or current; among the newest; among the newest with a safety mark; the newest of an hour or a day. */
  ghost predicate KeptFor(p: Policy, entries: seq<Entry>, k: nat)
    requires k < |entries|
  {
    || entries[k].id in p.pins || p.current == Some(entries[k].id)
    || k < p.config.recent
    || (entries[k].id in p.safety && MarksBefore(entries, p.safety, k) < p.config.safetySnapshots)
    || StandsForHour(p, entries, k)
    || StandsForDay(p, entries, k)
  }

  lemma {:induction false} FirstInHour(p: Policy, entries: seq<Entry>, k: nat) returns (f: nat)
    requires k < |entries| && HourlyCandidate(p, entries[k])
    ensures f <= k && StandsForHour(p, entries, f) && HourOf(entries[f].stamp) == HourOf(entries[k].stamp)
    ensures HourOf(entries[k].stamp) in Hourly(p, entries)
            && Hourly(p, entries)[HourOf(entries[k].stamp)] == entries[f].id
  {
    hide Hourly, HourOf, HourlyCandidate;
    if j :| 0 <= j < k && HourlyCandidate(p, entries[j]) && HourOf(entries[j].stamp) == HourOf(entries[k].stamp) {
      f := FirstInHour(p, entries, j);
    } else {
      f := k;
      HourlyFirst(p, entries, k);
    }
  }

  lemma {:induction false} FirstInDay(p: Policy, entries: seq<Entry>, k: nat) returns (f: nat)
    requires k < |entries| && DailyCandidate(p, entries[k])
    ensures f <= k && StandsForDay(p, entries, f) && DayOf(entries[f].stamp) == DayOf(entries[k].stamp)
    ensures DayOf(entries[k].stamp) in Daily(p, entries) && Daily(p, entries)[DayOf(entries[k].stamp)] == entries[f].id
  {
    hide Daily, DayOf, DailyCandidate;
    if j :| 0 <= j < k && DailyCandidate(p, entries[j]) && DayOf(entries[j].stamp) == DayOf(entries[k].stamp) {
      f := FirstInDay(p, entries, j);
    } else {
      f := k;
      DailyFirst(p, entries, k);
    }
  }

  ghost predicate SomeKept(p: Policy, entries: seq<Entry>, id: Id) {
    exists k :: 0 <= k < |entries| && entries[k].id == id && KeptFor(p, entries, k)
  }

  /** The policy keeps exactly the ids for which one of its reasons holds. */
  lemma KeepExactly(p: Policy, entries: seq<Entry>)
    ensures forall id :: id in Keep(p, entries) <==> SomeKept(p, entries, id)
  {
    hide Keep, KeptFor, SomeKept;
    forall id ensures id in Keep(p, entries) <==> SomeKept(p, entries, id) {
      if id in Keep(p, entries) {
        KeptIsFor(p, entries, id);
      }
      if SomeKept(p, entries, id) {
        KeptForIsKept(p, entries, id);
      }
    }
  }

  lemma KeptForIsKept(p: Policy, entries: seq<Entry>, id: Id)
    requires SomeKept(p, entries, id)
    ensures id in Keep(p, entries)
  {
    hide Hourly, Daily, HourlyCandidate, DailyCandidate, SafetyIds, MarksBefore;
    var k :| 0 <= k < |entries| && entries[k].id == id && KeptFor(p, entries, k);
    if StandsForHour(p, entries, k) {
      var f := FirstInHour(p, entries, k);
    } else if StandsForDay(p, entries, k) {
      var f := FirstInDay(p, entries, k);
    } else if k < p.config.recent {
      assert Take(entries, p.config.recent)[k] == entries[k];
    } else if !Protected(p, entries[k]) {
      MarksCounted(entries, p.safety, k);
      SafetyAt(entries, p.safety, k);
      var at := |SafetyIds(entries[..k], p.safety)|;
      assert Take(SafetyIds(entries, p.safety), p.config.safetySnapshots)[at] == id;
    }
  }

  lemma KeptIsFor(p: Policy, entries: seq<Entry>, id: Id)
    requires id in Keep(p, entries)
    ensures SomeKept(p, entries, id)
  {
    hide Hourly, Daily, HourlyCandidate, DailyCandidate, SafetyIds, MarksBefore, StandsForHour, StandsForDay;
    if id in Hourly(p, entries).Values {
      KeyOfValue(Hourly(p, entries), id);
      var hour :| hour in Hourly(p, entries) && Hourly(p, entries)[hour] == id;
      HourlyKeys(p, entries, hour);
      var k :| 0 <= k < |entries| && HourlyCandidate(p, entries[k]) && HourOf(entries[k].stamp) == hour;
      var f := FirstInHour(p, entries, k);
      assert KeptFor(p, entries, f);
    } else if id in Daily(p, entries).Values {
      KeyOfValue(Daily(p, entries), id);
      var day :| day in Daily(p, entries) && Daily(p, entries)[day] == id;
      DailyKeys(p, entries, day);
      var k :| 0 <= k < |entries| && DailyCandidate(p, entries[k]) && DayOf(entries[k].stamp) == day;
      var f := FirstInDay(p, entries, k);
      assert KeptFor(p, entries, f);
    } else if id in ProtectedIds(p, entries) {
      var e :| e in entries && Protected(p, e) && e.id == id;
      var k :| 0 <= k < |entries| && entries[k] == e;
      assert KeptFor(p, entries, k);
    } else if id in Ids(Take(entries, p.config.recent)) {
      var e :| e in Take(entries, p.config.recent) && e.id == id;
      var k :| 0 <= k < |Take(entries, p.config.recent)| && Take(entries, p.config.recent)[k] == e;
      assert KeptFor(p, entries, k);
    } else {
      var taken := Take(SafetyIds(entries, p.safety), p.config.safetySnapshots);
      var at :| 0 <= at < |taken| && taken[at] == id;
      var k := SafetyFrom(entries, p.safety, at);
      SafetyAt(entries, p.safety, k);
      MarksCounted(entries, p.safety, k);
      assert KeptFor(p, entries, k);
    }
  }

  ghost predicate SomeExpired(p: Policy, entries: seq<Entry>, id: Id) {
    exists k :: 0 <= k < |entries| && entries[k].id == id && id in p.safety
                && MarksBefore(entries, p.safety, k) >= p.config.safetySnapshots
  }

  /** A mark has had its time exactly when as many marked files are newer as are to be kept. */
  lemma ExpiredExactly(p: Policy, entries: seq<Entry>)
    ensures forall id :: id in Expired(p, entries) <==> SomeExpired(p, entries, id)
  {
    hide SafetyIds, MarksBefore;
    var s, n := SafetyIds(entries, p.safety), p.config.safetySnapshots;
    forall id ensures id in Expired(p, entries) <==> SomeExpired(p, entries, id) {
      if id in Expired(p, entries) {
        var at :| 0 <= at < |Drop(s, n)| && Drop(s, n)[at] == id;
        var k := SafetyFrom(entries, p.safety, n + at);
        SafetyAt(entries, p.safety, k);
        MarksCounted(entries, p.safety, k);
      }
      if SomeExpired(p, entries, id) {
        var k :| 0 <= k < |entries| && entries[k].id == id && id in p.safety
                 && MarksBefore(entries, p.safety, k) >= n;
        MarksCounted(entries, p.safety, k);
        SafetyAt(entries, p.safety, k);
        var at := |SafetyIds(entries[..k], p.safety)|;
        assert Drop(s, n)[at - n] == id;
      }
    }
  }
}
