/** Moving the attached terminals to the restored sessions, and accounting for every one of them. */
module ClientSwitching {
  import opened Wrappers
  import opened SnapshotGraph
  import opened TmuxServer
  import opened Rebuild
  import opened Ordering

  datatype Backup = Backup(id: nat, originalName: string, temporaryName: string)

  datatype Desired = Desired(name: string, fromSession: Option<string>, toSession: string, target: nat,
    last: Option<nat>)

  datatype ClientRecord = ClientRecord(client: string, fromSession: Option<string>, toSession: string)

  datatype Visibility = Visibility(session: string, ordinaryClients: nat)

  /** A terminal that went away before its session was confirmed. */
  datatype ClientWarning = Disappeared(client: string)

  datatype SwitchResult = SwitchResult(
    clients: seq<ClientRecord>,
    visibility: seq<Visibility>,
    warnings: seq<ClientWarning>)

  // ----- Most recently active first -----

  predicate Precedes(a: ClientRow, b: ClientRow) {
    a.activity > b.activity || (a.activity == b.activity && NameLeq(a.name, b.name))
  }

  function InsertRow(row: ClientRow, sorted: seq<ClientRow>): seq<ClientRow> {
    if sorted == [] then [row]
    else if Precedes(row, sorted[0]) then [row] + sorted
    else [sorted[0]] + InsertRow(row, sorted[1..])
  }

  function ByActivity(rows: seq<ClientRow>): seq<ClientRow> {
    if rows == [] then [] else InsertRow(rows[0], ByActivity(rows[1..]))
  }

  function Ordinary(rows: seq<ClientRow>): seq<ClientRow> {
    if rows == [] then []
    else if rows[0].control then Ordinary(rows[1..])
    else [rows[0]] + Ordinary(rows[1..])
  }

  /** The most recently active first; among equally active ones, by name. */
  ghost predicate Sorted(rows: seq<ClientRow>) {
    forall i, j | 0 <= i < j < |rows| ::
      && rows[i].activity >= rows[j].activity
      && (rows[i].activity == rows[j].activity ==> NameLeq(rows[i].name, rows[j].name))
  }

  ghost predicate Chained(rows: seq<ClientRow>) {
    forall i, j | 0 <= i < j < |rows| :: Precedes(rows[i], rows[j])
  }

  lemma {:induction false} InsertRowMembers(row: ClientRow, sorted: seq<ClientRow>)
    ensures multiset(InsertRow(row, sorted)) == multiset(sorted) + multiset{row}
  {
    if sorted != [] {
      assert sorted == [sorted[0]] + sorted[1..];
      if !Precedes(row, sorted[0]) {
        InsertRowMembers(row, sorted[1..]);
      }
    }
  }

  lemma InsertRowIn(row: ClientRow, sorted: seq<ClientRow>, x: ClientRow)
    requires x in InsertRow(row, sorted)
    ensures x == row || x in sorted
  {
    InsertRowMembers(row, sorted);
    assert x in multiset(InsertRow(row, sorted));
  }

  lemma PrecedesOrder(a: ClientRow, b: ClientRow, c: ClientRow)
    ensures Precedes(a, b) || Precedes(b, a)
    ensures Precedes(a, b) && Precedes(b, c) ==> Precedes(a, c)
  {
    NameLeqOrder(a.name, b.name, c.name);
    NameLeqOrder(b.name, a.name, c.name);
  }

  lemma {:induction false} InsertRowSorted(row: ClientRow, sorted: seq<ClientRow>)
    requires Chained(sorted)
    ensures Chained(InsertRow(row, sorted))
    ensures multiset(InsertRow(row, sorted)) == multiset(sorted) + multiset{row}
  {
    hide Precedes;
    InsertRowMembers(row, sorted);
    if sorted != [] {
      PrecedesOrder(row, sorted[0], row);
      var rest := sorted[1..];
      if Precedes(row, sorted[0]) {
        forall j | 0 <= j < |sorted| ensures Precedes(row, sorted[j]) {
          PrecedesOrder(row, sorted[0], sorted[j]);
        }
      } else {
        InsertRowSorted(row, rest);
        var inner := InsertRow(row, rest);
        forall j | 0 <= j < |inner| ensures Precedes(sorted[0], inner[j]) {
          InsertRowIn(row, rest, inner[j]);
          if inner[j] != row {
            var k :| 0 <= k < |rest| && rest[k] == inner[j];
            assert sorted[k + 1] == inner[j];
          }
        }
      }
    }
  }

  /** Sorting loses and invents no terminal, and puts the most recently active first. */
  lemma {:induction false} ByActivitySorted(rows: seq<ClientRow>)
    ensures Sorted(ByActivity(rows)) && multiset(ByActivity(rows)) == multiset(rows)
  {
    ByActivityChained(rows);
  }

  lemma {:induction false} ByActivityChained(rows: seq<ClientRow>)
    ensures Chained(ByActivity(rows)) && multiset(ByActivity(rows)) == multiset(rows)
  {
    if rows != [] {
      ByActivityChained(rows[1..]);
      InsertRowSorted(rows[0], ByActivity(rows[1..]));
      assert rows == [rows[0]] + rows[1..];
    }
  }

  lemma {:induction false} OrdinaryAre(rows: seq<ClientRow>)
    ensures forall r :: r in Ordinary(rows) <==> r in rows && !r.control
    ensures NamesDiffer(rows) ==> NamesDiffer(Ordinary(rows))
  {
    if rows != [] {
      OrdinaryAre(rows[1..]);
      assert rows == [rows[0]] + rows[1..];
      if NamesDiffer(rows) {
        assert NamesDiffer(rows[1..]) by {
          forall i, j | 0 <= i < j < |rows[1..]| ensures rows[1..][i].name != rows[1..][j].name {
            assert rows[i + 1].name != rows[j + 1].name;
          }
        }
        forall r | r in rows[1..] ensures r.name != rows[0].name {
          var k :| 0 <= k < |rows[1..]| && rows[1..][k] == r;
          assert rows[k + 1] == r;
        }
      }
    }
  }

  ghost predicate NamesDiffer(rows: seq<ClientRow>) {
    forall i, j | 0 <= i < j < |rows| :: rows[i].name != rows[j].name
  }

  /** Distinct names survive any reordering. */
  lemma {:induction false} ReorderedNames(rows: seq<ClientRow>, other: seq<ClientRow>)
    requires multiset(rows) == multiset(other) && NamesDiffer(rows)
    ensures NamesDiffer(other)
  {
    forall i, j | 0 <= i < j < |other| ensures other[i].name != other[j].name {
      assert other[i] in multiset(rows) && other[j] in multiset(rows);
      var a :| 0 <= a < |rows| && rows[a] == other[i];
      var b :| 0 <= b < |rows| && rows[b] == other[j];
      if a == b {
        TwiceCounts(other, i, j);
        OnceOnly(rows, a);
      }
    }
  }

  lemma TwiceCounts<T>(s: seq<T>, i: nat, j: nat)
    requires i < j < |s| && s[i] == s[j]
    ensures multiset(s)[s[i]] >= 2
  {
    assert s == s[..j] + s[j..];
    assert s[..j][i] == s[i] && s[j..][0] == s[j];
    assert s[i] in multiset(s[..j]) && s[j] in multiset(s[j..]);
  }

  lemma OnceOnly(rows: seq<ClientRow>, a: nat)
    requires NamesDiffer(rows) && a < |rows|
    ensures multiset(rows)[rows[a]] == 1
  {
    assert rows == rows[..a] + [rows[a]] + rows[a + 1..];
    assert rows[a] !in rows[..a] && rows[a] !in rows[a + 1..];
  }

  // ----- Which session each terminal goes to -----

  function FindBackup(backups: seq<Backup>, session: nat): Option<Backup> {
    if backups == [] then None
    else if backups[0].id == session then Some(backups[0])
    else FindBackup(backups[1..], session)
  }

  function FindById(sessions: seq<Session>, id: string): (r: Option<Session>)
    ensures r.Some? ==> r.value in sessions && r.value.id == id
    ensures r.None? ==> forall s | s in sessions :: s.id != id
  {
    if sessions == [] then None
    else if sessions[0].id == id then Some(sessions[0])
    else FindById(sessions[1..], id)
  }

  function FindByName(sessions: seq<Session>, name: string): (r: Option<Session>)
    ensures r.Some? ==> r.value in sessions && r.value.name == name
    ensures r.None? ==> forall s | s in sessions :: s.name != name
  {
    if sessions == [] then None
    else if sessions[0].name == name then Some(sessions[0])
    else FindByName(sessions[1..], name)
  }

  function SavedAttachments(state: State): seq<Attachment> {
    if state.clientState.Some? then state.clientState.value else []
  }

  /** The `k`-th most recently active terminal takes the `k`-th saved attachment; without one it
      follows its session's name, and failing that goes to the first restored session. */
  function TargetSession(state: State, backups: seq<Backup>, k: nat, row: ClientRow): (s: Session)
    requires state.sessions != []
    ensures s in state.sessions
  {
    var saved := SavedAttachments(state);
    var preferred := if k < |saved| then FindById(state.sessions, saved[k].sessionId) else None;
    var backup := FindBackup(backups, row.session);
    var named := if backup.Some? then FindByName(state.sessions, backup.value.originalName) else None;
    if preferred.Some? then preferred.value
    else if named.Some? then named.value
    else state.sessions[0]
  }

  function LastTarget(state: State, built: Built, k: nat, target: nat): Option<nat> {
    var saved := SavedAttachments(state);
    if k < |saved| && saved[k].lastSessionId.Some? && saved[k].lastSessionId.value in built.sessions
       && built.sessions[saved[k].lastSessionId.value] != target
    then Some(built.sessions[saved[k].lastSessionId.value])
    else None
  }

  function Desire(state: State, backups: seq<Backup>, built: Built, k: nat, row: ClientRow): Desired
    requires state.sessions != [] && forall s | s in state.sessions :: s.id in built.sessions
  {
    var session := TargetSession(state, backups, k, row);
    var target := built.sessions[session.id];
    var backup := FindBackup(backups, row.session);
    Desired(row.name, if backup.Some? then Some(backup.value.originalName) else None, session.name, target,
            LastTarget(state, built, k, target))
  }

  // ----- The same, said of the backups, the saved sessions and the saved attachments -----

  /** The session was renamed to step aside; this is its first backup. */
  ghost predicate WasOn(backups: seq<Backup>, session: nat, b: Backup) {
    exists i :: 0 <= i < |backups| && backups[i] == b && b.id == session && forall j | 0 <= j < i ::
      backups[j].id != session
  }

  ghost predicate FirstWithId(sessions: seq<Session>, id: string, s: Session) {
    exists i :: 0 <= i < |sessions| && sessions[i] == s && s.id == id && forall j | 0 <= j < i :: sessions[j].id != id
  }

  ghost predicate FirstNamed(sessions: seq<Session>, name: string, s: Session) {
    exists i :: 0 <= i < |sessions| && sessions[i] == s && s.name == name && forall j | 0 <= j < i ::
      sessions[j].name != name
  }

  /** The `k`-th saved attachment is of a saved session. */
  ghost predicate AttachmentKnown(state: State, k: nat) {
    && state.clientState.Some? && k < |state.clientState.value|
    && exists s :: s in state.sessions && s.id == state.clientState.value[k].sessionId
  }

  /** The session the terminal was on has a saved namesake. */
  ghost predicate NamesakeKnown(state: State, backups: seq<Backup>, session: nat) {
    exists b, s :: WasOn(backups, session, b) && s in state.sessions && s.name == b.originalName
  }

  /** Where the `k`-th most recently active terminal belongs: on the session of the `k`-th saved attachment; if
      there is none, on the saved session named like the one it was on; and else on the first saved session. */
  ghost predicate Belongs(state: State, backups: seq<Backup>, k: nat, session: nat, s: Session) {
    if AttachmentKnown(state, k) then FirstWithId(state.sessions, state.clientState.value[k].sessionId, s)
    else if NamesakeKnown(state, backups, session) then
      exists b :: WasOn(backups, session, b) && FirstNamed(state.sessions, b.originalName, s)
    else state.sessions != [] && s == state.sessions[0]
  }

  /** The session it is switched to before that, if any: the restored one its attachment had as last session,
      unless that is where it belongs anyway. */
  ghost predicate ComesBy(state: State, built: Built, k: nat, target: nat, last: Option<nat>) {
    if state.clientState.Some? && k < |state.clientState.value| && state.clientState.value[k].lastSessionId.Some?
       && state.clientState.value[k].lastSessionId.value in built.sessions
       && built.sessions[state.clientState.value[k].lastSessionId.value] != target
    then last == Some(built.sessions[state.clientState.value[k].lastSessionId.value])
    else last.None?
  }

  ghost predicate CameFrom(backups: seq<Backup>, session: nat, name: Option<string>) {
    match name
    case Some(original) => exists b :: WasOn(backups, session, b) && b.originalName == original
    case None => forall b | b in backups :: b.id != session
  }

  lemma {:induction false} FindBackupIsFirst(backups: seq<Backup>, session: nat)
    ensures FindBackup(backups, session).Some? ==> WasOn(backups, session, FindBackup(backups, session).value)
    ensures FindBackup(backups, session).None? ==> forall b | b in backups :: b.id != session
  {
    if backups != [] {
      if backups[0].id == session {
        assert WasOn(backups, session, backups[0]);
      } else {
        FindBackupIsFirst(backups[1..], session);
        if FindBackup(backups[1..], session).Some? {
          var i :| 0 <= i < |backups[1..]| && backups[1..][i] == FindBackup(backups[1..], session).value
                   && forall j | 0 <= j < i :: backups[1..][j].id != session;
          forall j | 0 <= j < i + 1 ensures backups[j].id != session {
            assert j > 0 ==> backups[j] == backups[1..][j - 1];
          }
          assert backups[i + 1] == FindBackup(backups, session).value;
        }
      }
    }
  }

  lemma {:induction false} FindByIdIsFirst(sessions: seq<Session>, id: string)
    ensures FindById(sessions, id).Some? ==> FirstWithId(sessions, id, FindById(sessions, id).value)
  {
    if sessions != [] {
      if sessions[0].id == id {
        assert FirstWithId(sessions, id, sessions[0]);
      } else {
        FindByIdIsFirst(sessions[1..], id);
        if FindById(sessions[1..], id).Some? {
          var i :| 0 <= i < |sessions[1..]| && sessions[1..][i] == FindById(sessions[1..], id).value
                   && forall j | 0 <= j < i :: sessions[1..][j].id != id;
          forall j | 0 <= j < i + 1 ensures sessions[j].id != id {
            assert j > 0 ==> sessions[j] == sessions[1..][j - 1];
          }
          assert sessions[i + 1] == FindById(sessions, id).value;
        }
      }
    }
  }

  lemma {:induction false} FindByNameIsFirst(sessions: seq<Session>, name: string)
    ensures FindByName(sessions, name).Some? ==> FirstNamed(sessions, name, FindByName(sessions, name).value)
  {
    if sessions != [] {
      if sessions[0].name == name {
        assert FirstNamed(sessions, name, sessions[0]);
      } else {
        FindByNameIsFirst(sessions[1..], name);
        if FindByName(sessions[1..], name).Some? {
          var i :| 0 <= i < |sessions[1..]| && sessions[1..][i] == FindByName(sessions[1..], name).value
                   && forall j | 0 <= j < i :: sessions[1..][j].name != name;
          forall j | 0 <= j < i + 1 ensures sessions[j].name != name {
            assert j > 0 ==> sessions[j] == sessions[1..][j - 1];
          }
          assert sessions[i + 1] == FindByName(sessions, name).value;
        }
      }
    }
  }

  lemma WasOnOnce(backups: seq<Backup>, session: nat, a: Backup, b: Backup)
    requires WasOn(backups, session, a) && WasOn(backups, session, b)
    ensures a == b
  {
  }

  /** What is computed for a terminal is where it belongs. */
  lemma DesireBelongs(state: State, backups: seq<Backup>, built: Built, k: nat, row: ClientRow)
    requires state.sessions != [] && forall s | s in state.sessions :: s.id in built.sessions
    ensures var d := Desire(state, backups, built, k, row);
            && d.name == row.name && CameFrom(backups, row.session, d.fromSession)
            && ComesBy(state, built, k, d.target, d.last)
            && exists s :: s in state.sessions && Belongs(state, backups, k, row.session, s)
                           && d.toSession == s.name && d.target == built.sessions[s.id]
  {
    FindBackupIsFirst(backups, row.session);
    var backup := FindBackup(backups, row.session);
    if backup.Some? {
      FindByNameIsFirst(state.sessions, backup.value.originalName);
    }
    if state.clientState.Some? && k < |state.clientState.value| {
      FindByIdIsFirst(state.sessions, state.clientState.value[k].sessionId);
    }
    TargetBelongs(state, backups, k, row);
  }

  lemma TargetBelongs(state: State, backups: seq<Backup>, k: nat, row: ClientRow)
    requires state.sessions != []
    ensures Belongs(state, backups, k, row.session, TargetSession(state, backups, k, row))
  {
    FindBackupIsFirst(backups, row.session);
    var backup := FindBackup(backups, row.session);
    if backup.Some? {
      FindByNameIsFirst(state.sessions, backup.value.originalName);
      forall b | WasOn(backups, row.session, b) ensures b == backup.value {
        WasOnOnce(backups, row.session, b, backup.value);
      }
    } else {
      forall b ensures !WasOn(backups, row.session, b) {
      }
    }
    if state.clientState.Some? && k < |state.clientState.value| {
      FindByIdIsFirst(state.sessions, state.clientState.value[k].sessionId);
    }
  }

  function DesiredNames(desired: seq<Desired>): seq<string> {
    seq(|desired|, i requires 0 <= i < |desired| => desired[i].name)
  }

  function WarnedNames(warnings: seq<ClientWarning>): seq<string> {
    seq(|warnings|, i requires 0 <= i < |warnings| => warnings[i].client)
  }

  function RecordNames(records: seq<ClientRecord>): seq<string> {
    seq(|records|, i requires 0 <= i < |records| => records[i].client)
  }

  function RowNames(rows: seq<ClientRow>): seq<string> {
    seq(|rows|, i requires 0 <= i < |rows| => rows[i].name)
  }

  // ----- How many terminals see each session -----

  function CountOn(rows: seq<ClientRow>, live: nat): nat {
    if rows == [] then 0
    else (if !rows[0].control && rows[0].session == live then 1 else 0) + CountOn(rows[1..], live)
  }

  function CountOnAny(rows: seq<ClientRow>, lives: set<nat>): nat {
    if rows == [] then 0
    else (if !rows[0].control && rows[0].session in lives then 1 else 0) + CountOnAny(rows[1..], lives)
  }

  function Total(visibility: seq<Visibility>): nat {
    if visibility == [] then 0
    else Total(visibility[..|visibility| - 1]) + visibility[|visibility| - 1].ordinaryClients
  }

  /** The ordinary terminals listed on these sessions. */
  function NamesOn(rows: seq<ClientRow>, lives: set<nat>): set<string> {
    set r | r in rows && !r.control && r.session in lives :: r.name
  }

  lemma {:induction false} CountOnAnyIs(rows: seq<ClientRow>, lives: set<nat>)
    requires NamesDiffer(rows)
    ensures CountOnAny(rows, lives) == |NamesOn(rows, lives)|
  {
    if rows == [] {
      assert NamesOn(rows, lives) == {};
    } else {
      TailDiffers(rows);
      CountOnAnyIs(rows[1..], lives);
      NamesOnFirst(rows, lives);
    }
  }

  lemma NamesOnFirst(rows: seq<ClientRow>, lives: set<nat>)
    requires rows != [] && forall r | r in rows[1..] :: r.name != rows[0].name
    ensures NamesOn(rows, lives)
            == NamesOn(rows[1..], lives) + if !rows[0].control && rows[0].session in lives then {rows[0].name} else {}
    ensures rows[0].name !in NamesOn(rows[1..], lives)
  {
    assert rows == [rows[0]] + rows[1..];
  }

  lemma TailDiffers(rows: seq<ClientRow>)
    requires rows != [] && NamesDiffer(rows)
    ensures NamesDiffer(rows[1..]) && forall r | r in rows[1..] :: r.name != rows[0].name
  {
    forall i, j | 0 <= i < j < |rows[1..]| ensures rows[1..][i].name != rows[1..][j].name {
      assert rows[i + 1].name != rows[j + 1].name;
    }
    forall r | r in rows[1..] ensures r.name != rows[0].name {
      var k :| 0 <= k < |rows[1..]| && rows[1..][k] == r;
      assert rows[k + 1] == r;
    }
  }

  lemma {:induction false} CountOnIs(rows: seq<ClientRow>, live: nat)
    requires NamesDiffer(rows)
    ensures CountOn(rows, live) == |NamesOn(rows, {live})|
  {
    CountNone(rows);
    CountSplits(rows, {}, live);
    assert {} + {live} == {live};
    CountOnAnyIs(rows, {live});
  }

  lemma {:induction false} CountSplits(rows: seq<ClientRow>, lives: set<nat>, live: nat)
    requires live !in lives
    ensures CountOnAny(rows, lives + {live}) == CountOnAny(rows, lives) + CountOn(rows, live)
  {
    if rows != [] {
      CountSplits(rows[1..], lives, live);
    }
  }

  lemma {:induction false} CountNone(rows: seq<ClientRow>)
    ensures CountOnAny(rows, {}) == 0
  {
    if rows != [] {
      CountNone(rows[1..]);
    }
  }

  // ----- Switching -----

  datatype SwitchOutcome = Switched | Gone | Failed

  /** Only terminals moved: the graph never changed, and nobody but `mover` changed session. */
  ghost predicate OnlyMoved(before: map<string, Client>, after: map<string, Client>, mover: string) {
    && after.Keys <= before.Keys
    && (forall n | n in after :: after[n].control == before[n].control)
    && (forall n | n in after && n != mover :: after[n] == before[n])
  }

  /** The trace grew, and every new entry is the given graph. */
  ghost predicate Quiet(before: seq<Graph>, after: seq<Graph>, g: Graph) {
    before <= after && forall k | |before| <= k < |after| :: after[k] == g
  }

  predicate OrdinaryAttached(rows: seq<ClientRow>, name: string) {
    exists k :: 0 <= k < |rows| && !rows[k].control && rows[k].name == name
  }

  method SwitchIfPresent(server: Server, name: string, session: nat) returns (r: SwitchOutcome)
    requires session in server.graph.sessions
    requires name in server.clients ==> !server.clients[name].control
    modifies server
    ensures server.graph == old(server.graph) && Quiet(old(server.trace), server.trace, server.graph)
    ensures server.failedMoves == old(server.failedMoves)
    ensures OnlyMoved(old(server.clients), server.clients, name) && server.faults >= old(server.faults)
    ensures r.Switched? && name in server.clients ==> server.clients[name].session == session
    ensures r.Gone? ==> name !in server.clients
    ensures r.Failed? ==> server.faults > old(server.faults)
    ensures forall n | n != name :: VisitsOf(server.visits, n) == VisitsOf(old(server.visits), n)
    ensures r.Switched? ==> VisitsOf(server.visits, name) == VisitsOf(old(server.visits), name) + [session]
    ensures server.looks == old(server.looks)
  {
    var output := server.Execute(SwitchClient(name, session));
    if output.Some? {
      return Switched;
    }
    var attached := server.ListClients();
    if attached.None? {
      return Failed;
    }
    if OrdinaryAttached(attached.value, name) {
      return Failed;
    }
    return Gone;
  }

  ghost predicate DesiredDiffer(desired: seq<Desired>) {
    forall i, j | 0 <= i < j < |desired| :: desired[i].name != desired[j].name
  }

  /** Every desired move so far either took effect or is warned about, each once. */
  ghost predicate Accounted(done: seq<Desired>, switched: seq<Desired>, warnings: seq<ClientWarning>,
                            clients: map<string, Client>)
  {
    && |switched| + |warnings| == |done|
    && multiset(DesiredNames(switched)) + multiset(WarnedNames(warnings)) == multiset(DesiredNames(done))
    && forall d | d in switched :: d in done && (d.name in clients ==> clients[d.name].session == d.target)
  }

  lemma AccountSwitched(done: seq<Desired>, switched: seq<Desired>, warnings: seq<ClientWarning>,
                        before: map<string, Client>, after: map<string, Client>, d: Desired)
    requires Accounted(done, switched, warnings, before) && DesiredDiffer(done + [d])
    requires OnlyMoved(before, after, d.name)
    requires d.name in after ==> after[d.name].session == d.target
    ensures Accounted(done + [d], switched + [d], warnings, after)
  {
    assert DesiredNames(done + [d]) == DesiredNames(done) + [d.name];
    assert DesiredNames(switched + [d]) == DesiredNames(switched) + [d.name];
    OthersDiffer(done, d);
  }

  lemma AccountWarned(done: seq<Desired>, switched: seq<Desired>, warnings: seq<ClientWarning>,
                      before: map<string, Client>, after: map<string, Client>, d: Desired)
    requires Accounted(done, switched, warnings, before) && DesiredDiffer(done + [d])
    requires OnlyMoved(before, after, d.name)
    ensures Accounted(done + [d], switched, warnings + [Disappeared(d.name)], after)
  {
    assert DesiredNames(done + [d]) == DesiredNames(done) + [d.name];
    assert WarnedNames(warnings + [Disappeared(d.name)]) == WarnedNames(warnings) + [d.name];
    OthersDiffer(done, d);
  }

  lemma OthersDiffer(done: seq<Desired>, d: Desired)
    requires DesiredDiffer(done + [d])
    ensures forall e | e in done :: e.name != d.name
  {
    forall e | e in done ensures e.name != d.name {
      var k :| 0 <= k < |done| && done[k] == e;
      assert (done + [d])[k].name != (done + [d])[|done|].name;
    }
  }

  /** The sessions a terminal was to be switched to, in order. */
  function Path(d: Desired): seq<nat> {
    (if d.last.Some? then [d.last.value] else []) + [d.target]
  }

  /** Those switched took exactly their paths, and those warned about are gone. */
  ghost predicate Toured(switched: seq<Desired>, warnings: seq<ClientWarning>, visits0: map<string, seq<nat>>,
                         visits: map<string, seq<nat>>, clients: map<string, Client>)
  {
    && (forall d | d in switched :: VisitsOf(visits, d.name) == VisitsOf(visits0, d.name) + Path(d))
    && (forall w | w in warnings :: w.client !in clients)
  }

  lemma TouredMore(switched: seq<Desired>, warnings: seq<ClientWarning>, visits0: map<string, seq<nat>>,
                   before: map<string, seq<nat>>, after: map<string, seq<nat>>, clients: map<string, Client>,
                   later: map<string, Client>, d: Desired)
    requires Toured(switched, warnings, visits0, before, clients) && later.Keys <= clients.Keys
    requires forall e | e in switched :: e.name != d.name
    requires forall n | n != d.name :: VisitsOf(after, n) == VisitsOf(before, n)
    ensures VisitsOf(after, d.name) == VisitsOf(visits0, d.name) + Path(d)
            ==> Toured(switched + [d], warnings, visits0, after, later)
    ensures d.name !in later ==> Toured(switched, warnings + [Disappeared(d.name)], visits0, after, later)
  {
    hide Path;
  }

  /** First to its last session, if it has one, and then to where it belongs. */
  method SwitchOne(server: Server, d: Desired) returns (r: SwitchOutcome)
    requires d.target in server.graph.sessions && (d.last.Some? ==> d.last.value in server.graph.sessions)
    requires d.name in server.clients ==> !server.clients[d.name].control
    modifies server
    ensures server.graph == old(server.graph) && Quiet(old(server.trace), server.trace, server.graph)
    ensures server.failedMoves == old(server.failedMoves) && server.looks == old(server.looks)
    ensures OnlyMoved(old(server.clients), server.clients, d.name) && server.faults >= old(server.faults)
    ensures r.Switched? && d.name in server.clients ==> server.clients[d.name].session == d.target
    ensures r.Gone? ==> d.name !in server.clients
    ensures r.Failed? ==> server.faults > old(server.faults)
    ensures forall n | n != d.name :: VisitsOf(server.visits, n) == VisitsOf(old(server.visits), n)
    ensures r.Switched? ==> VisitsOf(server.visits, d.name) == VisitsOf(old(server.visits), d.name) + Path(d)
  {
    hide VisitsOf, Path;
    r := Switched;
    if d.last.Some? {
      r := SwitchIfPresent(server, d.name, d.last.value);
    }
    if r.Switched? {
      r := SwitchIfPresent(server, d.name, d.target);
    }
    if r.Switched? {
      PathTaken(d, old(server.visits), server.visits);
    }
  }

  /** The switching loop over the desired moves. */
  method SwitchAll(server: Server, desired: seq<Desired>)
    returns (ok: bool, switched: seq<Desired>, warnings: seq<ClientWarning>)
    requires DesiredDiffer(desired)
    requires forall d | d in desired ::
               && d.target in server.graph.sessions
               && (d.last.Some? ==> d.last.value in server.graph.sessions)
               && (d.name in server.clients ==> !server.clients[d.name].control)
    modifies server
    ensures server.graph == old(server.graph) && Quiet(old(server.trace), server.trace, server.graph)
    ensures server.failedMoves == old(server.failedMoves)
    ensures server.clients.Keys <= old(server.clients).Keys
    ensures forall n | n in server.clients :: server.clients[n].control == old(server.clients)[n].control
    ensures server.faults >= old(server.faults)
    ensures !ok ==> server.faults > old(server.faults)
    ensures ok ==> Accounted(desired, switched, warnings, server.clients)
    ensures ok ==> Toured(switched, warnings, old(server.visits), server.visits, server.clients)
    ensures ok ==> forall n | n !in DesiredNames(desired) ::
              VisitsOf(server.visits, n) == VisitsOf(old(server.visits), n)
    ensures server.looks == old(server.looks)
  {
    hide Accounted, Toured, VisitsOf, Path;
    switched, warnings := [], [];
    NothingYet(server.clients, server.visits);
    assert desired[..0] == [];
    for i := 0 to |desired|
      invariant server.graph == old(server.graph) && Quiet(old(server.trace), server.trace, server.graph)
      invariant server.clients.Keys <= old(server.clients).Keys
      invariant forall n | n in server.clients :: server.clients[n].control == old(server.clients)[n].control
      invariant server.faults >= old(server.faults) && server.failedMoves == old(server.failedMoves)
      invariant Accounted(desired[..i], switched, warnings, server.clients)
      invariant Toured(switched, warnings, old(server.visits), server.visits, server.clients)
      invariant forall n | n !in DesiredNames(desired[..i]) ::
                  VisitsOf(server.visits, n) == VisitsOf(old(server.visits), n)
      invariant server.looks == old(server.looks)
    {
      var d := desired[i];
      ghost var before, visits := server.clients, server.visits;
      NotYet(desired, i, switched, warnings, server.clients);
      assert desired[..i + 1] == desired[..i] + [d];
      var outcome := SwitchOne(server, d);
      match outcome {
        case Failed =>
          ok := false;
          return;
        case Gone =>
          AccountWarned(desired[..i], switched, warnings, before, server.clients, d);
          TouredMore(switched, warnings, old(server.visits), visits, server.visits, before, server.clients, d);
          warnings := warnings + [Disappeared(d.name)];
        case Switched =>
          AccountSwitched(desired[..i], switched, warnings, before, server.clients, d);
          TouredMore(switched, warnings, old(server.visits), visits, server.visits, before, server.clients, d);
          switched := switched + [d];
      }
    }
    assert desired[..|desired|] == desired;
    ok := true;
  }

  lemma NothingYet(clients: map<string, Client>, visits: map<string, seq<nat>>)
    ensures Accounted([], [], [], clients) && Toured([], [], visits, visits, clients)
  {
  }

  /** The next terminal has not been dealt with. */
  lemma NotYet(desired: seq<Desired>, i: nat, switched: seq<Desired>, warnings: seq<ClientWarning>,
               clients: map<string, Client>)
    requires i < |desired| && DesiredDiffer(desired) && Accounted(desired[..i], switched, warnings, clients)
    ensures desired[i].name !in DesiredNames(desired[..i])
    ensures forall e | e in switched :: e.name != desired[i].name
    ensures DesiredNames(desired[..i + 1]) == DesiredNames(desired[..i]) + [desired[i].name]
  {
    assert desired[..i + 1] == desired[..i] + [desired[i]];
    forall e | e in desired[..i] ensures e.name != desired[i].name {
      var k :| 0 <= k < i && desired[..i][k] == e;
      assert desired[k].name != desired[i].name;
    }
  }

  lemma PathTaken(d: Desired, visits0: map<string, seq<nat>>, visits: map<string, seq<nat>>)
    requires VisitsOf(visits, d.name)
             == (if d.last.Some? then VisitsOf(visits0, d.name) + [d.last.value] else VisitsOf(visits0, d.name))
               + [d.target]
    ensures VisitsOf(visits, d.name) == VisitsOf(visits0, d.name) + Path(d)
  {
  }

  /** The records name terminals that the final listing shows on the session they were sent to. */
  ghost predicate Verified(records: seq<ClientRecord>, desired: seq<Desired>, attached: seq<ClientRow>) {
    forall k | 0 <= k < |records| :: exists d, r :: d in desired && r in attached && Confirms(records[k], d, r)
  }

  ghost predicate Confirms(record: ClientRecord, d: Desired, r: ClientRow) {
    && !r.control && r.name == d.name && r.session == d.target
    && record == ClientRecord(d.name, d.fromSession, d.toSession)
  }

  function FindOrdinary(rows: seq<ClientRow>, name: string): (r: Option<ClientRow>)
    ensures r.Some? ==> r.value in rows && !r.value.control && r.value.name == name
    ensures r.None? ==> !OrdinaryAttached(rows, name)
  {
    if rows == [] then None
    else if !rows[0].control && rows[0].name == name then Some(rows[0])
    else
      var rest := FindOrdinary(rows[1..], name);
      assert forall k | 0 <= k < |rows| - 1 :: rows[1..][k] == rows[k + 1];
      rest
  }

  /** Every terminal of `done` is recorded or warned about, on top of earlier warnings. */
  ghost predicate Tally(done: seq<Desired>, warnings0: seq<ClientWarning>, records: seq<ClientRecord>,
                        warnings: seq<ClientWarning>)
  {
    && |records| + |warnings| == |done| + |warnings0|
    && multiset(RecordNames(records)) + multiset(WarnedNames(warnings))
       == multiset(DesiredNames(done)) + multiset(WarnedNames(warnings0))
  }

  lemma TallyRecord(done: seq<Desired>, warnings0: seq<ClientWarning>, records: seq<ClientRecord>,
                    warnings: seq<ClientWarning>, d: Desired)
    requires Tally(done, warnings0, records, warnings)
    ensures Tally(done + [d], warnings0, records + [ClientRecord(d.name, d.fromSession, d.toSession)], warnings)
  {
    assert DesiredNames(done + [d]) == DesiredNames(done) + [d.name];
    var record := ClientRecord(d.name, d.fromSession, d.toSession);
    assert RecordNames(records + [record]) == RecordNames(records) + [d.name];
    AddName(RecordNames(records), WarnedNames(warnings), DesiredNames(done), WarnedNames(warnings0), d.name);
  }

  lemma AddName(a: seq<string>, b: seq<string>, c: seq<string>, d: seq<string>, name: string)
    requires multiset(a) + multiset(b) == multiset(c) + multiset(d)
    ensures multiset(a + [name]) + multiset(b) == multiset(c + [name]) + multiset(d)
    ensures multiset(a) + multiset(b + [name]) == multiset(c + [name]) + multiset(d)
  {
    var left, right := multiset(a) + multiset(b), multiset(c) + multiset(d);
    assert multiset(a + [name]) + multiset(b) == left + multiset{name};
    assert multiset(a) + multiset(b + [name]) == left + multiset{name};
    assert multiset(c + [name]) + multiset(d) == right + multiset{name};
  }

  lemma TallyWarning(done: seq<Desired>, warnings0: seq<ClientWarning>, records: seq<ClientRecord>,
                     warnings: seq<ClientWarning>, d: Desired)
    requires Tally(done, warnings0, records, warnings)
    ensures Tally(done + [d], warnings0, records, warnings + [Disappeared(d.name)])
  {
    assert DesiredNames(done + [d]) == DesiredNames(done) + [d.name];
    assert WarnedNames(warnings + [Disappeared(d.name)]) == WarnedNames(warnings) + [d.name];
    AddName(RecordNames(records), WarnedNames(warnings), DesiredNames(done), WarnedNames(warnings0), d.name);
  }

  /** Confirms each switched terminal against one final listing. */
  method VerifySwitched(switched: seq<Desired>, warnings0: seq<ClientWarning>, attached: seq<ClientRow>,
                        ghost clients: map<string, Client>, ghost desired: seq<Desired>)
    returns (records: seq<ClientRecord>, warnings: seq<ClientWarning>)
    requires Lists(attached, clients) && Accounted(desired, switched, warnings0, clients)
    requires forall w | w in warnings0 :: w.client !in clients
    ensures forall w | w in warnings :: !OrdinaryAttached(attached, w.client)
    ensures |records| + |warnings| == |desired|
    ensures multiset(RecordNames(records)) + multiset(WarnedNames(warnings)) == multiset(DesiredNames(desired))
    ensures Verified(records, switched, attached)
  {
    hide Tally, Verified, OrdinaryAttached;
    records, warnings := [], warnings0;
    forall w | w in warnings ensures !OrdinaryAttached(attached, w.client) {
      GoneIsUnlisted(attached, clients, w.client);
    }
    VerifiedNone(switched, attached, warnings0);
    assert switched[..0] == [];
    for i := 0 to |switched|
      invariant Tally(switched[..i], warnings0, records, warnings)
      invariant Verified(records, switched, attached)
      invariant forall w | w in warnings :: !OrdinaryAttached(attached, w.client)
    {
      var d := switched[i];
      assert d in switched && switched[..i + 1] == switched[..i] + [d];
      var actual := FindOrdinary(attached, d.name);
      if actual.None? {
        TallyWarning(switched[..i], warnings0, records, warnings, d);
        warnings := warnings + [Disappeared(d.name)];
      } else {
        // A terminal found on any other session would fail the restore here; it cannot be.
        assert actual.value.session == d.target;
        TallyRecord(switched[..i], warnings0, records, warnings, d);
        VerifiedOne(records, switched, attached, d, actual.value);
        records := records + [ClientRecord(d.name, d.fromSession, d.toSession)];
      }
    }
    assert switched[..|switched|] == switched;
    TallyEnd(switched, warnings0, records, warnings);
  }

  lemma GoneIsUnlisted(attached: seq<ClientRow>, clients: map<string, Client>, name: string)
    requires Lists(attached, clients) && name !in clients
    ensures !OrdinaryAttached(attached, name)
  {
  }

  lemma VerifiedNone(desired: seq<Desired>, attached: seq<ClientRow>, warnings0: seq<ClientWarning>)
    ensures Verified([], desired, attached) && Tally([], warnings0, [], warnings0)
  {
  }

  lemma VerifiedOne(records: seq<ClientRecord>, desired: seq<Desired>, attached: seq<ClientRow>, d: Desired,
                    r: ClientRow)
    requires Verified(records, desired, attached) && d in desired
    requires r in attached && !r.control && r.name == d.name && r.session == d.target
    ensures Verified(records + [ClientRecord(d.name, d.fromSession, d.toSession)], desired, attached)
  {
    assert Confirms(ClientRecord(d.name, d.fromSession, d.toSession), d, r);
  }

  lemma TallyEnd(done: seq<Desired>, warnings0: seq<ClientWarning>, records: seq<ClientRecord>,
                 warnings: seq<ClientWarning>)
    requires Tally(done, warnings0, records, warnings)
    ensures |records| + |warnings| == |done| + |warnings0|
    ensures multiset(RecordNames(records)) + multiset(WarnedNames(warnings))
            == multiset(DesiredNames(done)) + multiset(WarnedNames(warnings0))
  {
  }

  /** The restored sessions' live ids. */
  ghost function LiveIds(sessions: seq<Session>, built: Built): set<nat>
    requires forall s | s in sessions :: s.id in built.sessions
  {
    set s | s in sessions :: built.sessions[s.id]
  }

  /** One entry per session so far; together they count the terminals on any of those sessions. */
  ghost predicate Seen(visibility: seq<Visibility>, sessions: seq<Session>, built: Built, attached: seq<ClientRow>)
    requires forall s | s in sessions :: s.id in built.sessions
  {
    && |visibility| == |sessions|
    && (forall k | 0 <= k < |sessions| ::
          visibility[k] == Visibility(sessions[k].name, CountOn(attached, built.sessions[sessions[k].id])))
    && Total(visibility) == CountOnAny(attached, LiveIds(sessions, built))
  }

  lemma SeenIsCounted(visibility: seq<Visibility>, sessions: seq<Session>, built: Built, attached: seq<ClientRow>)
    requires forall s | s in sessions :: s.id in built.sessions
    requires NamesDiffer(attached) && Seen(visibility, sessions, built, attached)
    ensures Counted(visibility, sessions, built, attached)
  {
    hide NamesOn, LiveIds;
    CountOnAnyIs(attached, LiveIds(sessions, built));
    forall k | 0 <= k < |sessions|
      ensures visibility[k].ordinaryClients == |NamesOn(attached, {built.sessions[sessions[k].id]})|
    {
      CountOnIs(attached, built.sessions[sessions[k].id]);
    }
  }

  lemma SeenNone(built: Built, attached: seq<ClientRow>)
    ensures Seen([], [], built, attached)
  {
    CountNone(attached);
    assert LiveIds([], built) == {};
  }

  lemma SeenMore(visibility: seq<Visibility>, sessions: seq<Session>, built: Built, attached: seq<ClientRow>, i: nat)
    requires i < |sessions| && forall s | s in sessions :: s.id in built.sessions
    requires Injective(built.sessions) && Distinct(SessionIds(sessions))
    requires forall s | s in sessions[..i] :: s.id in built.sessions
    requires Seen(visibility, sessions[..i], built, attached)
    ensures forall s | s in sessions[..i + 1] :: s.id in built.sessions
    ensures var entry := Visibility(sessions[i].name, CountOn(attached, built.sessions[sessions[i].id]));
            Seen(visibility + [entry], sessions[..i + 1], built, attached)
  {
    var entry := Visibility(sessions[i].name, CountOn(attached, built.sessions[sessions[i].id]));
    LiveIdsGrow(sessions, built, i);
    hide LiveIds, Injective;
    CountSplits(attached, LiveIds(sessions[..i], built), built.sessions[sessions[i].id]);
    assert (visibility + [entry])[..i] == visibility;
    forall k | 0 <= k <= i
      ensures (visibility + [entry])[k]
              == Visibility(sessions[k].name, CountOn(attached, built.sessions[sessions[k].id]))
    {
      assert k < i ==> sessions[..i][k] == sessions[k];
    }
  }

  method CountVisibility(sessions: seq<Session>, built: Built, attached: seq<ClientRow>)
    returns (visibility: seq<Visibility>)
    requires forall s | s in sessions :: s.id in built.sessions
    requires Injective(built.sessions) && Distinct(SessionIds(sessions)) && NamesDiffer(attached)
    ensures Counted(visibility, sessions, built, attached)
  {
    hide Seen, Injective, NamesDiffer;
    visibility := [];
    SeenNone(built, attached);
    assert sessions[..0] == [];
    for i := 0 to |sessions|
      invariant forall s | s in sessions[..i] :: s.id in built.sessions
      invariant Seen(visibility, sessions[..i], built, attached)
    {
      SeenMore(visibility, sessions, built, attached, i);
      visibility := visibility + [Visibility(sessions[i].name, CountOn(attached, built.sessions[sessions[i].id]))];
    }
    assert sessions[..|sessions|] == sessions;
    SeenIsCounted(visibility, sessions, built, attached);
  }

  lemma LiveIdsGrow(sessions: seq<Session>, built: Built, i: nat)
    requires i < |sessions| && forall s | s in sessions :: s.id in built.sessions
    requires Injective(built.sessions) && Distinct(SessionIds(sessions))
    ensures built.sessions[sessions[i].id] !in LiveIds(sessions[..i], built)
    ensures LiveIds(sessions[..i + 1], built) == LiveIds(sessions[..i], built) + {built.sessions[sessions[i].id]}
  {
    assert sessions[..i + 1] == sessions[..i] + [sessions[i]];
    forall s | s in sessions[..i] ensures s.id != sessions[i].id {
      var k :| 0 <= k < i && sessions[k] == s;
      assert SessionIds(sessions)[k] != SessionIds(sessions)[i];
    }
  }

  /** A record of the `k`-th of the terminals in their order of activity: in the final listing it is on the
      session where it belongs, and it was switched there, by way of its last session, and nowhere else. */
  ghost predicate Arrived(record: ClientRecord, state: State, backups: seq<Backup>, built: Built, k: nat,
                          row: ClientRow, s: Session, last: Option<nat>, attached: seq<ClientRow>,
                          visits0: map<string, seq<nat>>, visits: map<string, seq<nat>>)
    requires s.id in built.sessions
  {
    && Belongs(state, backups, k, row.session, s) && ComesBy(state, built, k, built.sessions[s.id], last)
    && CameFrom(backups, row.session, record.fromSession)
    && record.client == row.name && record.toSession == s.name
    && (exists r :: r in attached && !r.control && r.name == row.name && r.session == built.sessions[s.id])
    && VisitsOf(visits, row.name)
       == VisitsOf(visits0, row.name) + (if last.Some? then [last.value] else []) + [built.sessions[s.id]]
  }

  ghost predicate Reached(record: ClientRecord, state: State, backups: seq<Backup>, built: Built,
                          ordinary: seq<ClientRow>, attached: seq<ClientRow>, visits0: map<string, seq<nat>>,
                          visits: map<string, seq<nat>>)
    requires forall s | s in state.sessions :: s.id in built.sessions
  {
    exists k, s, last :: 0 <= k < |ordinary| && s in state.sessions
      && Arrived(record, state, backups, built, k, ordinary[k], s, last, attached, visits0, visits)
  }

  /** `ordinary` are the ordinary ones of the rows, the most recently active first. */
  ghost predicate InActivityOrder(rows: seq<ClientRow>, ordinary: seq<ClientRow>) {
    && Sorted(ordinary) && NamesDiffer(ordinary)
    && forall r :: r in ordinary <==> r in rows && !r.control
  }

  /** One entry to a saved session, in order, with the number of ordinary terminals listed on it. */
  ghost predicate Counted(visibility: seq<Visibility>, sessions: seq<Session>, built: Built, attached: seq<ClientRow>)
    requires forall s | s in sessions :: s.id in built.sessions
  {
    && |visibility| == |sessions|
    && (forall k | 0 <= k < |sessions| ::
          && visibility[k].session == sessions[k].name
          && visibility[k].ordinaryClients == |NamesOn(attached, {built.sessions[sessions[k].id]})|)
    && Total(visibility) == |NamesOn(attached, LiveIds(sessions, built))|
  }

  /** What a successful switch promises about the terminals that were listed at the start. */
  ghost predicate ClientsAccounted(state: State, backups: seq<Backup>, built: Built, ordinary: seq<ClientRow>,
                                   result: SwitchResult, attached: seq<ClientRow>, visits0: map<string, seq<nat>>,
                                   visits: map<string, seq<nat>>)
    requires forall s | s in state.sessions :: s.id in built.sessions
  {
    && |result.clients| + |result.warnings| == |ordinary|
    && multiset(RecordNames(result.clients)) + multiset(WarnedNames(result.warnings)) == multiset(RowNames(ordinary))
    && (forall k | 0 <= k < |result.clients| ::
          Reached(result.clients[k], state, backups, built, ordinary, attached, visits0, visits))
    && (forall w | w in result.warnings :: !OrdinaryAttached(attached, w.client))
    && Counted(result.visibility, state.sessions, built, attached)
    && (forall n | n !in RowNames(ordinary) :: VisitsOf(visits, n) == VisitsOf(visits0, n))
  }

  method DesireAll(state: State, backups: seq<Backup>, built: Built, rows: seq<ClientRow>)
    returns (desired: seq<Desired>)
    requires state.sessions != [] && forall s | s in state.sessions :: s.id in built.sessions
    ensures |desired| == |rows|
    ensures forall k | 0 <= k < |rows| :: desired[k] == Desire(state, backups, built, k, rows[k])
  {
    desired := [];
    for k := 0 to |rows|
      invariant |desired| == k
      invariant forall j | 0 <= j < k :: desired[j] == Desire(state, backups, built, j, rows[j])
    {
      desired := desired + [Desire(state, backups, built, k, rows[k])];
    }
  }

  lemma NamesDesired(ordinary: seq<ClientRow>, desired: seq<Desired>)
    requires |desired| == |ordinary|
    requires forall k | 0 <= k < |desired| :: desired[k].name == ordinary[k].name
    ensures DesiredNames(desired) == RowNames(ordinary)
  {
  }

  lemma DesiredReachable(g: Graph, clients: map<string, Client>, state: State, backups: seq<Backup>, built: Built,
                         rows: seq<ClientRow>, ordinary: seq<ClientRow>, desired: seq<Desired>)
    requires state.sessions != []
    requires forall s | s in state.sessions :: s.id in built.sessions && built.sessions[s.id] in g.sessions
    requires forall id | id in built.sessions :: built.sessions[id] in g.sessions
    requires NamesDiffer(ordinary) && multiset(ordinary) == multiset(Ordinary(rows))
    requires forall r | r in rows && r.name in clients :: clients[r.name].control == r.control
    requires |desired| == |ordinary|
    requires forall k | 0 <= k < |ordinary| :: desired[k] == Desire(state, backups, built, k, ordinary[k])
    ensures DesiredDiffer(desired)
    ensures forall d | d in desired ::
              && d.target in g.sessions
              && (d.last.Some? ==> d.last.value in g.sessions)
              && (d.name in clients ==> !clients[d.name].control)
  {
    OrdinaryAre(rows);
    forall d | d in desired
      ensures d.target in g.sessions
      ensures d.last.Some? ==> d.last.value in g.sessions
      ensures d.name in clients ==> !clients[d.name].control
    {
      var k :| 0 <= k < |desired| && desired[k] == d;
      assert ordinary[k] in multiset(Ordinary(rows));
      assert ordinary[k] in rows && !ordinary[k].control;
    }
  }

  lemma AccountedLater(desired: seq<Desired>, switched: seq<Desired>, warnings: seq<ClientWarning>,
                       before: map<string, Client>, after: map<string, Client>)
    requires Accounted(desired, switched, warnings, before)
    requires after.Keys <= before.Keys && forall n | n in after :: after[n] == before[n]
    ensures Accounted(desired, switched, warnings, after)
    ensures forall d | d in switched :: d in desired
  {
  }

  lemma ConfirmedBy(records: seq<ClientRecord>, switched: seq<Desired>, attached: seq<ClientRow>, k: nat)
    returns (d: Desired, r: ClientRow)
    requires Verified(records, switched, attached) && k < |records|
    ensures d in switched && r in attached && Confirms(records[k], d, r)
  {
    var record := records[k];
    d, r :| d in switched && r in attached && Confirms(record, d, r);
  }

  lemma RecordsReach(state: State, backups: seq<Backup>, built: Built, ordinary: seq<ClientRow>,
                     desired: seq<Desired>, switched: seq<Desired>, records: seq<ClientRecord>,
                     attached: seq<ClientRow>, visits0: map<string, seq<nat>>, visits: map<string, seq<nat>>)
    requires state.sessions != [] && forall s | s in state.sessions :: s.id in built.sessions
    requires |desired| == |ordinary| && forall d | d in switched :: d in desired
    requires forall k | 0 <= k < |ordinary| :: desired[k] == Desire(state, backups, built, k, ordinary[k])
    requires Verified(records, switched, attached)
    requires forall d | d in switched :: VisitsOf(visits, d.name) == VisitsOf(visits0, d.name) + Path(d)
    ensures forall k | 0 <= k < |records| ::
              Reached(records[k], state, backups, built, ordinary, attached, visits0, visits)
  {
    hide Desire, Belongs, ComesBy, CameFrom, VisitsOf;
    forall k | 0 <= k < |records|
      ensures Reached(records[k], state, backups, built, ordinary, attached, visits0, visits)
    {
      var d, r := ConfirmedBy(records, switched, attached, k);
      var j :| 0 <= j < |desired| && desired[j] == d;
      DesireBelongs(state, backups, built, j, ordinary[j]);
      var s :| s in state.sessions && Belongs(state, backups, j, ordinary[j].session, s)
               && d.toSession == s.name && d.target == built.sessions[s.id];
      var x := VisitsOf(visits0, d.name);
      assert x + Path(d) == x + (if d.last.Some? then [d.last.value] else []) + [d.target];
      assert Arrived(records[k], state, backups, built, j, ordinary[j], s, d.last, attached, visits0, visits);
    }
  }

  /** Moves every ordinary terminal to where it belongs. */
  method SwitchClients(server: Server, rows: seq<ClientRow>, backups: seq<Backup>, built: Built, state: State)
    returns (result: Option<SwitchResult>, ghost attached: seq<ClientRow>, ghost ordered: seq<ClientRow>)
    requires state.sessions != [] && Distinct(SessionIds(state.sessions)) && Injective(built.sessions)
    requires forall s | s in state.sessions ::
               s.id in built.sessions && built.sessions[s.id] in server.graph.sessions
    requires forall id | id in built.sessions :: built.sessions[id] in server.graph.sessions
    requires NamesDiffer(rows)
    requires forall r | r in rows && r.name in server.clients :: server.clients[r.name].control == r.control
    modifies server
    ensures server.graph == old(server.graph) && Quiet(old(server.trace), server.trace, server.graph)
    ensures server.failedMoves == old(server.failedMoves) && server.looks == old(server.looks)
    ensures server.clients.Keys <= old(server.clients).Keys && server.faults >= old(server.faults)
    ensures forall n | n in server.clients :: server.clients[n].control == old(server.clients)[n].control
    ensures result.None? ==> server.faults > old(server.faults)
    ensures InActivityOrder(rows, ordered)
    ensures result.Some? ==> Lists(attached, server.clients)
                             && ClientsAccounted(state, backups, built, ordered, result.value, attached,
                                                 old(server.visits), server.visits)
  {
    hide Belongs, ComesBy, CameFrom, VisitsOf;
    attached := [];
    var ordinary := ByActivity(Ordinary(rows));
    ordered := ordinary;
    ByActivitySorted(Ordinary(rows));
    OrdinaryAre(rows);
    SameMembers(ordinary, Ordinary(rows));
    ReorderedNames(Ordinary(rows), ordinary);
    var desired := DesireAll(state, backups, built, ordinary);
    NamesDesired(ordinary, desired);
    DesiredReachable(server.graph, server.clients, state, backups, built, rows, ordinary, desired);
    hide NamesDiffer, ByActivity, Ordinary, Desire, Accounted, DesiredDiffer, Sorted, Counted;
    ghost var visits0 := server.visits;
    var ok, switched, warnings := SwitchAll(server, desired);
    if !ok {
      return None, attached, ordered;
    }
    ghost var before := server.clients;
    var final := server.ListClients();
    if final.None? {
      return None, attached, ordered;
    }
    attached := final.value;
    AccountedLater(desired, switched, warnings, before, server.clients);
    ListedDiffer(attached, server.clients);
    var records;
    records, warnings := VerifySwitched(switched, warnings, final.value, server.clients, desired);
    var visibility := CountVisibility(state.sessions, built, final.value);
    RecordsReach(state, backups, built, ordinary, desired, switched, records, final.value, visits0, server.visits);
    return Some(SwitchResult(records, visibility, warnings)), attached, ordered;
  }

  lemma SameMembers<T>(a: seq<T>, b: seq<T>)
    requires multiset(a) == multiset(b)
    ensures forall x :: x in a <==> x in b
  {
    forall x ensures x in a <==> x in b {
      assert x in multiset(a) <==> x in multiset(b);
    }
  }

  lemma ListedDiffer(rows: seq<ClientRow>, clients: map<string, Client>)
    requires Lists(rows, clients)
    ensures NamesDiffer(rows)
  {
  }
}
