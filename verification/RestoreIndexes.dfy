/** Look-ups that restore derives from a snapshot before it touches the server: session groups
    and their leaders, the owners of each window, and the index that placeholders are parked at. */
module RestoreIndexes {
  import opened Wrappers
  import opened SnapshotGraph

  // ----- Session groups -----

  /** The sessions of one group in saved order. */
  function Members(sessions: seq<Session>, group: string): (members: seq<Session>) {
    if sessions == [] then []
    else
      var rest := Members(sessions[..|sessions| - 1], group);
      var last := sessions[|sessions| - 1];
      if last.group == Some(group) then rest + [last] else rest
  }

  /** The session whose window list a session uses: the first of its group, or itself. */
  function Leader(sessions: seq<Session>, session: Session): Session {
    if session.group.Some? && Members(sessions, session.group.value) != []
    then Members(sessions, session.group.value)[0]
    else session
  }

  lemma {:induction false} MembersAre(sessions: seq<Session>, group: string)
    ensures forall s :: s in Members(sessions, group) <==> s in sessions && s.group == Some(group)
    ensures Distinct(SessionIds(sessions)) ==> Distinct(SessionIds(Members(sessions, group)))
  {
    if sessions != [] {
      var init, last := sessions[..|sessions| - 1], sessions[|sessions| - 1];
      MembersAre(init, group);
      assert sessions == init + [last];
      var all, inner := Members(sessions, group), Members(init, group);
      if Distinct(SessionIds(sessions)) {
        DistinctPrefix(SessionIds(sessions), SessionIds(init));
        forall i, j | 0 <= i < j < |all| ensures SessionIds(all)[i] != SessionIds(all)[j] {
          if j < |inner| {
            assert SessionIds(inner)[i] != SessionIds(inner)[j];
          } else {
            assert all[i] == inner[i] && inner[i] in init;
            var k :| 0 <= k < |init| && init[k] == all[i];
            assert SessionIds(sessions)[k] != SessionIds(sessions)[|init|];
          }
        }
      }
    }
  }

  lemma DistinctPrefix<T>(s: seq<T>, t: seq<T>)
    requires Distinct(s) && t <= s
    ensures Distinct(t)
  {
    forall i, j | 0 <= i < j < |t| ensures t[i] != t[j] {
      assert s[i] != s[j];
    }
  }

  lemma SameId(sessions: seq<Session>, a: Session, b: Session)
    requires Distinct(SessionIds(sessions)) && a in sessions && b in sessions && a.id == b.id
    ensures a == b
  {
    var i :| 0 <= i < |sessions| && sessions[i] == a;
    var j :| 0 <= j < |sessions| && sessions[j] == b;
    assert SessionIds(sessions)[i] == SessionIds(sessions)[j];
  }

  /** Leaders represent exactly the groups: two sessions share one iff they are the same session
      or name the same group. */
  lemma LeaderFacts(sessions: seq<Session>, a: Session, b: Session)
    requires a in sessions && b in sessions
    ensures Leader(sessions, a) in sessions
    ensures Leader(sessions, Leader(sessions, a)) == Leader(sessions, a)
    ensures Leader(sessions, a) == Leader(sessions, b)
            <==> a == b || (a.group.Some? && a.group == b.group)
  {
    if a.group.Some? {
      MembersAre(sessions, a.group.value);
    }
    if b.group.Some? {
      MembersAre(sessions, b.group.value);
    }
  }

  method SessionGroups(sessions: seq<Session>) returns (groups: map<string, seq<Session>>)
    ensures forall g :: g in groups <==> Members(sessions, g) != []
    ensures forall g | g in groups :: groups[g] == Members(sessions, g)
  {
    groups := map[];
    for i := 0 to |sessions|
      invariant forall g :: g in groups <==> Members(sessions[..i], g) != []
      invariant forall g | g in groups :: groups[g] == Members(sessions[..i], g)
    {
      assert sessions[..i + 1][..i] == sessions[..i];
      match sessions[i].group {
        case None =>
        case Some(g) =>
          var before := if g in groups then groups[g] else [];
          groups := groups[g := before + [sessions[i]]];
      }
    }
    assert sessions[..|sessions|] == sessions;
  }

  /** Maps each session to its leader and collects the sessions that follow a leader, whatever the
      order the groups are visited in. */
  method Primaries(sessions: seq<Session>, groups: map<string, seq<Session>>)
    returns (primary: map<string, string>, deferred: set<string>)
    requires Distinct(SessionIds(sessions))
    requires forall g :: g in groups <==> Members(sessions, g) != []
    requires forall g | g in groups :: groups[g] == Members(sessions, g)
    ensures forall s | s in sessions :: s.id in primary && primary[s.id] == Leader(sessions, s).id
    ensures forall s | s in sessions :: s.id in deferred <==> Leader(sessions, s) != s
  {
    primary := map[];
    deferred := {};
    forall s | s in sessions && s.group.Some? ensures s.group.value in groups {
      MembersAre(sessions, s.group.value);
    }
    var rest := groups.Keys;
    while rest != {}
      decreases rest
      invariant rest <= groups.Keys
      invariant forall s | s in sessions :: Visited(sessions, s, rest, primary, deferred)
    {
      var g :| g in rest;
      ghost var later, primaryBefore, deferredBefore := rest, primary, deferred;
      rest := rest - {g};
      FollowersAre(sessions, g);
      primary, deferred := AssignGroup(primary, deferred, groups[g]);
      forall s | s in sessions ensures Visited(sessions, s, rest, primary, deferred) {
        assert Visited(sessions, s, later, primaryBefore, deferredBefore);
      }
    }
    assert forall s | s in sessions :: Visited(sessions, s, {}, primary, deferred);
    var i := 0;
    while i < |sessions|
      invariant 0 <= i <= |sessions|
      invariant forall s | s in sessions && s.group.Some? ::
                  s.id in primary && primary[s.id] == Leader(sessions, s).id
      invariant forall s | s in sessions && s.id in primary :: primary[s.id] == Leader(sessions, s).id
      invariant forall s | s in sessions[..i] :: s.id in primary
    {
      var s := sessions[i];
      if s.id !in primary {
        primary := primary[s.id := s.id];
        forall t | t in sessions && t.id == s.id ensures t == s {
          SameId(sessions, s, t);
        }
      }
      i := i + 1;
    }
    assert sessions[..|sessions|] == sessions;
  }

  /** What visiting every group but those in `rest` has recorded about one session. */
  ghost predicate Visited(sessions: seq<Session>, s: Session, rest: set<string>,
                          primary: map<string, string>, deferred: set<string>)
  {
    var visited := s.group.Some? && s.group.value !in rest;
    && (s.id in primary <==> visited)
    && (s.id in primary ==> primary[s.id] == Leader(sessions, s).id)
    && (s.id in deferred <==> visited && Leader(sessions, s) != s)
  }

  method AssignGroup(before: map<string, string>, deferredBefore: set<string>, members: seq<Session>)
    returns (primary: map<string, string>, deferred: set<string>)
    requires members != []
    ensures forall id :: id in primary <==>
              id in before || exists k :: 0 <= k < |members| && members[k].id == id
    ensures forall k | 0 <= k < |members| :: primary[members[k].id] == members[0].id
    ensures forall id | id in before && (forall k | 0 <= k < |members| :: members[k].id != id) ::
              primary[id] == before[id]
    ensures forall id :: id in deferred <==>
              id in deferredBefore || exists k :: 1 <= k < |members| && members[k].id == id
  {
    primary, deferred := before, deferredBefore;
    for j := 0 to |members|
      invariant forall id :: id in primary <==> id in before || exists k :: 0 <= k < j && members[k].id == id
      invariant forall k | 0 <= k < j :: primary[members[k].id] == members[0].id
      invariant forall id | id in before && (forall k | 0 <= k < j :: members[k].id != id) ::
                  primary[id] == before[id]
      invariant forall id :: id in deferred <==>
                  id in deferredBefore || exists k :: 1 <= k < j && members[k].id == id
    {
      primary := primary[members[j].id := members[0].id];
      if j > 0 {
        deferred := deferred + {members[j].id};
      }
    }
  }

  lemma FollowersAre(sessions: seq<Session>, g: string)
    requires Distinct(SessionIds(sessions)) && Members(sessions, g) != []
    ensures var members := Members(sessions, g);
            forall s | s in sessions ::
              && (s.group == Some(g) <==> exists k :: 0 <= k < |members| && members[k].id == s.id)
              && ((s.group == Some(g) && Leader(sessions, s) != s)
                  <==> exists k :: 1 <= k < |members| && members[k].id == s.id)
  {
    hide Distinct, SessionIds, Members;
    forall s | s in sessions
      ensures s.group == Some(g) <==> exists k :: 0 <= k < |Members(sessions, g)| && Members(sessions, g)[k].id == s.id
      ensures (s.group == Some(g) && Leader(sessions, s) != s)
              <==> exists k :: 1 <= k < |Members(sessions, g)| && Members(sessions, g)[k].id == s.id
    {
      FollowerIs(sessions, g, s);
    }
  }

  lemma FollowerIs(sessions: seq<Session>, g: string, s: Session)
    requires Distinct(SessionIds(sessions)) && Members(sessions, g) != [] && s in sessions
    ensures var members := Members(sessions, g);
            && (s.group == Some(g) <==> exists k :: 0 <= k < |members| && members[k].id == s.id)
            && ((s.group == Some(g) && Leader(sessions, s) != s)
                <==> exists k :: 1 <= k < |members| && members[k].id == s.id)
  {
    hide Members;
    var members := Members(sessions, g);
    MembersAre(sessions, g);
    if k :| 0 <= k < |members| && members[k].id == s.id {
      SameId(sessions, members[k], s);
      if k > 0 {
        assert SessionIds(members)[0] != SessionIds(members)[k];
      }
    }
    if s.group == Some(g) {
      var k :| 0 <= k < |members| && members[k] == s;
      assert members[k].id == s.id;
      assert Leader(sessions, s) == members[0];
      if k == 0 {
        forall j | 1 <= j < |members| ensures members[j].id != s.id {
          assert SessionIds(members)[0] != SessionIds(members)[j];
        }
      } else {
        assert SessionIds(members)[0] != SessionIds(members)[k];
        assert Leader(sessions, s) != s;
      }
    }
  }

  // ----- Window owners -----

  datatype Owner = Owner(session: string, index: int)

  function LinksTo(session: string, links: seq<Link>, window: string): (owners: seq<Owner>) {
    if links == [] then []
    else
      var rest := LinksTo(session, links[..|links| - 1], window);
      var last := links[|links| - 1];
      if last.windowId == window then rest + [Owner(session, last.index)] else rest
  }

  /** Every (session, index) a window is linked at, in saved order. */
  function OwnersOf(sessions: seq<Session>, window: string): (owners: seq<Owner>) {
    if sessions == [] then []
    else
      OwnersOf(sessions[..|sessions| - 1], window)
      + LinksTo(sessions[|sessions| - 1].id, sessions[|sessions| - 1].links, window)
  }

  ghost predicate Links(sessions: seq<Session>, owner: Owner, window: string) {
    exists s :: s in sessions && s.id == owner.session && HasLink(s.links, window, owner.index)
  }

  predicate HasLink(links: seq<Link>, window: string, index: int) {
    exists k :: 0 <= k < |links| && links[k].windowId == window && links[k].index == index
  }

  lemma {:induction false} LinksToAre(session: string, links: seq<Link>, window: string)
    ensures forall o :: o in LinksTo(session, links, window)
              <==> o.session == session && HasLink(links, window, o.index)
  {
    if links != [] {
      var init, last := links[..|links| - 1], links[|links| - 1];
      LinksToAre(session, init, window);
      forall o
        ensures o in LinksTo(session, links, window) <==> o.session == session && HasLink(links, window, o.index)
      {
        if HasLink(init, window, o.index) {
          var k :| 0 <= k < |init| && init[k].windowId == window && init[k].index == o.index;
          assert links[k] == init[k];
        }
        if HasLink(links, window, o.index) {
          var k :| 0 <= k < |links| && links[k].windowId == window && links[k].index == o.index;
          assert k < |init| ==> init[k] == links[k];
        }
      }
    }
  }

  lemma {:induction false} OwnersAre(sessions: seq<Session>, window: string)
    ensures forall o :: o in OwnersOf(sessions, window) <==> Links(sessions, o, window)
  {
    if sessions != [] {
      var init, last := sessions[..|sessions| - 1], sessions[|sessions| - 1];
      OwnersAre(init, window);
      LinksToAre(last.id, last.links, window);
      assert sessions == init + [last];
    }
  }

  function OwnersIn(owners: map<string, seq<Owner>>, window: string): seq<Owner> {
    if window in owners then owners[window] else []
  }

  method WindowOwners(sessions: seq<Session>) returns (owners: map<string, seq<Owner>>)
    ensures forall w :: w in owners <==> OwnersOf(sessions, w) != []
    ensures forall w | w in owners :: owners[w] == OwnersOf(sessions, w)
  {
    owners := map[];
    for i := 0 to |sessions|
      invariant forall w :: OwnersIn(owners, w) == OwnersOf(sessions[..i], w)
      invariant forall w | w in owners :: owners[w] != []
    {
      assert sessions[..i + 1][..i] == sessions[..i];
      owners := AppendOwners(owners, sessions[i]);
    }
    assert sessions[..|sessions|] == sessions;
    forall w ensures w in owners <==> OwnersOf(sessions, w) != [] {
      assert OwnersIn(owners, w) == OwnersOf(sessions, w);
    }
    forall w | w in owners ensures owners[w] == OwnersOf(sessions, w) {
      assert OwnersIn(owners, w) == OwnersOf(sessions, w);
    }
  }

  lemma LinksToNone(session: string, links: seq<Link>, window: string, before: seq<Owner>)
    ensures before + LinksTo(session, links[..0], window) == before
  {
  }

  lemma LinksToStep(session: string, links: seq<Link>, j: nat, window: string, before: seq<Owner>)
    requires j < |links|
    ensures before + LinksTo(session, links[..j + 1], window)
            == before + LinksTo(session, links[..j], window)
               + if links[j].windowId == window then [Owner(session, links[j].index)] else []
  {
    assert links[..j + 1][..j] == links[..j];
  }

  method AppendOwners(before: map<string, seq<Owner>>, s: Session) returns (owners: map<string, seq<Owner>>)
    requires forall w | w in before :: before[w] != []
    ensures forall w :: OwnersIn(owners, w) == OwnersIn(before, w) + LinksTo(s.id, s.links, w)
    ensures forall w | w in owners :: owners[w] != []
  {
    hide LinksTo;
    owners := before;
    forall w ensures OwnersIn(owners, w) == OwnersIn(before, w) + LinksTo(s.id, s.links[..0], w) {
      LinksToNone(s.id, s.links, w, OwnersIn(before, w));
    }
    for j := 0 to |s.links|
      invariant forall w :: OwnersIn(owners, w) == OwnersIn(before, w) + LinksTo(s.id, s.links[..j], w)
      invariant forall w | w in owners :: owners[w] != []
    {
      var link := s.links[j];
      ghost var was := owners;
      owners := owners[link.windowId := OwnersIn(owners, link.windowId) + [Owner(s.id, link.index)]];
      forall w ensures OwnersIn(owners, w) == OwnersIn(before, w) + LinksTo(s.id, s.links[..j + 1], w) {
        LinksToStep(s.id, s.links, j, w, OwnersIn(before, w));
      }
    }
    assert s.links[..|s.links|] == s.links;
  }

  // ----- The placeholder index -----

  ghost predicate UsesIndex(sessions: seq<Session>, index: int) {
    exists s, w :: s in sessions && HasLink(s.links, w, index)
  }

  function UsedIndexes(sessions: seq<Session>): (used: set<int>)
    ensures forall i :: i in used <==> UsesIndex(sessions, i)
  {
    if sessions == [] then {}
    else
      var init, last := sessions[..|sessions| - 1], sessions[|sessions| - 1];
      var here := set k | 0 <= k < |last.links| :: last.links[k].index as int;
      var used := UsedIndexes(init) + here;
      assert forall i :: i in used <==> UsesIndex(sessions, i) by {
        assert sessions == init + [last];
        forall i ensures i in here <==> exists w :: HasLink(last.links, w, i) {
          if k :| 0 <= k < |last.links| && last.links[k].index == i {
            assert HasLink(last.links, last.links[k].windowId, i);
          }
        }
      }
      used
  }

  function FirstUnused(used: set<int>, from: nat): (r: Option<int>)
    requires from <= I32_MAX + 1
    decreases I32_MAX + 1 - from
    ensures r.Some? ==> from <= r.value <= I32_MAX && r.value !in used
    ensures r.Some? ==> forall i | from <= i < r.value :: i in used
    ensures r.None? ==> forall i | from <= i <= I32_MAX :: i in used
  {
    if from > I32_MAX then None
    else if from !in used then Some(from)
    else FirstUnused(used, from + 1)
  }

  function UnusedWindowIndex(state: State): Option<int> {
    FirstUnused(UsedIndexes(state.sessions), 0)
  }

  function UpTo(n: nat): (r: set<int>)
    ensures |r| == n
    ensures forall i :: i in r <==> 0 <= i < n
  {
    if n == 0 then {} else UpTo(n - 1) + {n - 1}
  }

  /** The placeholder index is the least one no session uses, and it is found within as many
      tries as there are used indexes; the search fails only when all of them are taken. */
  lemma UnusedWindowIndexIsLeast(state: State)
    ensures var r := UnusedWindowIndex(state);
            match r
            case Some(index) =>
              && 0 <= index <= |UsedIndexes(state.sessions)|
              && !UsesIndex(state.sessions, index)
              && forall i | 0 <= i < index :: UsesIndex(state.sessions, i)
            case None => forall i | 0 <= i <= I32_MAX :: UsesIndex(state.sessions, i)
  {
    var used := UsedIndexes(state.sessions);
    match UnusedWindowIndex(state)
    case Some(index) =>
      assert UpTo(index) <= used;
      SubsetSize(UpTo(index), used);
    case None =>
  }
}
