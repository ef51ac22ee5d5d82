/** The cache of snapshot ids: an id is believed again while the file's fingerprint is the one it was
    read under. Other processes may replace or remove files between any two steps; every change gives a
    file a fingerprint it never had. */
module IdentityCache {
  import opened Wrappers
  import opened Retention
  import opened Store

  /** The fingerprint each present file has. */
  type Files = map<FileName, nat>

  datatype Cached = Cached(fingerprint: nat, id: Id)

  datatype ReadError = Missing | NoIdentity | Changed

  function IdIn(body: Body): Option<Id> {
    match body
    case Whole(snapshot) => Some(snapshot.id)
    case IdOnly(id) => Some(id)
    case Garbage => None
  }

  /** What the files say at one moment. */
  function DiskOf(files: Files, contents: (FileName, nat) -> Body): map<FileName, Body> {
    map f | f in files :: contents(f, files[f])
  }

  /** What other processes may do: every file is as it was, gone, or new under an unused fingerprint. */
  ghost predicate Interference(before: Files, next: nat, after: Files) {
    forall f | f in after :: (f in before && after[f] == before[f]) || after[f] >= next
  }

  ghost predicate SeenDuring(trace: seq<Files>, from: nat, contents: (FileName, nat) -> Body, file: FileName, id: Id) {
    exists k :: from <= k < |trace| && file in trace[k] && IdIn(contents(file, trace[k][file])) == Some(id)
  }

  lemma SeenLonger(first: seq<Files>, second: seq<Files>, from: nat, later: nat, contents: (FileName, nat) -> Body,
                   file: FileName, id: Id)
    requires first <= second && from <= later && SeenDuring(first, later, contents, file, id)
    ensures SeenDuring(second, from, contents, file, id)
  {
    var k :| later <= k < |first| && file in first[k] && IdIn(contents(file, first[k][file])) == Some(id);
    assert second[k] == first[k];
  }

  class Directory {
    /** What a file holds under each fingerprint it ever has. */
    const contents: (FileName, nat) -> Body
    /** Whether other processes are at work. */
    const shared: bool
    var files: Files
    var cache: map<FileName, Cached>
    var next: nat
    ghost var trace: seq<Files>

    constructor (contents: (FileName, nat) -> Body, shared: bool, files: Files, next: nat)
      requires forall f | f in files :: files[f] < next
      ensures Valid() && this.contents == contents && this.shared == shared && this.files == files && cache == map[]
    {
      this.contents, this.shared, this.files := contents, shared, files;
      this.next, cache, trace := next, map[], [files];
    }

    ghost predicate Valid()
      reads this
    {
      && (forall f | f in files :: files[f] < next)
      && trace != [] && trace[|trace| - 1] == files
      && (forall f | f in cache ::
            cache[f].fingerprint < next && IdIn(contents(f, cache[f].fingerprint)) == Some(cache[f].id))
    }

    /** A moment in which others may act. */
    method Pause()
      requires Valid()
      modifies this`files, this`next, this`trace
      ensures Valid() && Interference(old(files), old(next), files) && next >= old(next)
      ensures trace == old(trace) + [files]
      ensures !shared ==> files == old(files)
    {
      if shared {
        var after: Files := *;
        var bound: nat := *;
        if (forall f | f in after :: (f in files && after[f] == files[f]) || next <= after[f] < bound)
           && bound >= next
        {
          files, next := after, bound;
        }
      }
      trace := trace + [files];
    }

    /** Reads the id of a file, or takes it from the cache. The id is one the file's body had at a moment
        of the call; with nobody else at work it is exactly what reading the file gives. */
    method CachedIdentity(file: FileName) returns (r: Result<Id, ReadError>)
      requires Valid()
      modifies this`files, this`next, this`trace, this`cache
      ensures Valid() && old(trace) <= trace
      ensures r.Ok? ==> SeenDuring(trace, |old(trace)|, contents, file, r.value)
      ensures !shared ==> files == old(files)
      ensures !shared && file in files ==>
                match IdIn(contents(file, files[file])) case Some(id) => r == Ok(id) case None => r.Err?
      ensures !shared && file !in files ==> r.Err?
    {
      Pause();
      if file !in files {
        return Err(Missing);
      }
      var before := files[file];
      ghost var stat := |trace| - 1;
      if file in cache && cache[file].fingerprint == before {
        assert IdIn(contents(file, trace[stat][file])) == Some(cache[file].id);
        return Ok(cache[file].id);
      }
      Pause();
      if file !in files {
        return Err(Missing);
      }
      var underRead := files[file];
      Pause();
      // A file that changed under the reader may have been read as anything at all.
      var body: Body := *;
      if file in files && files[file] == underRead {
        body := contents(file, underRead);
      }
      var id := IdIn(body);
      if id.None? {
        return Err(NoIdentity);
      }
      Pause();
      if file !in files || files[file] != before {
        return Err(Changed);
      }
      assert IdIn(contents(file, trace[stat][file])) == id;
      cache := cache[file := Cached(before, id.value)];
      return Ok(id.value);
    }

    /** The listing retention works on. */
    method Scan() returns (listing: seq<Entry>)
      requires Valid()
      modifies this`files, this`next, this`trace, this`cache
      ensures Valid() && old(trace) <= trace
      ensures NewestFirst(listing) && Distinct(listing)
      ensures Witnessed(listing, trace, |old(trace)|, contents)
      ensures !shared ==> files == old(files) && ListsExactly(listing, files.Keys, files, contents)
                          && forall e | e in listing :: FileOf(e) in files
    {
      hide Witnessed, ListsExactly, SeenDuring, NewestFirst, Distinct;
      ghost var from := |trace|;
      Pause();
      var names := files.Keys;
      ghost var all, seen: set<FileName> := names, {};
      listing := [];
      NothingScanned(trace, from, contents, files);
      while names != {}
        invariant Valid() && old(trace) <= trace && names <= all && seen == all - names && from == |old(trace)|
        invariant NewestFirst(listing) && Distinct(listing)
        invariant Witnessed(listing, trace, from, contents)
        invariant forall e | e in listing :: FileOf(e) in seen
        invariant !shared ==> files == old(files) && all == files.Keys && ListsExactly(listing, seen, files, contents)
        decreases |names|
      {
        var file :| file in names;
        ghost var before := trace;
        var id := CachedIdentity(file);
        ScanStep(listing, before, trace, from, contents, file);
        if !shared {
          ExactStep(listing, seen, files, contents, file);
        }
        if id.Ok? && id.value == file.id && file.id.Stamped? {
          ListedOnce(listing, seen, file);
          listing := InsertNewest(EntryOf(file), listing);
        }
        Fewer(all, names, file);
        names, seen := names - {file}, seen + {file};
      }
      assert seen == all;
    }
  }

  lemma Fewer(all: set<FileName>, names: set<FileName>, file: FileName)
    requires names <= all && file in names
    ensures all - (names - {file}) == (all - names) + {file}
  {
  }

  /** Every listed id was in its file at some moment since then. */
  ghost predicate Witnessed(listing: seq<Entry>, trace: seq<Files>, from: nat, contents: (FileName, nat) -> Body) {
    forall e | e in listing ::
      e.id.Stamped? && EntryOf(FileOf(e)) == e && SeenDuring(trace, from, contents, FileOf(e), e.id)
  }

  predicate ListsFile(listing: seq<Entry>, f: FileName) {
    f.id.Stamped? && EntryOf(f) in listing
  }

  /** Of the files looked at, exactly those with a timed name that matches their contents are listed. */
  ghost predicate ListsExactly(listing: seq<Entry>, seen: set<FileName>, files: Files, contents: (FileName,
                               nat) -> Body) {
    forall f | f in seen ::
      ListsFile(listing, f) <==> f in files && f.id.Stamped? && IdIn(contents(f, files[f])) == Some(f.id)
  }

  lemma NothingScanned(trace: seq<Files>, from: nat, contents: (FileName, nat) -> Body, files: Files)
    ensures Witnessed([], trace, from, contents) && ListsExactly([], {}, files, contents)
    ensures NewestFirst([]) && Distinct<Entry>([])
  {
  }

  lemma ListedOnce(listing: seq<Entry>, seen: set<FileName>, file: FileName)
    requires NewestFirst(listing) && Distinct(listing) && file.id.Stamped? && file !in seen
    requires forall e | e in listing :: FileOf(e) in seen
    ensures var longer := InsertNewest(EntryOf(file), listing);
            NewestFirst(longer) && Distinct(longer) && forall e | e in longer :: FileOf(e) in seen + {file}
  {
    assert FileOf(EntryOf(file)) == file;
    InsertNewestOk(EntryOf(file), listing);
  }

  lemma ScanStep(listing: seq<Entry>, before: seq<Files>, trace: seq<Files>, from: nat,
                 contents: (FileName, nat) -> Body, file: FileName)
    requires Witnessed(listing, before, from, contents) && before <= trace && from <= |before|
    ensures Witnessed(listing, trace, from, contents)
    ensures file.id.Stamped? && SeenDuring(trace, |before|, contents, file, file.id) ==>
              Witnessed(InsertNewest(EntryOf(file), listing), trace, from, contents)
  {
    hide SeenDuring;
    forall e | e in listing ensures SeenDuring(trace, from, contents, FileOf(e), e.id) {
      SeenLonger(before, trace, from, from, contents, FileOf(e), e.id);
    }
    if file.id.Stamped? && SeenDuring(trace, |before|, contents, file, file.id) {
      SeenLonger(trace, trace, from, |before|, contents, file, file.id);
      InsertNewestMembers(EntryOf(file), listing);
    }
  }

  lemma ExactStep(listing: seq<Entry>, seen: set<FileName>, files: Files, contents: (FileName, nat) -> Body,
                  file: FileName)
    requires ListsExactly(listing, seen, files, contents) && file in files && file !in seen
    requires forall e | e in listing :: FileOf(e) in seen
    ensures var right := file.id.Stamped? && IdIn(contents(file, files[file])) == Some(file.id);
            && (!right ==> ListsExactly(listing, seen + {file}, files, contents))
            && (right ==> ListsExactly(InsertNewest(EntryOf(file), listing), seen + {file}, files, contents))
  {
    if file.id.Stamped? {
      assert FileOf(EntryOf(file)) == file;
      InsertNewestMembers(EntryOf(file), listing);
      forall f | f in seen && f.id.Stamped? ensures EntryOf(f) != EntryOf(file) {
        assert FileOf(EntryOf(f)) == f;
      }
    }
  }

  /** Reading through the cache, with nobody else at work, lists what reading every file would. */
  lemma ScanIsRecognised(files: Files, contents: (FileName, nat) -> Body, d: Disk, listing: seq<Entry>,
                         trace: seq<Files>, from: nat)
    requires d.bodies == DiskOf(files, contents)
    requires Witnessed(listing, trace, from, contents) && ListsExactly(listing, files.Keys, files, contents)
    requires forall e | e in listing :: FileOf(e) in files
    ensures Elements(listing) == Recognised(d)
  {
    forall e | e in Elements(listing) ensures e in Recognised(d) {
      assert ListsFile(listing, FileOf(e));
      assert RecognisedFile(d, FileOf(e));
    }
    forall e | e in Recognised(d) ensures e in Elements(listing) {
      var f :| f in d.bodies && RecognisedFile(d, f) && EntryOf(f) == e;
      assert ListsFile(listing, f);
    }
  }
}
