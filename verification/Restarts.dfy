/** Restarting what a pane ran: the name the allowlist is asked about, and the command line that is built. */
module Restarts {
  import opened Wrappers
  import opened SnapshotGraph

  datatype Launch = Launch(program: string, arguments: seq<string>, shell: string)

  datatype LaunchError = UndecodablePath | NotUtf8 | NoFallbackShell

  function ToPath(path: EncodedPath): Option<Path> {
    match path
    case Utf8(value) => Some(Unicode(value))
    case Base64(_, decoded) => decoded
  }

  function Lossy(path: Path): string {
    match path
    case Unicode(value) => value
    case Raw(lossy) => lossy
  }

  /** Where the text after the last slash starts. */
  function AfterLastSlash(s: string): (start: nat)
    ensures start <= |s| && '/' !in s[start..]
    ensures start > 0 ==> s[start - 1] == '/'
  {
    if s == "" then 0
    else if s[|s| - 1] == '/' then |s|
    else
      var rest := s[..|s| - 1];
      assert s == rest + [s[|s| - 1]];
      AfterLastSlash(rest)
  }

  /** The last component of a path. Trailing slashes and `.` do not count, and `..` names no file. */
  function FileName(path: string): (name: Option<string>)
    ensures name.Some? ==> name.value != "" && name.value != "." && name.value != ".." && '/' !in name.value
  {
    var start := AfterLastSlash(path);
    var last := path[start..];
    if last == "" || last == "." then
      if start == 0 then None else FileName(path[..start - 1])
    else if last == ".." then None
    else Some(last)
  }

  predicate AtComponent(before: string) {
    before == "" || before[|before| - 1] == '/'
  }

  /** Slashes, and `.` after a slash: what may follow the last component. */
  predicate Ignorable(after: string) {
    || after == ""
    || (after[|after| - 1] == '/' && Ignorable(after[..|after| - 1]))
    || (|after| >= 2 && after[|after| - 2..] == "/." && Ignorable(after[..|after| - 2]))
  }

  /** The path ends in a component of this name, which is a name. */
  ghost predicate EndsIn(path: string, name: string) {
    && name != "" && name != "." && name != ".." && '/' !in name
    && exists before, after :: Ends(path, before, name, after)
  }

  ghost predicate Ends(path: string, before: string, name: string, after: string) {
    path == before + name + after && AtComponent(before) && Ignorable(after)
  }

  /** The file name is the last component, and there is none if that is not a name. */
  lemma {:induction false} FileNameIsLast(path: string, name: string)
    ensures FileName(path) == Some(name) <==> EndsIn(path, name)
  {
    if FileName(path) == Some(name) {
      LastEnds(path);
    }
    if EndsIn(path, name) {
      var before, after :| Ends(path, before, name, after);
      EndedLast(path, before, name, after);
    }
  }

  lemma {:induction false} LastEnds(path: string)
    requires FileName(path).Some?
    ensures EndsIn(path, FileName(path).value)
  {
    hide Ends;
    var start := AfterLastSlash(path);
    var name := FileName(path).value;
    var last := path[start..];
    if last == "" || last == "." {
      LastEnds(path[..start - 1]);
      var before, after :| Ends(path[..start - 1], before, name, after);
      EndsMore(path[..start - 1], before, name, after, last);
      assert path == path[..start - 1] + "/" + last;
    } else {
      EndsHere(path[..start], name);
      assert path == path[..start] + name;
    }
  }

  lemma EndsHere(before: string, name: string)
    requires AtComponent(before)
    ensures Ends(before + name, before, name, "")
  {
    IgnoreNothing();
    assert before + name == before + name + "";
  }

  lemma EndsMore(path: string, before: string, name: string, after: string, last: string)
    requires Ends(path, before, name, after) && (last == "" || last == ".")
    ensures Ends(path + "/" + last, before, name, after + "/" + last)
  {
    hide Ignorable;
    IgnoreMore(after);
    var tail := "/" + last;
    Associate(before + name, after, tail);
    Associate(after, "/", last);
    Associate(path, "/", last);
  }

  lemma Associate(a: string, b: string, c: string)
    ensures a + b + c == a + (b + c)
  {
  }

  lemma IgnoreNothing()
    ensures Ignorable("")
  {
  }

  lemma IgnoreMore(after: string)
    requires Ignorable(after)
    ensures Ignorable(after + "/" + "") && Ignorable(after + "/" + ".")
  {
    assert (after + "/" + "")[..|after|] == after;
    assert (after + "/" + ".")[..|after|] == after;
  }

  lemma {:induction false} EndedLast(path: string, before: string, name: string, after: string)
    requires Ends(path, before, name, after) && name != "" && name != "." && name != ".." && '/' !in name
    ensures FileName(path) == Some(name)
    decreases |after|
  {
    hide FileName, Ignorable;
    if after == "" {
      DirectlyLast(before, name);
      assert path == before + name;
    } else {
      var rest, last := Shorten(after);
      EndedLast(before + name + rest, before, name, rest);
      OneMore(before + name + rest, last);
      assert path == before + name + rest + "/" + last;
    }
  }

  lemma DirectlyLast(before: string, name: string)
    requires AtComponent(before) && name != "" && name != "." && name != ".." && '/' !in name
    ensures FileName(before + name) == Some(name)
  {
    assert (before + name)[|before|..] == name;
    SlashStarts(before + name, |before|);
  }

  lemma Shorten(after: string) returns (rest: string, last: string)
    requires Ignorable(after) && after != ""
    ensures after == rest + "/" + last && Ignorable(rest) && (last == "" || last == ".")
  {
    if after[|after| - 1] == '/' && Ignorable(after[..|after| - 1]) {
      rest, last := after[..|after| - 1], "";
    } else {
      rest, last := after[..|after| - 2], ".";
      assert after == rest + after[|after| - 2..];
    }
  }

  lemma OneMore(path: string, last: string)
    requires last == "" || last == "."
    ensures FileName(path + "/" + last) == FileName(path)
  {
    var longer := path + "/" + last;
    assert longer[|path| + 1..] == last && longer[..|path|] == path;
    SlashStarts(longer, |path| + 1);
  }

  lemma SlashStarts(s: string, start: nat)
    requires start <= |s| && '/' !in s[start..] && (start > 0 ==> s[start - 1] == '/')
    ensures AfterLastSlash(s) == start
  {
    if start > 0 {
      LastSlashIsUnique(s, start);
    } else {
      SlashAfter(s, 0, AfterLastSlash(s) - 1);
    }
  }

  /** The name the allowlist is asked about: of the executable, or else of the first argument. */
  function ProcessBasename(restart: Restart): string {
    var path := ToPath(restart.executable);
    var name := if path.Some? then FileName(Lossy(path.value)) else None;
    if name.Some? then name.value
    else if restart.argv != [] then restart.argv[0][AfterLastSlash(restart.argv[0])..]
    else ""
  }

  /** That name is the last component of a path that decodes; without one it is what follows the last slash of
      the first argument. */
  lemma ProcessBasenameIs(r: Restart)
    ensures forall name | ToPath(r.executable).Some? && EndsIn(Lossy(ToPath(r.executable).value), name) ::
              ProcessBasename(r) == name
    ensures (ToPath(r.executable).Some? ==> forall name :: !EndsIn(Lossy(ToPath(r.executable).value), name)) ==>
              && (r.argv == [] ==> ProcessBasename(r) == "")
              && (r.argv != [] ==>
                    && '/' !in ProcessBasename(r)
                    && exists before :: AtComponent(before) && r.argv[0] == before + ProcessBasename(r))
  {
    if ToPath(r.executable).Some? {
      var path := Lossy(ToPath(r.executable).value);
      forall name | EndsIn(path, name) ensures ProcessBasename(r) == name {
        FileNameIsLast(path, name);
      }
      if FileName(path).Some? {
        FileNameIsLast(path, FileName(path).value);
      }
    }
    if r.argv != [] {
      var start := AfterLastSlash(r.argv[0]);
      assert AtComponent(r.argv[0][..start]) && r.argv[0] == r.argv[0][..start] + r.argv[0][start..];
    }
  }

  /** Only a path that is text can be put into a command. */
  predicate Launchable(restart: Restart) {
    var path := ToPath(restart.executable);
    path.Some? && path.value.Unicode?
  }

  /** The command line of a restart: the program by its path, the arguments after its own name, the shell after it. */
  ghost predicate Launches(r: Restart, shell: Option<string>, l: Launch) {
    && ToPath(r.executable) == Some(Unicode(l.program))
    && l.arguments == (if r.argv == [] then [] else r.argv[1..])
    && shell == Some(l.shell)
  }

  /** The command of a pane, if it is to be restarted. The first argument is the program's own name. */
  function PaneLaunch(restart: Option<Restart>, shell: Option<string>): (launch: Result<Option<Launch>, LaunchError>)
    ensures launch.Ok? <==> (restart.Some? ==> Launchable(restart.value) && shell.Some?)
    ensures launch.Ok? ==> (launch.value.Some? <==> restart.Some?)
    ensures launch.Ok? && launch.value.Some? ==> Launches(restart.value, shell, launch.value.value)
  {
    if restart.None? then Ok(None)
    else
      var path := ToPath(restart.value.executable);
      if path.None? then Err(UndecodablePath)
      else if path.value.Raw? then Err(NotUtf8)
      else if shell.None? then Err(NoFallbackShell)
      else
        var arguments := if restart.value.argv == [] then [] else restart.value.argv[1..];
        Ok(Some(Launch(path.value.value, arguments, shell.value)))
  }

  /** Every pane that is to be restarted can be. */
  ghost predicate LaunchKnown(state: State, shell: Option<string>) {
    forall w, p | w in state.windows && p in w.panes && p.process.restart.Some? ::
      Launchable(p.process.restart.value) && shell.Some?
  }

  /** Restarts the allowlist knows by name and that no restore can launch: a program in a directory whose name
      is not UTF-8, and one whose stored path does not decode. */
  lemma NamedButNotLaunchable(base64: string)
    ensures var inBadDirectory := Restart(Base64(base64, Some(Raw("/\U{FFFD}/vim"))), ["vim"], true);
            ProcessBasename(inBadDirectory) == "vim" && !Launchable(inBadDirectory)
    ensures var undecodable := Restart(Base64(base64, None), ["/usr/bin/vim"], true);
            ProcessBasename(undecodable) == "vim" && !Launchable(undecodable)
  {
    LastSlashIsUnique("/\U{FFFD}/vim", 3);
    LastSlashIsUnique("/usr/bin/vim", 9);
  }

  lemma LastSlashIsUnique(s: string, start: nat)
    requires 0 < start <= |s| && s[start - 1] == '/' && '/' !in s[start..]
    ensures AfterLastSlash(s) == start
  {
    var other := AfterLastSlash(s);
    SlashAfter(s, other, start - 1);
    SlashAfter(s, start, other - 1);
  }

  lemma SlashAfter(s: string, from: nat, k: int)
    requires from <= |s|
    ensures from <= k < |s| && s[k] == '/' ==> '/' in s[from..]
  {
    if from <= k < |s| {
      assert s[from..][k - from] == s[k];
    }
  }
}
