/** A command client that is started for one capture: everything it prints is cut into blocks, and the
    five blocks that were asked for are picked out from those of hooks by the kind of their records. */
module OneShot {
  import opened Bytes
  import opened ControlStream
  import opened Wrappers

  /** An error block, and how many complete blocks came before it. */
  datatype CommandError = CommandError(afterBlocks: nat, detail: Line)

  datatype Response = Response(blocks: seq<seq<Line>>, errors: seq<CommandError>, sawExit: bool)

  datatype ParseError = Protocol(error: ClientError) | Incomplete

  // ----- Parsing what was printed -----

  function Parse(lines: seq<Line>, before: nat): Result<Response, ParseError>
    decreases |lines|
  {
    if lines == [] then Ok(Response([], [], false))
    else
      match ParseBlockHeader(lines[0])
      case Err(error) => Err(Protocol(error))
      case Ok(Some(_)) => (
        var body := ReadBody(lines[1..]);
        match body.ending
        case Ended =>
          var more := Parse(body.rest, before + 1);
          if more.Err? then more else Ok(more.value.(blocks := [body.lines] + more.value.blocks))
        case Failed(line) =>
          var more := Parse(body.rest, before);
          if more.Err? then more
          else Ok(more.value.(errors := [CommandError(before, Detail(body.lines, line))] + more.value.errors))
        case _ => Err(Incomplete))
      case Ok(None) =>
        if StartsWith(lines[0], EXIT) then
          var more := Parse(lines[1..], before);
          if more.Err? then more else Ok(more.value.(sawExit := true))
        else if ParseNotification(lines[0]).None? then Err(Protocol(UnexpectedLine(lines[0])))
        else Parse(lines[1..], before)
  }

  method ParseOneShotOutput(stdout: seq<byte>) returns (r: Result<Response, ParseError>)
    ensures r == Parse(SplitLines(stdout), 0)
  {
    hide ReadBody, Detail, ParseBlockHeader, ParseNotification;
    var all := SplitLines(stdout);
    var lines := all;
    var blocks: seq<seq<Line>> := [];
    var errors: seq<CommandError> := [];
    var sawExit := false;
    while lines != []
      invariant Parse(all, 0).Ok? <==> Parse(lines, |blocks|).Ok?
      invariant Parse(all, 0).Err? ==> Parse(all, 0).error == Parse(lines, |blocks|).error
      invariant Parse(all, 0).Ok? ==>
                  var (whole, more) := (Parse(all, 0).value, Parse(lines, |blocks|).value);
                  && whole.blocks == blocks + more.blocks && whole.errors == errors + more.errors
                  && whole.sawExit == (sawExit || more.sawExit)
      decreases |lines|
    {
      var line := lines[0];
      ghost var here := Parse(lines, |blocks|);
      lines := lines[1..];
      var header := ParseBlockHeader(line);
      if header.Err? {
        return Err(Protocol(header.error));
      }
      if header.value.Some? {
        var body := CollectBody(lines);
        lines := body.rest;
        match body.ending {
          case Ended =>
            ghost var more := Parse(lines, |blocks| + 1);
            assert more.Ok? ==> blocks + here.value.blocks == (blocks + [body.lines]) + more.value.blocks;
            blocks := blocks + [body.lines];
          case Failed(last) =>
            ghost var more := Parse(lines, |blocks|);
            var error := CommandError(|blocks|, Detail(body.lines, last));
            assert more.Ok? ==> errors + here.value.errors == (errors + [error]) + more.value.errors;
            errors := errors + [error];
          case _ =>
            return Err(Incomplete);
        }
        continue;
      }
      if StartsWith(line, EXIT) {
        sawExit := true;
      } else if ParseNotification(line).None? {
        return Err(Protocol(UnexpectedLine(line)));
      }
    }
    assert blocks + [] == blocks && errors + [] == errors;
    return Ok(Response(blocks, errors, sawExit));
  }

  /** The lines up to the end of a block. */
  method CollectBody(lines: seq<Line>) returns (b: Body)
    ensures b == ReadBody(lines)
  {
    var output: seq<Line> := [];
    var rest := lines;
    while rest != []
      invariant var whole, now := ReadBody(lines), ReadBody(rest);
                whole.ending == now.ending && whole.rest == now.rest && whole.lines == output + now.lines
      decreases |rest|
    {
      var line := rest[0];
      rest := rest[1..];
      assert output + [] == output;
      if StartsWith(line, END) {
        return Body(output, Ended, rest);
      }
      if StartsWith(line, ERROR) {
        return Body(output, Failed(line), rest);
      }
      if StartsWith(line, EXIT) {
        return Body(output, Exited, rest);
      }
      output := output + [line];
    }
    assert output + [] == output;
    return Body(output, Closed, []);
  }

  // ----- What the runner makes of it -----

  datatype RunError =
    | Unavailable
    | BadOutput(error: ClientError)
    | SequenceFailed(after: nat, detail: Line)
    | BadStatus
    | TooFewBlocks

  /** Errors are put up with once there are at least as many complete blocks as commands. */
  function Judge(response: Response, blockCount: nat, statusOk: bool): Result<seq<seq<Line>>, RunError> {
    if !response.sawExit then Err(Unavailable)
    else if |response.blocks| >= blockCount && response.errors != [] then Ok(response.blocks)
    else if response.errors != [] then Err(SequenceFailed(response.errors[0].afterBlocks, response.errors[0].detail))
    else if !statusOk then Err(BadStatus)
    else if |response.blocks| < blockCount then Err(TooFewBlocks)
    else Ok(response.blocks)
  }

  function RunOutcome(lines: seq<Line>, blockCount: nat, statusOk: bool): Result<seq<seq<Line>>, RunError> {
    match Parse(lines, 0)
    case Err(Protocol(error)) => Err(BadOutput(error))
    case Err(Incomplete) => Err(Unavailable)
    case Ok(response) => Judge(response, blockCount, statusOk)
  }

  /** The blocks of a client that has printed this and ended. */
  method Run(stdout: seq<byte>, blockCount: nat, statusOk: bool) returns (r: Result<seq<seq<Line>>, RunError>)
    ensures r == RunOutcome(SplitLines(stdout), blockCount, statusOk)
  {
    hide Parse;
    var response := ParseOneShotOutput(stdout);
    match response {
      case Err(Protocol(error)) => return Err(BadOutput(error));
      case Err(Incomplete) => return Err(Unavailable);
      case Ok(value) => return Judge(value, blockCount, statusOk);
    }
  }

  // ----- Picking out the blocks -----

  const SESSION: Line := [83, 124]
  const WINDOW: Line := [87, 124]
  const PANE: Line := [80, 124]
  const METADATA: Line := [77, 124]
  const CLIENT: Line := [67, 124]
  const KINDS: seq<Line> := [SESSION, WINDOW, PANE, METADATA]

  predicate AllOfKind(block: seq<Line>, kind: Line) {
    forall line | line in block :: StartsWith(line, kind)
  }

  predicate OfKind(block: seq<Line>, kind: Line) {
    block != [] && AllOfKind(block, kind)
  }

  /** The position of the first block that is wholly of a kind. */
  function FindKind(blocks: seq<seq<Line>>, kind: Line): (i: nat)
    ensures i <= |blocks| && (i < |blocks| ==> OfKind(blocks[i], kind))
    ensures forall j | 0 <= j < i :: !OfKind(blocks[j], kind)
  {
    if blocks == [] then 0
    else if OfKind(blocks[0], kind) then 0
    else 1 + FindKind(blocks[1..], kind)
  }

  /** The lines of the blocks of these kinds, in this order, and the blocks after the last of them. */
  function SelectKinds(blocks: seq<seq<Line>>, kinds: seq<Line>): Option<(seq<Line>, seq<seq<Line>>)> {
    if kinds == [] then Some(([], blocks))
    else
      var i := FindKind(blocks, kinds[0]);
      if i == |blocks| then None
      else
        var more := SelectKinds(blocks[i + 1..], kinds[1..]);
        if more.None? then None else Some((blocks[i] + more.value.0, more.value.1))
  }

  /** The first block of client records, or no lines when there is none but an empty block. */
  function SelectClients(blocks: seq<seq<Line>>): Option<seq<Line>> {
    var i := FindKind(blocks, CLIENT);
    if i < |blocks| then Some(blocks[i]) else if [] in blocks then Some([]) else None
  }

  function Select(blocks: seq<seq<Line>>): Option<seq<Line>> {
    var picked := SelectKinds(blocks, KINDS);
    if picked.None? then None else
    var clients := SelectClients(picked.value.1);
    if clients.None? then None else Some(picked.value.0 + clients.value)
  }

  datatype SelectError = MissingKind(kind: Line) | MissingClients

  method SelectCaptureBlocks(blocks: seq<seq<Line>>) returns (r: Result<seq<Line>, SelectError>)
    ensures match Select(blocks) case Some(lines) => r == Ok(lines) case None => r.Err?
  {
    hide OfKind, FindKind;
    var rest := blocks;
    var output: seq<Line> := [];
    for k := 0 to |KINDS|
      invariant SelectKinds(blocks, KINDS).Some? <==> SelectKinds(rest, KINDS[k..]).Some?
      invariant SelectKinds(blocks, KINDS).Some? ==>
                  var (whole, more) := (SelectKinds(blocks, KINDS).value, SelectKinds(rest, KINDS[k..]).value);
                  whole.0 == output + more.0 && whole.1 == more.1
    {
      assert KINDS[k..][1..] == KINDS[k + 1..];
      var i := NextOfKind(rest, KINDS[k]);
      if i == |rest| {
        return Err(MissingKind(KINDS[k]));
      }
      ghost var more := SelectKinds(rest[i + 1..], KINDS[k + 1..]);
      assert more.Some? ==> output + (rest[i] + more.value.0) == (output + rest[i]) + more.value.0;
      output := output + rest[i];
      rest := rest[i + 1..];
    }
    assert output + [] == output;
    var clients := ClientBlock(rest);
    if clients.None? {
      return Err(MissingClients);
    }
    return Ok(output + clients.value);
  }

  method NextOfKind(blocks: seq<seq<Line>>, kind: Line) returns (i: nat)
    ensures i == FindKind(blocks, kind)
  {
    i := 0;
    while i < |blocks|
      invariant i <= |blocks| && FindKind(blocks, kind) == i + FindKind(blocks[i..], kind)
    {
      assert blocks[i..][1..] == blocks[i + 1..];
      if OfKind(blocks[i], kind) {
        return;
      }
      i := i + 1;
    }
  }

  method ClientBlock(blocks: seq<seq<Line>>) returns (r: Option<seq<Line>>)
    ensures r == SelectClients(blocks)
  {
    var sawEmpty := false;
    for i := 0 to |blocks|
      invariant sawEmpty <==> [] in blocks[..i]
      invariant FindKind(blocks, CLIENT) == i + FindKind(blocks[i..], CLIENT)
    {
      assert blocks[i..][1..] == blocks[i + 1..];
      assert blocks[..i + 1] == blocks[..i] + [blocks[i]];
      if blocks[i] == [] {
        sawEmpty := true;
      } else if AllOfKind(blocks[i], CLIENT) {
        return Some(blocks[i]);
      }
    }
    assert blocks[..|blocks|] == blocks;
    return if sawEmpty then Some([]) else None;
  }

  // ----- Hooks leave no trace -----

  /** A block that a hook may print without being taken for one that was asked for. */
  ghost predicate Noise(block: seq<Line>) {
    forall kind | kind in KINDS || kind == CLIENT :: !OfKind(block, kind)
  }

  ghost predicate AllNoise(blocks: seq<seq<Line>>) {
    forall block | block in blocks :: Noise(block)
  }

  lemma {:induction false} FindPastNoise(noise: seq<seq<Line>>, follow: seq<seq<Line>>, kind: Line)
    requires AllNoise(noise) && (kind in KINDS || kind == CLIENT)
    ensures FindKind(noise + follow, kind) == |noise| + FindKind(follow, kind)
  {
    if noise == [] {
      assert noise + follow == follow;
    } else {
      assert Noise(noise[0]);
      FindPastNoise(noise[1..], follow, kind);
      assert (noise + follow)[1..] == noise[1..] + follow;
    }
  }

  /** What the capture asked for: four blocks of records, and one of client records that may be empty. */
  datatype Requested = Requested(sessions: seq<Line>, windows: seq<Line>, panes: seq<Line>, metadata: seq<Line>,
    clients: seq<Line>)

  predicate ValidRequested(q: Requested) {
    && OfKind(q.sessions, SESSION) && OfKind(q.windows, WINDOW) && OfKind(q.panes, PANE)
    && OfKind(q.metadata, METADATA) && AllOfKind(q.clients, CLIENT)
  }

  /** The requested blocks in order, with noise before, between and after them. */
  function Mixed(q: Requested, n: seq<seq<seq<Line>>>): seq<seq<Line>>
    requires |n| == 6
  {
    n[0] + ([q.sessions] + (n[1] + ([q.windows] + (n[2] + ([q.panes]
      + (n[3] + ([q.metadata] + (n[4] + ([q.clients] + n[5])))))))))
  }

  lemma SelectOne(noise: seq<seq<Line>>, block: seq<Line>, follow: seq<seq<Line>>, kinds: seq<Line>)
    requires AllNoise(noise) && kinds != [] && kinds[0] in KINDS && OfKind(block, kinds[0])
    ensures SelectKinds(noise + ([block] + follow), kinds)
            == var more := SelectKinds(follow, kinds[1..]);
               if more.None? then None else Some((block + more.value.0, more.value.1))
  {
    hide OfKind, FindKind;
    var all := noise + ([block] + follow);
    FindPastNoise(noise, [block] + follow, kinds[0]);
    FindFirst(block, follow, kinds[0]);
    assert all[|noise|] == block && all[|noise| + 1..] == follow;
  }

  lemma FindFirst(block: seq<Line>, follow: seq<seq<Line>>, kind: Line)
    requires OfKind(block, kind)
    ensures FindKind([block] + follow, kind) == 0
  {
  }

  lemma SelectLast(before: seq<seq<Line>>, clients: seq<Line>, after: seq<seq<Line>>)
    requires AllNoise(before) && AllNoise(after) && AllOfKind(clients, CLIENT)
    ensures SelectClients(before + ([clients] + after)) == Some(clients)
  {
    var all := before + ([clients] + after);
    FindPastNoise(before, [clients] + after, CLIENT);
    assert all[|before|] == clients;
    if clients == [] {
      FindPastNoise(after, [], CLIENT);
      assert after + [] == after;
      assert ([clients] + after)[1..] == after;
      assert [] in all;
    } else {
      FindFirst(clients, after, CLIENT);
    }
  }

  /** Whatever hooks print in between, exactly the requested lines are selected, in their order. */
  lemma NoiseIsFiltered(q: Requested, n: seq<seq<seq<Line>>>)
    requires ValidRequested(q) && |n| == 6 && forall noise | noise in n :: AllNoise(noise)
    ensures Select(Mixed(q, n)) == Some(q.sessions + (q.windows + (q.panes + (q.metadata + q.clients))))
  {
    hide OfKind, SelectKinds, SelectClients, AllNoise;
    var s4 := n[4] + ([q.clients] + n[5]);
    var s3 := n[3] + ([q.metadata] + s4);
    var s2 := n[2] + ([q.panes] + s3);
    var s1 := n[1] + ([q.windows] + s2);
    assert forall i | 0 <= i < 6 :: n[i] in n;
    SelectOne(n[0], q.sessions, s1, KINDS);
    SelectOne(n[1], q.windows, s2, KINDS[1..]);
    SelectOne(n[2], q.panes, s3, KINDS[2..]);
    SelectOne(n[3], q.metadata, s4, KINDS[3..]);
    SelectNone(s4);
    SelectLast(n[4], q.clients, n[5]);
    assert KINDS[1..][1..] == KINDS[2..] && KINDS[2..][1..] == KINDS[3..] && KINDS[3..][1..] == [];
    assert q.metadata + [] == q.metadata;
    assert SelectKinds(Mixed(q, n), KINDS) == Some((q.sessions + (q.windows + (q.panes + q.metadata)), s4));
    assert (q.sessions + (q.windows + (q.panes + q.metadata))) + q.clients
           == q.sessions + (q.windows + (q.panes + (q.metadata + q.clients)));
  }

  /** Without a block that is wholly of a kind of record, nothing is selected. */
  lemma {:induction false} MissingKindIsRefused(blocks: seq<seq<Line>>, kinds: seq<Line>, kind: Line)
    requires kind in kinds && forall block | block in blocks :: !OfKind(block, kind)
    ensures SelectKinds(blocks, kinds).None?
    ensures kinds == KINDS ==> Select(blocks).None?
  {
    hide OfKind;
    var i := FindKind(blocks, kinds[0]);
    if i < |blocks| {
      assert kinds[0] != kind && kind in kinds[1..];
      forall block | block in blocks[i + 1..] ensures !OfKind(block, kind) {
        assert block in blocks;
      }
      MissingKindIsRefused(blocks[i + 1..], kinds[1..], kind);
    }
  }

  /** Client records may be missing, but not their block. */
  lemma {:induction false} MissingClientsAreRefused(blocks: seq<seq<Line>>, kinds: seq<Line>)
    requires [] !in blocks && forall block | block in blocks :: !OfKind(block, CLIENT)
    ensures var picked := SelectKinds(blocks, kinds); picked.Some? ==> SelectClients(picked.value.1).None?
    ensures kinds == KINDS ==> Select(blocks).None?
  {
    hide OfKind;
    if kinds != [] {
      var i := FindKind(blocks, kinds[0]);
      if i < |blocks| {
        forall block | block in blocks[i + 1..] ensures !OfKind(block, CLIENT) {
          assert block in blocks;
        }
        MissingClientsAreRefused(blocks[i + 1..], kinds[1..]);
      }
    }
  }

  lemma SelectNone(blocks: seq<seq<Line>>)
    ensures SelectKinds(blocks, []) == Some(([], blocks))
  {
  }

  // ----- From the printed lines to the selected ones -----

  /** Everything the client prints, up to the line that says it is done, if it comes to that. */
  function Printed(items: seq<Item>, exited: bool): seq<Line> {
    RenderItems(items, if exited then [EXIT] else [])
  }

  predicate Completed(item: Item): (r: bool)
    ensures r ==> item.Block?
  {
    item.Block? && StartsWith(item.closing, END)
  }

  predicate Failing(item: Item): (r: bool)
    ensures r ==> item.Block?
  {
    item.Block? && !StartsWith(item.closing, END)
  }

  /** How many of the first `i` items are complete blocks, and how many are error blocks. */
  function Completions(items: seq<Item>, i: nat): nat
    requires i <= |items|
  {
    if i == 0 then 0 else Completions(items, i - 1) + if Completed(items[i - 1]) then 1 else 0
  }

  function Failures(items: seq<Item>, i: nat): nat
    requires i <= |items|
  {
    if i == 0 then 0 else Failures(items, i - 1) + if Failing(items[i - 1]) then 1 else 0
  }

  lemma {:induction false} CountShift(items: seq<Item>, i: nat)
    requires 0 < i <= |items|
    ensures Completions(items, i) == (if Completed(items[0]) then 1 else 0) + Completions(items[1..], i - 1)
    ensures Failures(items, i) == (if Failing(items[0]) then 1 else 0) + Failures(items[1..], i - 1)
  {
    if i > 1 {
      CountShift(items, i - 1);
      assert items[1..][i - 2] == items[i - 1];
    }
  }

  lemma {:induction false} CountsGrow(items: seq<Item>, i: nat, j: nat)
    requires i <= j <= |items|
    ensures Completions(items, i) <= Completions(items, j) && Failures(items, i) <= Failures(items, j)
  {
    if i < j {
      CountsGrow(items, i, j - 1);
    }
  }

  lemma CountHere(items: seq<Item>, i: nat)
    requires i < |items|
    ensures Completed(items[i]) ==> Completions(items, i) < Completions(items, |items|)
    ensures Failing(items[i]) ==> Failures(items, i) < Failures(items, |items|)
  {
    CountsGrow(items, i + 1, |items|);
  }

  /** The i-th complete block is the i-th block, and the i-th error block the i-th error, with its text and the
      number of complete blocks before it. */
  ghost predicate BlocksAre(items: seq<Item>, blocks: seq<seq<Line>>) {
    && |blocks| == Completions(items, |items|)
    && forall i | 0 <= i < |items| && Completed(items[i]) ::
         Completions(items, i) < |blocks| && blocks[Completions(items, i)] == items[i].body
  }

  ghost predicate ErrorsAre(items: seq<Item>, before: nat, errors: seq<CommandError>) {
    && |errors| == Failures(items, |items|)
    && forall i | 0 <= i < |items| && Failing(items[i]) ::
         && Failures(items, i) < |errors|
         && errors[Failures(items, i)]
            == CommandError(before + Completions(items, i), Detail(items[i].body, items[i].closing))
  }

  lemma BlocksStep(items: seq<Item>, blocks: seq<seq<Line>>)
    requires items != [] && BlocksAre(items[1..], blocks)
    ensures BlocksAre(items, if Completed(items[0]) then [items[0].body] + blocks else blocks)
  {
    hide Completed, Completions;
    var all := if Completed(items[0]) then [items[0].body] + blocks else blocks;
    CountShift(items, |items|);
    forall i | 0 <= i < |items| && Completed(items[i])
      ensures Completions(items, i) < |all| && all[Completions(items, i)] == items[i].body
    {
      CountHere(items, i);
      if i > 0 {
        CountShift(items, i);
        assert items[1..][i - 1] == items[i];
      } else {
        assert Completions(items, 0) == 0 by { NoneBefore(items); }
      }
    }
  }

  lemma NoneBefore(items: seq<Item>)
    ensures Completions(items, 0) == 0 && Failures(items, 0) == 0
  {
  }

  lemma ErrorsStep(items: seq<Item>, before: nat, errors: seq<CommandError>)
    requires items != [] && ErrorsAre(items[1..], if Completed(items[0]) then before + 1 else before, errors)
    ensures ErrorsAre(items, before,
              if Failing(items[0]) then [CommandError(before, Detail(items[0].body, items[0].closing))] + errors
              else errors)
  {
    hide Completed, Completions, Failing, Failures, Detail;
    OneOrOther(items[0]);
    var all := if Failing(items[0]) then [CommandError(before, Detail(items[0].body, items[0].closing))] + errors
               else errors;
    CountShift(items, |items|);
    NoneBefore(items);
    forall i | 0 <= i < |items| && Failing(items[i])
      ensures Failures(items, i) < |all|
      ensures all[Failures(items, i)]
              == CommandError(before + Completions(items, i), Detail(items[i].body, items[i].closing))
    {
      CountHere(items, i);
      if i > 0 {
        CountShift(items, i);
        assert items[1..][i - 1] == items[i];
      }
    }
  }

  lemma OneOrOther(item: Item)
    ensures !(Completed(item) && Failing(item)) && (item.Block? <==> Completed(item) || Failing(item))
  {
  }

  /** The bodies of the blocks that ended well. */
  function GoodBodies(items: seq<Item>): seq<seq<Line>> {
    if items == [] then []
    else if Completed(items[0]) then [items[0].body] + GoodBodies(items[1..])
    else GoodBodies(items[1..])
  }

  /** Notifications here are not exit lines. */
  predicate ValidPrinted(item: Item) {
    ValidItem(item) && (item.Note? ==> !StartsWith(item.line, EXIT))
  }

  lemma ParseExit(before: nat, exited: bool)
    ensures Parse(if exited then [EXIT] else [], before) == Ok(Response([], [], exited))
  {
    assert !StartsWith(EXIT, BEGIN);
    assert [EXIT][1..] == [];
  }

  lemma ParseNote(line: Line, rest: seq<Line>, before: nat)
    requires ValidPrinted(Note(line))
    ensures Parse([line] + rest, before) == Parse(rest, before)
  {
    assert ([line] + rest)[1..] == rest;
  }

  /** What a block adds to the response. */
  function After(item: Item, before: nat, more: Result<Response, ParseError>): Result<Response, ParseError> {
    if more.Err? then more
    else if Completed(item) then Ok(more.value.(blocks := [item.body] + more.value.blocks))
    else if Failing(item) then
      Ok(more.value.(errors := [CommandError(before, Detail(item.body, item.closing))] + more.value.errors))
    else more
  }

  lemma ParseItem(item: Item, rest: seq<Line>, before: nat)
    requires ValidPrinted(item)
    ensures Parse(RenderItem(item, rest), before)
            == After(item, before, Parse(rest, if Completed(item) then before + 1 else before))
  {
    if item.Note? {
      ParseNote(item.line, rest, before);
    } else {
      hide ReadBody, Detail, ParseBlockHeader;
      BlockRendered(item, rest);
      HeaderRoundTrip(item.header);
    }
  }

  /** What is printed is recorded: every complete block, every error block, and whether the end was seen. */
  lemma {:induction false} ParsePrinted(items: seq<Item>, before: nat, exited: bool)
    requires forall item | item in items :: ValidPrinted(item)
    ensures var r := Parse(Printed(items, exited), before);
            && r.Ok? && r.value.blocks == GoodBodies(items) && r.value.sawExit == exited
            && BlocksAre(items, r.value.blocks) && ErrorsAre(items, before, r.value.errors)
  {
    hide Parse, ValidItem, Completed, Failing, Detail;
    if items == [] {
      ParseExit(before, exited);
    } else {
      hide BlocksAre, ErrorsAre;
      assert ValidPrinted(items[0]);
      var after := if Completed(items[0]) then before + 1 else before;
      ParsePrinted(items[1..], after, exited);
      ParseItem(items[0], Printed(items[1..], exited), before);
      var more := Parse(Printed(items[1..], exited), after).value;
      OneOrOther(items[0]);
      BlocksStep(items, more.blocks);
      ErrorsStep(items, before, more.errors);
    }
  }

  /** What cannot be read after the items is the error. */
  lemma {:induction false} ParseErrors(items: seq<Item>, follow: seq<Line>, before: nat, error: ParseError)
    requires forall item | item in items :: ValidPrinted(item)
    requires forall b: nat :: Parse(follow, b) == Err(error)
    ensures Parse(RenderItems(items, follow), before) == Err(error)
  {
    hide Parse, ValidItem, Completed, Failing, Detail;
    if items != [] {
      assert ValidPrinted(items[0]);
      ParseErrors(items[1..], follow, if Completed(items[0]) then before + 1 else before, error);
      ParseItem(items[0], RenderItems(items[1..], follow), before);
    }
  }

  lemma {:induction false} BodyUnfinished(body: seq<Line>, exited: bool)
    requires forall line | line in body :: PlainLine(line)
    ensures ReadBody(body + if exited then [EXIT] else [])
            == Body(body, if exited then Exited else Closed, [])
  {
    var end := if exited then [EXIT] else [];
    if body == [] {
      assert body + end == end && [EXIT][1..] == [];
      assert EXIT[2] == 120 && END[2] == 110 && |ERROR| > |EXIT|;
    } else {
      BodyUnfinished(body[1..], exited);
      assert (body + end)[1..] == body[1..] + end;
      assert body == [body[0]] + body[1..] && PlainLine(body[0]);
    }
  }

  /** A client that ends in the middle of a block is unavailable. */
  lemma UnfinishedIsUnavailable(items: seq<Item>, header: Header, body: seq<Line>, exited: bool, blockCount: nat,
                                statusOk: bool)
    requires (forall item | item in items :: ValidPrinted(item)) && ValidHeader(header)
    requires forall line | line in body :: PlainLine(line)
    ensures RunOutcome(RenderItems(items, [HeaderLine(header)] + (body + if exited then [EXIT] else [])), blockCount,
              statusOk)
            == Err(Unavailable)
  {
    hide ReadBody;
    var follow := [HeaderLine(header)] + (body + if exited then [EXIT] else []);
    HeaderRoundTrip(header);
    BodyUnfinished(body, exited);
    assert follow[1..] == body + if exited then [EXIT] else [];
    ParseErrors(items, follow, 0, Incomplete);
  }

  /** A line that belongs to nothing is an error, whatever comes after it. */
  lemma StrayLineIsRefused(items: seq<Item>, line: Line, rest: seq<Line>, blockCount: nat, statusOk: bool)
    requires (forall item | item in items :: ValidPrinted(item)) && (line == [] || line[0] != PERCENT)
    ensures RunOutcome(RenderItems(items, [line] + rest), blockCount, statusOk) == Err(BadOutput(UnexpectedLine(line)))
  {
    assert !StartsWith(line, BEGIN) && !StartsWith(line, EXIT) && !StartsWith(line, MESSAGE);
    ParseErrors(items, [line] + rest, 0, Protocol(UnexpectedLine(line)));
  }

  /** The first error block of what was printed. */
  ghost predicate FirstFailing(items: seq<Item>, i: nat) {
    && i < |items| && Failing(items[i])
    && forall j | 0 <= j < i :: !Failing(items[j])
  }

  lemma {:induction false} NoFailures(items: seq<Item>, i: nat)
    requires i <= |items| && forall j | 0 <= j < i :: !Failing(items[j])
    ensures Failures(items, i) == 0
  {
    if i > 0 {
      NoFailures(items, i - 1);
    }
  }

  /** What a client comes to that printed whole blocks and notifications: its blocks, when it ended, printed at
      least as many complete ones as there are commands, and either says that all went well or printed an error
      block. Otherwise the first error block is the reason, if there is one. */
  lemma OutcomeIs(items: seq<Item>, exited: bool, blockCount: nat, statusOk: bool)
    requires forall item | item in items :: ValidPrinted(item)
    ensures var r := RunOutcome(Printed(items, exited), blockCount, statusOk);
            var enough := Completions(items, |items|) >= blockCount;
            && (r.Ok? <==> exited && enough && (statusOk || exists item :: item in items && Failing(item)))
            && (r.Ok? ==> BlocksAre(items, r.value) && r.value == GoodBodies(items))
            && (!exited ==> r == Err(Unavailable))
            && (forall i: nat | FirstFailing(items, i) && exited && !enough ::
                  r == Err(SequenceFailed(Completions(items, i), Detail(items[i].body, items[i].closing))))
            && (exited && (forall item | item in items :: !Failing(item)) ==>
                  (!statusOk ==> r == Err(BadStatus)) && (statusOk && !enough ==> r == Err(TooFewBlocks)))
  {
    hide Parse, ValidPrinted, Failing, Completed, Detail, FirstFailing, BlocksAre, ErrorsAre, GoodBodies;
    ParsePrinted(items, 0, exited);
    var response := Parse(Printed(items, exited), 0).value;
    CompletionsAre(items, response.blocks);
    ErrorsFound(items, response.errors);
  }

  lemma CompletionsAre(items: seq<Item>, blocks: seq<seq<Line>>)
    requires BlocksAre(items, blocks)
    ensures |blocks| == Completions(items, |items|)
  {
  }

  lemma ErrorsFound(items: seq<Item>, errors: seq<CommandError>)
    requires ErrorsAre(items, 0, errors)
    ensures errors != [] <==> exists item :: item in items && Failing(item)
    ensures forall i: nat | FirstFailing(items, i) ::
              errors != []
              && errors[0] == CommandError(Completions(items, i), Detail(items[i].body, items[i].closing))
  {
    hide Failing, Completed, Detail;
    if i :| 0 <= i < |items| && Failing(items[i]) {
      CountHere(items, i);
    } else {
      NoFailures(items, |items|);
    }
    forall i: nat | FirstFailing(items, i)
      ensures errors != []
      ensures errors[0] == CommandError(Completions(items, i), Detail(items[i].body, items[i].closing))
    {
      NoFailures(items, i);
      CountHere(items, i);
    }
  }

  lemma {:induction false} PrintedFree(items: seq<Item>)
    requires forall item | item in items :: ItemFree(item)
    ensures Free(Printed(items, true), LF)
  {
    if items == [] {
      assert LF !in EXIT;
    } else {
      PrintedFree(items[1..]);
      assert ItemFree(items[0]);
    }
  }

  /** No line of an item has a line break in it. */
  predicate ItemFree(item: Item) {
    match item
    case Note(line) => LF !in line
    case Block(header, body, closing) => LF !in HeaderLine(header) && Free(body, LF) && LF !in closing
  }

  /** From the bytes the client prints to the records the capture parses: error blocks of hooks, blocks of
      hooks that are not wholly of one kind, and notifications leave no trace, however they are mixed in. */
  lemma CaptureSeesTheRequested(items: seq<Item>, q: Requested, n: seq<seq<seq<Line>>>, statusOk: bool)
    requires forall item | item in items :: ValidPrinted(item) && ItemFree(item)
    requires ValidRequested(q) && |n| == 6 && forall noise | noise in n :: AllNoise(noise)
    requires GoodBodies(items) == Mixed(q, n)
    ensures var r := RunOutcome(SplitLines(RenderLines(Printed(items, true))), 5, statusOk);
            && (r.Ok? <==> statusOk || exists item :: item in items && Failing(item))
            && (r.Ok? ==>
                  Select(r.value) == Some(q.sessions + (q.windows + (q.panes + (q.metadata + q.clients)))))
  {
    hide ValidPrinted, ItemFree, Mixed, Select, RunOutcome, ValidRequested, AllNoise, Failing, Completed;
    PrintedFree(items);
    SplitRendered(Printed(items, true));
    OutcomeIs(items, true, 5, statusOk);
    NoiseIsFiltered(q, n);
    assert |Mixed(q, n)| >= 5 by {
      MixedSize(q, n);
    }
    GoodBodiesCount(items);
  }

  lemma {:induction false} GoodBodiesCount(items: seq<Item>)
    ensures |GoodBodies(items)| == Completions(items, |items|)
  {
    if items != [] {
      GoodBodiesCount(items[1..]);
      CountShift(items, |items|);
    }
  }

  lemma MixedSize(q: Requested, n: seq<seq<seq<Line>>>)
    requires |n| == 6
    ensures |Mixed(q, n)| >= 5
  {
  }
}
