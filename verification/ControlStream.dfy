/** Control mode: a client sends commands and finds its answers among the blocks of hooks and among
    notifications. The lines the server will have sent are what the client reads from. */
module ControlStream {
  import opened Bytes
  import opened Wrappers

  type Line = seq<byte>

  const BEGIN: Line := [37, 98, 101, 103, 105, 110, 32]
  const END: Line := [37, 101, 110, 100, 32]
  const ERROR: Line := [37, 101, 114, 114, 111, 114, 32]
  const EXIT: Line := [37, 101, 120, 105, 116]
  const MESSAGE: Line := [37, 109, 101, 115, 115, 97, 103, 101, 32]
  const PERCENT: byte := 37

  datatype Notification = NoteMessage(text: Line) | NoteExit(text: Line) | NoteEvent(text: Line)

  datatype ClientError =
    | WriteFailed
    | Disconnected
    | BadHeader
    | UnexpectedLine(line: Line)
    | ExitedWhilePending
    | CommandFailed(step: nat, detail: Line)

  function ParseNotification(line: Line): Option<Notification> {
    if StartsWith(line, MESSAGE) then Some(NoteMessage(line[|MESSAGE|..]))
    else if StartsWith(line, EXIT) then Some(NoteExit(line))
    else if line != [] && line[0] == PERCENT then Some(NoteEvent(line))
    else None
  }

  /** The flags of a block header; nothing when the line is no header. */
  function ParseBlockHeader(line: Line): Result<Option<int>, ClientError> {
    if !StartsWith(line, BEGIN) then Ok(None)
    else
      var fields := Words(line);
      if |fields| != 4 || fields[0] != BEGIN[..6] then Err(BadHeader)
      else
        var stamp := ParseInteger(fields[1], true, -0x8000_0000_0000_0000, 0x7fff_ffff_ffff_ffff);
        var number := ParseInteger(fields[2], false, 0, 0xffff_ffff);
        var flags := ParseInteger(fields[3], true, -0x8000_0000, 0x7fff_ffff);
        if stamp.None? || number.None? || flags.None? then Err(BadHeader) else Ok(Some(flags.value))
  }

  // ----- Reading, as functions of the lines to come -----

  datatype Ending = Ended | Failed(line: Line) | Exited | Closed

  datatype Body = Body(lines: seq<Line>, ending: Ending, rest: seq<Line>)

  function ReadBody(lines: seq<Line>): (b: Body)
    ensures |b.rest| <= |lines|
  {
    if lines == [] then Body([], Closed, [])
    else if StartsWith(lines[0], END) then Body([], Ended, lines[1..])
    else if StartsWith(lines[0], ERROR) then Body([], Failed(lines[0]), lines[1..])
    else if StartsWith(lines[0], EXIT) then Body([], Exited, lines[1..])
    else
      var more := ReadBody(lines[1..]);
      Body([lines[0]] + more.lines, more.ending, more.rest)
  }

  datatype Head = Head(notes: seq<Notification>, flags: Result<int, ClientError>, rest: seq<Line>)

  function ReadHeader(lines: seq<Line>): (h: Head)
    ensures h.flags.Ok? ==> |h.rest| < |lines|
  {
    if lines == [] then Head([], Err(Disconnected), [])
    else
      match ParseBlockHeader(lines[0])
      case Err(error) => Head([], Err(error), lines[1..])
      case Ok(Some(flags)) => Head([], Ok(flags), lines[1..])
      case Ok(None) =>
        var note := ParseNotification(lines[0]);
        if note.None? then Head([], Err(UnexpectedLine(lines[0])), lines[1..])
        else
          var more := ReadHeader(lines[1..]);
          Head([note.value] + more.notes, more.flags, more.rest)
  }

  datatype Answer = Answer(notes: seq<Notification>, body: Result<Body, ClientError>, rest: seq<Line>)

  /** The next block with flags; blocks without are passed over. */
  function ReadAnswer(lines: seq<Line>): (a: Answer)
    ensures a.body.Ok? ==> |a.rest| < |lines| && (a.body.value.ending.Ended? || a.body.value.ending.Failed?)
    decreases |lines|
  {
    var head := ReadHeader(lines);
    if head.flags.Err? then Answer(head.notes, Err(head.flags.error), head.rest)
    else
      var body := ReadBody(head.rest);
      if body.ending.Closed? then Answer(head.notes, Err(Disconnected), body.rest)
      else if body.ending.Exited? then Answer(head.notes, Err(ExitedWhilePending), body.rest)
      else if head.flags.value == 0 then
        var more := ReadAnswer(body.rest);
        Answer(head.notes + more.notes, more.body, more.rest)
      else Answer(head.notes, Ok(body), body.rest)
  }

  /** What an error says: the lines of its block, or its last line if there is no text in them. */
  function Detail(lines: seq<Line>, line: Line): Line {
    if Join(lines, LF) == [] then line else Join(lines, LF)
  }

  /** The text of an error says its lines, each as it was sent. */
  lemma DetailIsTheLines(lines: seq<Line>, line: Line)
    requires Free(lines, LF)
    ensures lines == [] || lines == [[]] ==> Detail(lines, line) == line
    ensures lines != [] && lines != [[]] ==>
              SplitOn(Detail(lines, line), LF) == lines && RenderLines(lines) == Detail(lines, line) + [LF]
  {
    if lines != [] {
      RenderedIsJoined(lines);
      SplitJoined(lines, LF);
      if Join(lines, LF) == [] {
        assert lines == [[]];
      }
    }
  }

  datatype Execution = Execution(
    blocks: seq<seq<Line>>, notes: seq<Notification>, error: Option<ClientError>, poisoned: bool, rest: seq<Line>)

  /** The answers to a sequence of commands, of which the first is step `step`. */
  function Execute(lines: seq<Line>, count: nat, step: nat): Execution
    decreases count
  {
    if count == 0 then Execution([], [], None, false, lines)
    else
      var answer := ReadAnswer(lines);
      if answer.body.Err? then Execution([], answer.notes, Some(answer.body.error), false, answer.rest)
      else if answer.body.value.ending.Failed? then
        var detail := Detail(answer.body.value.lines, answer.body.value.ending.line);
        Execution([], answer.notes, Some(CommandFailed(step, detail)), count > 1, answer.rest)
      else
        var more := Execute(answer.rest, count - 1, step + 1);
        Execution([answer.body.value.lines] + more.blocks, answer.notes + more.notes, more.error, more.poisoned,
          more.rest)
  }

  /** One command more, or none. */
  lemma ExecuteStep(lines: seq<Line>, count: nat, step: nat)
    ensures count == 0 ==> Execute(lines, count, step) == Execution([], [], None, false, lines)
    ensures var answer := ReadAnswer(lines);
            count > 0 && answer.body.Err?
            ==> Execute(lines, count, step)
                == Execution([], answer.notes, Some(answer.body.error), false, answer.rest)
    ensures var answer := ReadAnswer(lines);
            count > 0 && answer.body.Ok? && answer.body.value.ending.Failed?
            ==> Execute(lines, count, step)
                == Execution([], answer.notes,
                     Some(CommandFailed(step, Detail(answer.body.value.lines, answer.body.value.ending.line))),
                     count > 1, answer.rest)
    ensures var answer := ReadAnswer(lines);
            count > 0 && answer.body.Ok? && !answer.body.value.ending.Failed?
            ==> var more := Execute(answer.rest, count - 1, step + 1);
                Execute(lines, count, step)
                == Execution([answer.body.value.lines] + more.blocks, answer.notes + more.notes, more.error,
                     more.poisoned, more.rest)
  {
    hide ReadAnswer, Detail;
  }

  // ----- The client -----

  class ControlClient {
    /** The lines the server will have sent, as far as they are not read yet. */
    var input: seq<Line>
    var notifications: seq<Notification>
    var poisoned: bool

    constructor (input: seq<Line>)
      ensures this.input == input && notifications == [] && !poisoned
    {
      this.input, notifications, poisoned := input, [], false;
    }

    method ReadLine() returns (r: Result<Line, ClientError>)
      modifies this`input
      ensures old(input) == [] ==> r == Err(Disconnected) && input == []
      ensures old(input) != [] ==> r == Ok(old(input)[0]) && input == old(input)[1..]
    {
      if input == [] {
        return Err(Disconnected);
      }
      r := Ok(input[0]);
      input := input[1..];
    }

    method RecordNotification(line: Line) returns (r: Outcome<ClientError>)
      modifies this`notifications
      ensures match ParseNotification(line)
              case Some(note) => r == Pass && notifications == old(notifications) + [note]
              case None => r == Fail(UnexpectedLine(line)) && notifications == old(notifications)
    {
      var note := ParseNotification(line);
      if note.None? {
        return Fail(UnexpectedLine(line));
      }
      notifications := notifications + [note.value];
      return Pass;
    }

    /** Notifications up to the next block header. */
    method NextHeader() returns (r: Result<int, ClientError>)
      modifies this`input, this`notifications
      ensures var h := ReadHeader(old(input));
              r == h.flags && input == h.rest && notifications == old(notifications) + h.notes
    {
      while true
        invariant var h, now := ReadHeader(old(input)), ReadHeader(input);
                  && h.flags == now.flags && h.rest == now.rest
                  && old(notifications) + h.notes == notifications + now.notes
        decreases |input|
      {
        var line := ReadLine();
        if line.Err? {
          return Err(line.error);
        }
        var header := ParseBlockHeader(line.value);
        if header.Err? {
          return Err(header.error);
        }
        if header.value.Some? {
          return Ok(header.value.value);
        }
        var recorded := RecordNotification(line.value);
        if recorded.Fail? {
          return Err(recorded.error);
        }
      }
    }

    /** The lines of a block and the line that ends it. */
    method BlockBody() returns (r: Result<(seq<Line>, Option<Line>), ClientError>)
      modifies this`input
      ensures var b := ReadBody(old(input));
              && input == b.rest
              && match b.ending
                 case Ended => r == Ok((b.lines, None))
                 case Failed(line) => r == Ok((b.lines, Some(line)))
                 case Exited => r == Err(ExitedWhilePending)
                 case Closed => r == Err(Disconnected)
    {
      var output: seq<Line> := [];
      while true
        invariant var b, now := ReadBody(old(input)), ReadBody(input);
                  b.ending == now.ending && b.rest == now.rest && b.lines == output + now.lines
        decreases |input|
      {
        var line := ReadLine();
        if line.Err? {
          return Err(line.error);
        }
        assert output + [] == output;
        if StartsWith(line.value, END) {
          return Ok((output, None));
        }
        if StartsWith(line.value, ERROR) {
          return Ok((output, Some(line.value)));
        }
        if StartsWith(line.value, EXIT) {
          return Err(ExitedWhilePending);
        }
        output := output + [line.value];
      }
    }

    /** The next block that answers a command; the blocks of hooks are read over. */
    method NextAnswer() returns (r: Result<(seq<Line>, Option<Line>), ClientError>)
      modifies this`input, this`notifications
      ensures var a := ReadAnswer(old(input));
              && input == a.rest && notifications == old(notifications) + a.notes
              && match a.body
                 case Err(error) => r == Err(error)
                 case Ok(body) => r == Ok((body.lines, if body.ending.Failed? then Some(body.ending.line) else None))
    {
      hide ReadHeader, ReadBody;
      while true
        invariant var a, now := ReadAnswer(old(input)), ReadAnswer(input);
                  a.body == now.body && a.rest == now.rest && old(notifications) + a.notes == notifications + now.notes
        decreases |input|
      {
        var header := NextHeader();
        if header.Err? {
          return Err(header.error);
        }
        r := BlockBody();
        if r.Err? || header.value != 0 {
          return;
        }
      }
    }

    /** Sends a sequence of commands, which may fail, and collects one block for each. */
    method ExecuteBlocks(sent: bool, blockCount: nat) returns (r: Result<seq<seq<Line>>, ClientError>)
      modifies this
      ensures !sent ==> r == Err(WriteFailed) && input == old(input) && notifications == old(notifications)
                        && poisoned == old(poisoned)
      ensures sent ==>
                var e := Execute(old(input), blockCount, 1);
                && input == e.rest && notifications == old(notifications) + e.notes
                && poisoned == (old(poisoned) || e.poisoned)
                && r == match e.error case None => Ok(e.blocks) case Some(error) => Err(error)
    {
      hide ReadAnswer, Detail, Execute;
      if !sent {
        return Err(WriteFailed);
      }
      var blocks: seq<seq<Line>> := [];
      for index := 0 to blockCount
        invariant poisoned == old(poisoned)
        invariant var e, now := Execute(old(input), blockCount, 1), Execute(input, blockCount - index, index + 1);
                  && e.blocks == blocks + now.blocks && old(notifications) + e.notes == notifications + now.notes
                  && e.error == now.error && e.poisoned == now.poisoned && e.rest == now.rest
      {
        ExecuteStep(input, blockCount - index, index + 1);
        var answer := NextAnswer();
        if answer.Err? {
          return Err(answer.error);
        }
        if answer.value.1.Some? {
          if index + 1 < blockCount {
            poisoned := true;
          }
          return Err(CommandFailed(index + 1, Detail(answer.value.0, answer.value.1.value)));
        }
        blocks := blocks + [answer.value.0];
      }
      ExecuteStep(input, 0, blockCount + 1);
      assert blocks + [] == blocks && notifications + [] == notifications;
      return Ok(blocks);
    }
  }

  // ----- What a server sends -----

  /** A notification as it is sent. */
  function NotificationLine(note: Notification): Line {
    match note
    case NoteMessage(text) => MESSAGE + text
    case NoteExit(text) => text
    case NoteEvent(text) => text
  }

  predicate ValidNotification(note: Notification) {
    match note
    case NoteMessage(_) => true
    case NoteExit(text) => StartsWith(text, EXIT)
    case NoteEvent(text) =>
      text != [] && text[0] == PERCENT && !StartsWith(text, EXIT) && !StartsWith(text, MESSAGE)
  }

  /** Every notification is read back, and a line is one exactly when it begins with a percent sign. */
  lemma NotificationRoundTrip(note: Notification, line: Line)
    ensures ValidNotification(note) ==> ParseNotification(NotificationLine(note)) == Some(note)
    ensures ParseNotification(line).Some? <==> line != [] && line[0] == PERCENT
    ensures var read := ParseNotification(line);
            read.Some? ==> ValidNotification(read.value) && NotificationLine(read.value) == line
  {
    if note.NoteMessage? {
      assert (MESSAGE + note.text)[|MESSAGE|..] == note.text;
    }
    assert EXIT[1] != MESSAGE[1];
    if StartsWith(line, MESSAGE) {
      assert line == MESSAGE + line[|MESSAGE|..];
    }
  }

  /** The header of a block, field by field. */
  datatype Header = Header(stamp: seq<byte>, number: seq<byte>, flags: seq<byte>)

  datatype Item = Note(line: Line) | Block(header: Header, body: seq<Line>, closing: Line)

  function HeaderLine(h: Header): Line {
    BEGIN + (h.stamp + ([SPACE] + (h.number + ([SPACE] + h.flags))))
  }

  predicate ValidHeader(h: Header) {
    && ParseInteger(h.stamp, true, -0x8000_0000_0000_0000, 0x7fff_ffff_ffff_ffff).Some?
    && ParseInteger(h.number, false, 0, 0xffff_ffff).Some?
    && ParseInteger(h.flags, true, -0x8000_0000, 0x7fff_ffff).Some?
  }

  function FlagsOf(h: Header): int
    requires ValidHeader(h)
  {
    ParseInteger(h.flags, true, -0x8000_0000, 0x7fff_ffff).value
  }

  /** A line of output that does not look like the end of a block. */
  predicate PlainLine(line: Line) {
    !StartsWith(line, END) && !StartsWith(line, ERROR) && !StartsWith(line, EXIT)
  }

  predicate ValidItem(item: Item) {
    match item
    case Note(line) => line != [] && line[0] == PERCENT && !StartsWith(line, BEGIN)
    case Block(header, body, closing) =>
      && ValidHeader(header)
      && (forall line | line in body :: PlainLine(line))
      && (StartsWith(closing, END) || StartsWith(closing, ERROR))
  }

  predicate Unasked(item: Item) {
    ValidItem(item) && (item.Block? ==> FlagsOf(item.header) == 0)
  }

  predicate Answers(item: Item) {
    ValidItem(item) && item.Block? && FlagsOf(item.header) != 0
  }

  function RenderItem(item: Item, follow: seq<Line>): seq<Line> {
    match item
    case Note(line) => [line] + follow
    case Block(header, body, closing) => [HeaderLine(header)] + (body + ([closing] + follow))
  }

  function RenderItems(items: seq<Item>, follow: seq<Line>): seq<Line> {
    if items == [] then follow else RenderItem(items[0], RenderItems(items[1..], follow))
  }

  function NotesOf(items: seq<Item>): seq<Notification> {
    if items == [] then []
    else
      var note := if items[0].Note? then ParseNotification(items[0].line) else None;
      (if note.Some? then [note.value] else []) + NotesOf(items[1..])
  }

  lemma WordsOfHeader(h: Header)
    requires ValidHeader(h)
    ensures Words(HeaderLine(h)) == [BEGIN[..6], h.stamp, h.number, h.flags]
  {
    hide Words, ParseInteger;
    ParsedIsSolid(h.stamp, true, -0x8000_0000_0000_0000, 0x7fff_ffff_ffff_ffff);
    ParsedIsSolid(h.number, false, 0, 0xffff_ffff);
    ParsedIsSolid(h.flags, true, -0x8000_0000, 0x7fff_ffff);
    var rest := h.stamp + ([SPACE] + (h.number + ([SPACE] + h.flags)));
    assert BEGIN + rest == BEGIN[..6] + ([SPACE] + rest);
    FourWords(BEGIN[..6], h.stamp, h.number, h.flags);
  }

  /** A header is read back as its flags. */
  lemma HeaderRoundTrip(h: Header)
    requires ValidHeader(h)
    ensures ParseBlockHeader(HeaderLine(h)) == Ok(Some(FlagsOf(h)))
  {
    WordsOfHeader(h);
    assert BEGIN <= HeaderLine(h);
  }

  /** The header of a block with these numbers gives its flags. */
  lemma PrintedHeaderIsRead(stamp: int, number: nat, flags: int)
    requires -0x8000_0000_0000_0000 <= stamp <= 0x7fff_ffff_ffff_ffff && number <= 0xffff_ffff
    requires -0x8000_0000 <= flags <= 0x7fff_ffff
    ensures var h := Header(PrintInteger(stamp), PrintInteger(number), PrintInteger(flags));
            ValidHeader(h) && ParseBlockHeader(HeaderLine(h)) == Ok(Some(flags))
  {
    hide ParseInteger, ParseBlockHeader, HeaderLine;
    var h := Header(PrintInteger(stamp), PrintInteger(number), PrintInteger(flags));
    IntegerRoundTrip(stamp, true, -0x8000_0000_0000_0000, 0x7fff_ffff_ffff_ffff);
    IntegerRoundTrip(number, false, 0, 0xffff_ffff);
    IntegerRoundTrip(flags, true, -0x8000_0000, 0x7fff_ffff);
    HeaderRoundTrip(h);
  }

  lemma ClosingLine(closing: Line, follow: seq<Line>)
    requires StartsWith(closing, END) || StartsWith(closing, ERROR)
    ensures ReadBody([closing] + follow)
            == Body([], if StartsWith(closing, END) then Ended else Failed(closing), follow)
  {
    assert ([closing] + follow)[1..] == follow;
  }

  lemma {:induction false} BodyRendered(body: seq<Line>, closing: Line, follow: seq<Line>)
    requires (forall line | line in body :: PlainLine(line)) && (StartsWith(closing, END) || StartsWith(closing, ERROR))
    ensures ReadBody(body + ([closing] + follow))
            == Body(body, if StartsWith(closing, END) then Ended else Failed(closing), follow)
  {
    if body == [] {
      ClosingLine(closing, follow);
      assert body + ([closing] + follow) == [closing] + follow;
    } else {
      BodyRendered(body[1..], closing, follow);
      assert (body + ([closing] + follow))[1..] == body[1..] + ([closing] + follow);
      assert body == [body[0]] + body[1..];
      assert PlainLine(body[0]);
    }
  }

  lemma BlockRendered(item: Item, follow: seq<Line>)
    requires ValidItem(item) && item.Block?
    ensures var lines := RenderItem(item, follow);
            && ReadHeader(lines) == Head([], Ok(FlagsOf(item.header)), lines[1..])
            && ReadBody(lines[1..])
               == Body(item.body, if StartsWith(item.closing, END) then Ended else Failed(item.closing), follow)
  {
    HeaderRoundTrip(item.header);
    BodyRendered(item.body, item.closing, follow);
    assert RenderItem(item, follow)[1..] == item.body + ([item.closing] + follow);
  }

  /** One command's answer, and what the server sends unasked before it. */
  datatype Reply = Reply(unasked: seq<Item>, answer: Item)

  predicate ValidReply(r: Reply) {
    (forall item | item in r.unasked :: Unasked(item)) && Answers(r.answer)
  }

  predicate Succeeds(r: Reply) {
    r.answer.Block? && StartsWith(r.answer.closing, END)
  }

  lemma {:induction false} AnswerFound(unasked: seq<Item>, answer: Item, follow: seq<Line>)
    requires (forall item | item in unasked :: Unasked(item)) && Answers(answer)
    ensures ReadAnswer(RenderItems(unasked, RenderItem(answer, follow)))
            == Answer(NotesOf(unasked),
                      Ok(Body(answer.body, if StartsWith(answer.closing, END) then Ended else Failed(answer.closing),
                        follow)),
                      follow)
  {
    hide ReadBody;
    if unasked == [] {
      BlockRendered(answer, follow);
    } else {
      var rest := RenderItems(unasked[1..], RenderItem(answer, follow));
      AnswerFound(unasked[1..], answer, follow);
      assert Unasked(unasked[0]);
      if unasked[0].Note? {
        assert ([unasked[0].line] + rest)[1..] == rest;
        NoteRead(unasked[0].line, rest);
      } else {
        BlockRendered(unasked[0], rest);
      }
    }
  }

  lemma NoteRead(line: Line, rest: seq<Line>)
    requires ValidItem(Note(line))
    ensures ParseNotification(line).Some?
    ensures var a, more := ReadAnswer([line] + rest), ReadAnswer(rest);
            a == Answer([ParseNotification(line).value] + more.notes, more.body, more.rest)
  {
    hide ReadBody;
    assert ([line] + rest)[1..] == rest;
    var h := ReadHeader(rest);
    assert ReadHeader([line] + rest) == Head([ParseNotification(line).value] + h.notes, h.flags, h.rest);
    if h.flags == Ok(0) {
      var more := ReadAnswer(ReadBody(h.rest).rest);
      assert ([ParseNotification(line).value] + h.notes) + more.notes
          == [ParseNotification(line).value] + (h.notes + more.notes);
    }
  }

  function RenderReplies(replies: seq<Reply>, follow: seq<Line>): seq<Line> {
    if replies == [] then follow
    else RenderItems(replies[0].unasked, RenderItem(replies[0].answer, RenderReplies(replies[1..], follow)))
  }

  function OutputOf(item: Item): seq<Line> {
    if item.Block? then item.body else []
  }

  function Outputs(replies: seq<Reply>): seq<seq<Line>> {
    if replies == [] then [] else [OutputOf(replies[0].answer)] + Outputs(replies[1..])
  }

  function AllNotes(replies: seq<Reply>): seq<Notification> {
    if replies == [] then [] else NotesOf(replies[0].unasked) + AllNotes(replies[1..])
  }

  /** What one reply does to a call. */
  lemma ReplyRead(r: Reply, follow: seq<Line>, count: nat, step: nat)
    requires ValidReply(r) && count > 0
    ensures var e := Execute(RenderReplies([r], follow), count, step);
            if Succeeds(r) then
              var more := Execute(follow, count - 1, step + 1);
              e == Execution([OutputOf(r.answer)] + more.blocks, NotesOf(r.unasked) + more.notes, more.error,
                more.poisoned, more.rest)
            else
              r.answer.Block? && e == Execution([], NotesOf(r.unasked),
                Some(CommandFailed(step, Detail(r.answer.body, r.answer.closing))), count > 1, follow)
  {
    hide ReadAnswer, ValidItem, Detail, RenderItems, RenderItem;
    AnswerFound(r.unasked, r.answer, follow);
    OneReply(r, follow);
    AnswerIsBlock(r.answer);
  }

  lemma OneReply(r: Reply, follow: seq<Line>)
    ensures RenderReplies([r], follow) == RenderItems(r.unasked, RenderItem(r.answer, follow))
  {
    assert RenderReplies([r][1..], follow) == follow;
  }

  lemma AnswerIsBlock(item: Item)
    requires Answers(item)
    ensures item.Block?
  {
  }

  lemma FirstReply(replies: seq<Reply>, follow: seq<Line>)
    requires replies != []
    ensures RenderReplies(replies, follow) == RenderReplies([replies[0]], RenderReplies(replies[1..], follow))
  {
    OneReply(replies[0], RenderReplies(replies[1..], follow));
  }

  /** When every command succeeds, the call gives exactly their outputs, and reads nothing further. */
  lemma {:induction false} ExecuteSucceeds(replies: seq<Reply>, follow: seq<Line>, step: nat)
    requires forall r | r in replies :: ValidReply(r) && Succeeds(r)
    ensures Execute(RenderReplies(replies, follow), |replies|, step)
            == Execution(Outputs(replies), AllNotes(replies), None, false, follow)
  {
    if replies != [] {
      hide ReadAnswer, ValidReply, RenderReplies;
      FirstReply(replies, follow);
      ReplyRead(replies[0], RenderReplies(replies[1..], follow), |replies|, step);
      ExecuteSucceeds(replies[1..], follow, step + 1);
    }
  }

  /** When a command fails, the call fails at that step, and has read up to the end of its block. The
      client is given up exactly when it was not the last command. */
  lemma {:induction false} ExecuteFails(replies: seq<Reply>, failing: Reply, count: nat, follow: seq<Line>, step: nat)
    requires (forall r | r in replies :: ValidReply(r) && Succeeds(r)) && ValidReply(failing) && !Succeeds(failing)
    requires |replies| < count
    ensures failing.answer.Block?
    ensures var e := Execute(RenderReplies(replies, RenderReplies([failing], follow)), count, step);
            && e.error == Some(CommandFailed(step + |replies|, Detail(failing.answer.body, failing.answer.closing)))
            && e.notes == AllNotes(replies) + NotesOf(failing.unasked)
            && e.poisoned == (|replies| + 1 < count)
            && e.rest == follow
  {
    hide ReadAnswer, ValidReply, Succeeds, Detail, NotesOf, OutputOf, Execute;
    ReplyRead(failing, follow, count - |replies|, step + |replies|);
    if replies == [] {
      assert AllNotes(replies) + NotesOf(failing.unasked) == NotesOf(failing.unasked);
    } else {
      hide RenderReplies;
      var rest := RenderReplies([failing], follow);
      FirstReply(replies, rest);
      ReplyRead(replies[0], RenderReplies(replies[1..], rest), count, step);
      ExecuteFails(replies[1..], failing, count - 1, follow, step + 1);
      Assoc(NotesOf(replies[0].unasked), AllNotes(replies[1..]), NotesOf(failing.unasked));
    }
  }

  // ----- Runs of calls -----

  /** One call: the replies to its commands; `lost` further commands are never run after a failure. */
  datatype Call = Call(replies: seq<Reply>, lost: nat)

  ghost predicate ValidCall(c: Call) {
    && (forall r | r in c.replies :: ValidReply(r))
    && (forall i | 0 <= i < |c.replies| - 1 :: Succeeds(c.replies[i]))
    && (c.lost > 0 ==> c.replies != [] && !Succeeds(c.replies[|c.replies| - 1]))
  }

  function CountOf(c: Call): nat {
    |c.replies| + c.lost
  }

  /** A client that goes on as long as it is not given up. */
  function Session(lines: seq<Line>, counts: seq<nat>): seq<Execution>
    decreases |counts|
  {
    if counts == [] then []
    else
      var e := Execute(lines, counts[0], 1);
      if e.poisoned then [e] else [e] + Session(e.rest, counts[1..])
  }

  function RenderCalls(calls: seq<Call>, follow: seq<Line>): seq<Line> {
    if calls == [] then follow else RenderReplies(calls[0].replies, RenderCalls(calls[1..], follow))
  }

  function CountsOf(calls: seq<Call>): seq<nat> {
    if calls == [] then [] else [CountOf(calls[0])] + CountsOf(calls[1..])
  }

  /** What a call should come to: its own outputs, or the failure of its last reply. */
  ghost predicate Right(c: Call, e: Execution) {
    if c.replies == [] || Succeeds(c.replies[|c.replies| - 1]) then
      e.error == None && e.blocks == Outputs(c.replies) && !e.poisoned
    else
      var last := c.replies[|c.replies| - 1];
      && last.answer.Block?
      && e.error == Some(CommandFailed(|c.replies|, Detail(last.answer.body, last.answer.closing)))
      && e.poisoned == (c.lost > 0)
  }

  lemma {:induction false} RepliesAppend(replies: seq<Reply>, last: Reply, follow: seq<Line>)
    ensures RenderReplies(replies + [last], follow) == RenderReplies(replies, RenderReplies([last], follow))
  {
    if replies == [] {
      assert replies + [last] == [last];
    } else {
      RepliesAppend(replies[1..], last, follow);
      assert (replies + [last])[1..] == replies[1..] + [last];
    }
  }

  lemma CallRight(c: Call, follow: seq<Line>)
    requires ValidCall(c)
    ensures var e := Execute(RenderReplies(c.replies, follow), CountOf(c), 1);
            Right(c, e) && e.rest == follow && e.notes == AllNotes(c.replies)
  {
    hide Execute, ValidReply, Succeeds, RenderReplies, AllNotes, Detail;
    var n := |c.replies|;
    if n == 0 || Succeeds(c.replies[n - 1]) {
      forall r | r in c.replies ensures ValidReply(r) && Succeeds(r) {
        var i :| 0 <= i < n && c.replies[i] == r;
      }
      ExecuteSucceeds(c.replies, follow, 1);
    } else {
      var init, last := c.replies[..n - 1], c.replies[n - 1];
      assert c.replies == init + [last];
      RepliesAppend(init, last, follow);
      ExecuteFails(init, last, CountOf(c), follow, 1);
      NotesAppend(init, last);
      FailingIsBlock(last);
    }
  }

  lemma FailingIsBlock(r: Reply)
    requires ValidReply(r)
    ensures r.answer.Block?
  {
  }

  lemma {:induction false} NotesAppend(replies: seq<Reply>, last: Reply)
    ensures AllNotes(replies + [last]) == AllNotes(replies) + NotesOf(last.unasked)
  {
    hide NotesOf;
    if replies == [] {
      assert replies + [last] == [last] && AllNotes([last][1..]) == [];
    } else {
      NotesAppend(replies[1..], last);
      assert (replies + [last])[1..] == replies[1..] + [last];
    }
  }

  /** Over every run of calls, whatever hooks and notifications come in between: each call the client
      makes comes to exactly its own outputs or its own failure, up to the one that makes it give up. */
  lemma {:induction false} SessionIsAligned(calls: seq<Call>, follow: seq<Line>)
    requires forall c | c in calls :: ValidCall(c)
    ensures var run := Session(RenderCalls(calls, follow), CountsOf(calls));
            && |run| <= |calls|
            && (forall i | 0 <= i < |run| :: Right(calls[i], run[i]))
            && (|run| < |calls| ==> run != [] && run[|run| - 1].poisoned)
    decreases |calls|
  {
    hide Execute, Right, ValidCall, RenderReplies;
    if calls != [] {
      assert calls[0] in calls;
      var rest := RenderCalls(calls[1..], follow);
      CallRight(calls[0], rest);
      SessionIsAligned(calls[1..], follow);
      assert CountsOf(calls)[1..] == CountsOf(calls[1..]);
      var e := Execute(RenderReplies(calls[0].replies, rest), CountOf(calls[0]), 1);
      var run := Session(RenderCalls(calls, follow), CountsOf(calls));
      if !e.poisoned {
        var later := Session(rest, CountsOf(calls[1..]));
        assert run == [e] + later;
        forall i | 0 <= i < |run| ensures Right(calls[i], run[i]) {
          if i > 0 {
            assert run[i] == later[i - 1] && calls[i] == calls[1..][i - 1];
          }
        }
      }
    }
  }
}
