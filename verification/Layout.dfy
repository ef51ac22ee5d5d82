/** tmux window layouts: a checksum and a tree of cells, read by a recursive-descent parser over bytes. */
module Layout {
  import opened Bytes
  import opened Wrappers

  // ----- The trees -----

  /** Numbers are kept as they are written, with any leading zeros. */
  datatype Geometry = Geometry(width: seq<byte>, height: seq<byte>, x: seq<byte>, y: seq<byte>)

  /** A pane, or a container in square brackets or braces. */
  datatype Cell =
    | Leaf(geometry: Geometry, pane: seq<byte>)
    | Split(geometry: Geometry, square: bool, first: Cell, others: Cells)

  datatype Cells = Nil | Cons(head: Cell, tail: Cells)

  const COMMA: byte := 44
  const TIMES: byte := 120
  const U32_SIZE: int := 0x1_0000_0000
  const U16_SIZE: int := 0x1_0000

  function Opening(square: bool): byte { if square then 91 else 123 }

  function Closing(square: bool): byte { if square then 93 else 125 }

  /** A nonempty run of digits whose value fits in 32 bits. */
  predicate Number32(s: seq<byte>) {
    s != [] && Digits(s) && Value(s) < U32_SIZE
  }

  predicate ValidGeometry(g: Geometry) {
    Number32(g.width) && Number32(g.height) && Number32(g.x) && Number32(g.y)
  }

  /** All numbers fit, and every container has at least two children. */
  predicate ValidCell(c: Cell) {
    && ValidGeometry(c.geometry)
    && match c
       case Leaf(_, pane) => Number32(pane)
       case Split(_, _, first, others) => ValidCell(first) && others.Cons? && ValidCells(others)
  }

  predicate ValidCells(cs: Cells) {
    cs.Nil? || (ValidCell(cs.head) && ValidCells(cs.tail))
  }

  function Leaves(c: Cell): nat {
    match c
    case Leaf(_, _) => 1
    case Split(_, _, first, others) => Leaves(first) + LeavesOf(others)
  }

  function LeavesOf(cs: Cells): nat {
    match cs
    case Nil => 0
    case Cons(head, tail) => Leaves(head) + LeavesOf(tail)
  }

  // ----- Printing a tree in front of what follows it -----

  function PrintGeometry(g: Geometry, follow: seq<byte>): seq<byte> {
    g.width + ([TIMES] + (g.height + ([COMMA] + (g.x + ([COMMA] + (g.y + follow))))))
  }

  function PrintBefore(c: Cell, follow: seq<byte>): seq<byte>
    decreases c, 1
  {
    PrintGeometry(c.geometry, PrintBody(c, follow))
  }

  function PrintBody(c: Cell, follow: seq<byte>): seq<byte>
    decreases c, 0
  {
    match c
    case Leaf(_, pane) => [COMMA] + (pane + follow)
    case Split(_, square, first, others) =>
      [Opening(square)] + PrintBefore(first, PrintOthers(others, [Closing(square)] + follow))
  }

  function PrintOthers(cs: Cells, follow: seq<byte>): seq<byte>
    decreases cs, 0
  {
    match cs
    case Nil => follow
    case Cons(head, tail) => [COMMA] + PrintBefore(head, PrintOthers(tail, follow))
  }

  function Print(c: Cell): seq<byte> {
    PrintBefore(c, [])
  }

  // ----- Reading: what is found at the start, and what remains -----

  function DigitCount(s: seq<byte>): (n: nat)
    ensures n <= |s|
  {
    if s != [] && IsDigit(s[0]) then 1 + DigitCount(s[1..]) else 0
  }

  function ReadNumber(s: seq<byte>): (r: Option<(seq<byte>, seq<byte>)>)
    ensures r.Some? ==> |r.value.1| < |s|
  {
    var n := DigitCount(s);
    if n > 0 && Value(s[..n]) < U32_SIZE then Some((s[..n], s[n..])) else None
  }

  function Expect(s: seq<byte>, b: byte): (r: Option<seq<byte>>)
    ensures r.Some? ==> |r.value| < |s|
  {
    if s != [] && s[0] == b then Some(s[1..]) else None
  }

  function NumberThen(s: seq<byte>, b: byte): (r: Option<(seq<byte>, seq<byte>)>)
    ensures r.Some? ==> |r.value.1| < |s|
  {
    var number := ReadNumber(s);
    if number.None? then None else
    var after := Expect(number.value.1, b);
    if after.None? then None else Some((number.value.0, after.value))
  }

  function ReadGeometry(s: seq<byte>): (r: Option<(Geometry, seq<byte>)>)
    ensures r.Some? ==> |r.value.1| < |s|
  {
    var w := NumberThen(s, TIMES);
    if w.None? then None else
    var h := NumberThen(w.value.1, COMMA);
    if h.None? then None else
    var x := NumberThen(h.value.1, COMMA);
    if x.None? then None else
    var y := ReadNumber(x.value.1);
    if y.None? then None else Some((Geometry(w.value.0, h.value.0, x.value.0, y.value.0), y.value.1))
  }

  function ReadCell(s: seq<byte>): (r: Option<(Cell, seq<byte>)>)
    ensures r.Some? ==> |r.value.1| < |s|
    decreases |s|
  {
    var g := ReadGeometry(s);
    if g.None? || g.value.1 == [] then None else
    var (geometry, rest) := g.value;
    if rest[0] == COMMA then
      var pane := ReadNumber(rest[1..]);
      if pane.None? then None else Some((Leaf(geometry, pane.value.0), pane.value.1))
    else if rest[0] == Opening(true) || rest[0] == Opening(false) then
      var square := rest[0] == Opening(true);
      var first := ReadCell(rest[1..]);
      if first.None? then None else
      var others := ReadOthers(first.value.1, square);
      if others.None? || others.value.0.Nil? then None
      else Some((Split(geometry, square, first.value.0, others.value.0), others.value.1))
    else None
  }

  /** The further children of a container, up to its bracket. */
  function ReadOthers(s: seq<byte>, square: bool): (r: Option<(Cells, seq<byte>)>)
    ensures r.Some? ==> |r.value.1| < |s|
    decreases |s|
  {
    if s == [] then None
    else if s[0] == Closing(square) then Some((Nil, s[1..]))
    else if s[0] == COMMA then
      var child := ReadCell(s[1..]);
      if child.None? then None else
      var others := ReadOthers(child.value.1, square);
      if others.None? then None else Some((Cons(child.value.0, others.value.0), others.value.1))
    else None
  }

  // ----- Reading gives exactly what was printed -----

  predicate NoDigitFirst(s: seq<byte>) {
    s == [] || !IsDigit(s[0])
  }

  lemma {:induction false} DigitCountFacts(s: seq<byte>)
    ensures Digits(s[..DigitCount(s)]) && NoDigitFirst(s[DigitCount(s)..])
  {
    if s != [] && IsDigit(s[0]) {
      DigitCountFacts(s[1..]);
      var n := DigitCount(s);
      assert s[..n] == [s[0]] + s[1..][..n - 1] && s[n..] == s[1..][n - 1..];
    }
  }

  lemma {:induction false} DigitCountPrinted(digits: seq<byte>, follow: seq<byte>)
    requires Digits(digits) && NoDigitFirst(follow)
    ensures DigitCount(digits + follow) == |digits|
  {
    if digits != [] {
      DigitCountPrinted(digits[1..], follow);
      assert (digits + follow)[1..] == digits[1..] + follow;
    } else {
      assert digits + follow == follow;
    }
  }

  lemma ReadNumberPrinted(number: seq<byte>, follow: seq<byte>)
    requires Number32(number) && NoDigitFirst(follow)
    ensures ReadNumber(number + follow) == Some((number, follow))
  {
    DigitCountPrinted(number, follow);
    assert (number + follow)[..|number|] == number && (number + follow)[|number|..] == follow;
  }

  lemma ReadNumberFound(s: seq<byte>)
    requires ReadNumber(s).Some?
    ensures var (number, rest) := ReadNumber(s).value;
            Number32(number) && NoDigitFirst(rest) && s == number + rest
  {
    DigitCountFacts(s);
  }

  lemma NumberThenPrinted(number: seq<byte>, b: byte, follow: seq<byte>)
    requires Number32(number) && !IsDigit(b)
    ensures NumberThen(number + ([b] + follow), b) == Some((number, follow))
  {
    ReadNumberPrinted(number, [b] + follow);
    assert ([b] + follow)[1..] == follow;
  }

  lemma NumberThenFound(s: seq<byte>, b: byte)
    requires NumberThen(s, b).Some?
    ensures var (number, rest) := NumberThen(s, b).value;
            Number32(number) && s == number + ([b] + rest)
  {
    ReadNumberFound(s);
    var rest := ReadNumber(s).value.1;
    assert rest == [rest[0]] + rest[1..];
  }

  lemma ReadGeometryPrinted(g: Geometry, follow: seq<byte>)
    requires ValidGeometry(g) && NoDigitFirst(follow)
    ensures ReadGeometry(PrintGeometry(g, follow)) == Some((g, follow))
  {
    hide Number32, ReadNumber, NumberThen;
    var s3 := g.y + follow;
    var s2 := g.x + ([COMMA] + s3);
    var s1 := g.height + ([COMMA] + s2);
    NumberThenPrinted(g.width, TIMES, s1);
    NumberThenPrinted(g.height, COMMA, s2);
    NumberThenPrinted(g.x, COMMA, s3);
    ReadNumberPrinted(g.y, follow);
  }

  lemma ReadGeometryFound(s: seq<byte>)
    requires ReadGeometry(s).Some?
    ensures var (g, rest) := ReadGeometry(s).value;
            ValidGeometry(g) && s == PrintGeometry(g, rest) && NoDigitFirst(rest)
  {
    hide Number32, ReadNumber, NumberThen;
    var w := NumberThen(s, TIMES).value;
    var h := NumberThen(w.1, COMMA).value;
    var x := NumberThen(h.1, COMMA).value;
    NumberThenFound(s, TIMES);
    NumberThenFound(w.1, COMMA);
    NumberThenFound(h.1, COMMA);
    ReadNumberFound(x.1);
  }

  /** Only valid trees are read, and they are what stood there. */
  lemma {:induction false} ReadCellFound(s: seq<byte>)
    requires ReadCell(s).Some?
    ensures var (c, rest) := ReadCell(s).value;
            ValidCell(c) && s == PrintBefore(c, rest)
    decreases |s|
  {
    hide ValidGeometry, Number32, ReadNumber, ReadGeometry, PrintGeometry;
    var (g, rest) := ReadGeometry(s).value;
    ReadGeometryFound(s);
    assert rest == [rest[0]] + rest[1..];
    if rest[0] == COMMA {
      ReadNumberFound(rest[1..]);
    } else {
      var square := rest[0] == Opening(true);
      var first := ReadCell(rest[1..]).value;
      ReadCellFound(rest[1..]);
      ReadOthersFound(first.1, square);
    }
  }

  lemma {:induction false} ReadOthersFound(s: seq<byte>, square: bool)
    requires ReadOthers(s, square).Some?
    ensures var (cs, rest) := ReadOthers(s, square).value;
            ValidCells(cs) && s == PrintOthers(cs, [Closing(square)] + rest)
    decreases |s|
  {
    hide PrintBefore, ValidCell;
    assert s == [s[0]] + s[1..];
    if s[0] != Closing(square) {
      var child := ReadCell(s[1..]).value;
      ReadCellFound(s[1..]);
      ReadOthersFound(child.1, square);
    }
  }

  /** Every valid tree that is printed there is read, whatever follows that is not one more digit. */
  lemma {:induction false} ReadCellPrinted(c: Cell, follow: seq<byte>)
    requires ValidCell(c) && (c.Leaf? ==> NoDigitFirst(follow))
    ensures ReadCell(PrintBefore(c, follow)) == Some((c, follow))
    decreases c, 1
  {
    hide ValidGeometry, Number32, ReadNumber, ReadGeometry, PrintGeometry, PrintBefore, PrintOthers;
    var body := PrintBody(c, follow);
    assert PrintBefore(c, follow) == PrintGeometry(c.geometry, body) by {
      UnfoldBefore(c, follow);
    }
    ReadGeometryPrinted(c.geometry, body);
    match c {
      case Leaf(g, pane) =>
        assert body == [COMMA] + (pane + follow);
        assert body[1..] == pane + follow;
        ReadNumberPrinted(pane, follow);
      case Split(g, square, first, others) =>
        var after := PrintOthers(others, [Closing(square)] + follow);
        assert body == [Opening(square)] + PrintBefore(first, after);
        assert body[1..] == PrintBefore(first, after);
        OthersStart(others, square, follow);
        ReadCellPrinted(first, after);
        ReadOthersPrinted(others, square, follow);
    }
  }

  lemma UnfoldBefore(c: Cell, follow: seq<byte>)
    ensures PrintBefore(c, follow) == PrintGeometry(c.geometry, PrintBody(c, follow))
  {
  }

  /** What follows a child begins with a comma or a bracket. */
  lemma OthersStart(cs: Cells, square: bool, follow: seq<byte>)
    ensures NoDigitFirst(PrintOthers(cs, [Closing(square)] + follow))
  {
  }

  lemma {:induction false} ReadOthersPrinted(cs: Cells, square: bool, follow: seq<byte>)
    requires ValidCells(cs)
    ensures ReadOthers(PrintOthers(cs, [Closing(square)] + follow), square) == Some((cs, follow))
    decreases cs, 0
  {
    hide ValidCell, ReadCell, PrintBefore;
    var s := PrintOthers(cs, [Closing(square)] + follow);
    match cs {
      case Nil =>
        assert s[1..] == follow;
      case Cons(head, tail) =>
        var after := PrintOthers(tail, [Closing(square)] + follow);
        assert s == [COMMA] + PrintBefore(head, after);
        assert s[1..] == PrintBefore(head, after);
        OthersStart(tail, square, follow);
        ReadCellPrinted(head, after);
        ReadOthersPrinted(tail, square, follow);
    }
  }

  // ----- The checksum -----

  function RotateRight(c: int): int
    requires 0 <= c < U16_SIZE
  {
    c / 2 + (c % 2) * 0x8000
  }

  function Checksum(s: seq<byte>): (c: int)
    ensures 0 <= c < U16_SIZE
  {
    if s == [] then 0 else (RotateRight(Checksum(s[..|s| - 1])) + s[|s| - 1]) % U16_SIZE
  }

  /** The low bit goes to the top, and every other bit one down. */
  lemma RotateMovesBits(c: int)
    requires 0 <= c < U16_SIZE
    ensures RotateRight(c) / 0x8000 == c % 2 && RotateRight(c) % 0x8000 == c / 2
  {
  }

  lemma RotateIsInjective(a: int, b: int)
    requires 0 <= a < U16_SIZE && 0 <= b < U16_SIZE
    ensures 0 <= RotateRight(a) < U16_SIZE
    ensures RotateRight(a) == RotateRight(b) ==> a == b
  {
  }

  /** Adding two numbers below the modulus wraps around at most once, so it forgets neither. */
  lemma WrapIsInjective(a: int, b: int, x: int, y: int)
    requires 0 <= a < U16_SIZE && 0 <= b < U16_SIZE && 0 <= x < 256 && 0 <= y < 256
    ensures a != b && x == y ==> (a + x) % U16_SIZE != (b + y) % U16_SIZE
    ensures a == b && x != y ==> (a + x) % U16_SIZE != (b + y) % U16_SIZE
  {
    assert (a + x) % U16_SIZE == if a + x < U16_SIZE then a + x else a + x - U16_SIZE;
    assert (b + y) % U16_SIZE == if b + y < U16_SIZE then b + y else b + y - U16_SIZE;
  }

  /** Any single changed byte changes the checksum. */
  lemma {:induction false} ChecksumSeesOneByte(s: seq<byte>, i: nat, b: byte)
    requires i < |s| && b != s[i]
    ensures Checksum(s[i := b]) != Checksum(s)
    decreases |s|
  {
    var n := |s| - 1;
    var changed := s[i := b];
    var before, after := Checksum(s[..n]), Checksum(changed[..n]);
    RotateIsInjective(before, after);
    RotateIsInjective(after, before);
    if i < n {
      assert changed[..n] == s[..n][i := b];
      ChecksumSeesOneByte(s[..n], i, b);
    } else {
      assert changed[..n] == s[..n];
    }
    WrapIsInjective(RotateRight(before), RotateRight(after), s[n], changed[n]);
  }

  // ----- The header -----

  const NAMED_LAYOUTS: seq<string> := [
    "even-horizontal",
    "even-vertical",
    "main-horizontal",
    "main-horizontal-mirrored",
    "main-vertical",
    "main-vertical-mirrored",
    "tiled"
  ]

  predicate IsNamed(layout: seq<byte>) {
    exists i | 0 <= i < |NAMED_LAYOUTS| :: layout == Ascii(NAMED_LAYOUTS[i])
  }

  predicate IsHexDigit(b: byte) {
    48 <= b <= 57 || 97 <= b <= 102 || 65 <= b <= 70
  }

  function HexDigitValue(b: byte): (v: int)
    requires IsHexDigit(b)
    ensures 0 <= v < 16
  {
    if b <= 57 then b - 48 else if b <= 70 then b - 55 else b - 87
  }

  predicate HasHeader(layout: seq<byte>) {
    && |layout| >= 6
    && (forall i | 0 <= i < 4 :: IsHexDigit(layout[i]))
    && layout[4] == COMMA
  }

  function HeaderValue(layout: seq<byte>): int
    requires HasHeader(layout)
  {
    0x1000 * HexDigitValue(layout[0]) + 0x100 * HexDigitValue(layout[1])
    + 0x10 * HexDigitValue(layout[2]) + HexDigitValue(layout[3])
  }

  /** The layout is the printed tree behind its checksum. */
  ghost predicate Describes(layout: seq<byte>, c: Cell) {
    HasHeader(layout) && HeaderValue(layout) == Checksum(layout[5..]) && ValidCell(c) && layout[5..] == Print(c)
  }

  /** What a window's layout has to be: a name, or one valid tree with a leaf for every pane. */
  ghost predicate LayoutOk(layout: seq<byte>, panes: nat) {
    IsNamed(layout) || exists c :: Describes(layout, c) && Leaves(c) == panes
  }

  lemma OneDigit(a: byte)
    requires IsDigit(a)
    ensures Number32([a]) && Value([a]) == a - ZERO
  {
    assert [a][..0] == [];
  }

  lemma TwoDigits(a: byte, b: byte)
    requires IsDigit(a) && IsDigit(b)
    ensures Number32([a, b])
  {
    OneDigit(a);
    assert [a, b][..1] == [a];
  }

  /** `b25d,80x24,0,0,0` is one pane with its checksum in front. */
  lemma KnownLayout()
    ensures var layout := [98, 50, 53, 100, 44, 56, 48, 120, 50, 52, 44, 48, 44, 48, 44, 48];
            && HasHeader(layout) && HeaderValue(layout) == Checksum(layout[5..]) == 0xb25d
            && Describes(layout, Leaf(Geometry([56, 48], [50, 52], [48], [48]), [48])) && LayoutOk(layout, 1)
  {
    hide Checksum, Print, ValidCell;
    KnownTree();
    SumNone();
    SumOne([], 56, [56], 0, 56);
    SumOne([56], 48, [56, 48], 56, 76);
    SumOne([56, 48], 120, [56, 48, 120], 76, 158);
    SumOne([56, 48, 120], 50, [56, 48, 120, 50], 158, 129);
    SumOne([56, 48, 120, 50], 52, [56, 48, 120, 50, 52], 129, 32884);
    SumOne([56, 48, 120, 50, 52], 44, [56, 48, 120, 50, 52, 44], 32884, 16486);
    SumOne([56, 48, 120, 50, 52, 44], 48, [56, 48, 120, 50, 52, 44, 48], 16486, 8291);
    SumOne([56, 48, 120, 50, 52, 44, 48], 44, [56, 48, 120, 50, 52, 44, 48, 44], 8291, 36957);
    SumOne([56, 48, 120, 50, 52, 44, 48, 44], 48, [56, 48, 120, 50, 52, 44, 48, 44, 48], 36957, 51294);
    SumOne([56, 48, 120, 50, 52, 44, 48, 44, 48], 44, [56, 48, 120, 50, 52, 44, 48, 44, 48, 44], 51294, 25691);
    SumOne([56, 48, 120, 50, 52, 44, 48, 44, 48, 44], 48, [56, 48, 120, 50, 52, 44, 48, 44, 48, 44, 48], 25691, 45661);
    assert [98, 50, 53, 100, 44, 56, 48, 120, 50, 52, 44, 48, 44, 48, 44, 48][5..]
      == [56, 48, 120, 50, 52, 44, 48, 44, 48, 44, 48];
  }

  lemma KnownTree()
    ensures var c := Leaf(Geometry([56, 48], [50, 52], [48], [48]), [48]);
            ValidCell(c) && Leaves(c) == 1 && Print(c) == [56, 48, 120, 50, 52, 44, 48, 44, 48, 44, 48]
  {
    TwoDigits(56, 48);
    TwoDigits(50, 52);
    OneDigit(48);
  }

  lemma SumNone()
    ensures Checksum([]) == 0
  {
  }

  /** One byte more. */
  lemma SumOne(s: seq<byte>, b: byte, longer: seq<byte>, sum: int, next: int)
    requires longer == s + [b]
    requires Checksum(s) == sum && 0 <= sum < U16_SIZE && next == (RotateRight(sum) + b) % U16_SIZE
    ensures Checksum(longer) == next
  {
    assert longer[..|s|] == s;
  }

  /** No text is two trees. */
  lemma OneTree(a: Cell, b: Cell)
    requires ValidCell(a) && ValidCell(b) && Print(a) == Print(b)
    ensures a == b
  {
    ReadCellPrinted(a, []);
    ReadCellPrinted(b, []);
  }

  /** The whole text is one valid tree exactly when the parser reads all of it. */
  lemma ParserIsExact(text: seq<byte>, c: Cell)
    ensures ValidCell(c) && text == Print(c) <==> ReadCell(text) == Some((c, []))
  {
    if ValidCell(c) && text == Print(c) {
      ReadCellPrinted(c, []);
    }
    if ReadCell(text) == Some((c, [])) {
      ReadCellFound(text);
    }
  }

  /** A layout with one byte of its tree changed is refused, or happens to be a name. */
  lemma CorruptionIsRefused(layout: seq<byte>, panes: nat, i: nat, b: byte, others: nat)
    requires LayoutOk(layout, panes) && !IsNamed(layout) && 5 <= i < |layout| && b != layout[i]
    ensures LayoutOk(layout[i := b], others) ==> IsNamed(layout[i := b])
  {
    var corrupt := layout[i := b];
    assert corrupt[5..] == layout[5..][i - 5 := b];
    ChecksumSeesOneByte(layout[5..], i - 5, b);
    assert HasHeader(corrupt) && HeaderValue(corrupt) == HeaderValue(layout);
    forall c ensures !Describes(corrupt, c) {
    }
  }

  // ----- What tmux prints -----

  function HexDigit(v: int): byte
    requires 0 <= v < 16
  {
    if v < 10 then 48 + v else 87 + v
  }

  function Render(c: Cell): seq<byte> {
    var sum := Checksum(Print(c));
    [HexDigit(sum / 0x1000), HexDigit(sum / 0x100 % 0x10), HexDigit(sum / 0x10 % 0x10), HexDigit(sum % 0x10), COMMA]
      + Print(c)
  }

  lemma HexSplit(sum: int)
    requires 0 <= sum < U16_SIZE
    ensures 0 <= sum / 0x1000 < 16
    ensures 0x1000 * (sum / 0x1000) + 0x100 * (sum / 0x100 % 0x10) + 0x10 * (sum / 0x10 % 0x10) + sum % 0x10 == sum
  {
  }

  lemma HexDigitBack(v: int)
    requires 0 <= v < 16
    ensures IsHexDigit(HexDigit(v)) && HexDigitValue(HexDigit(v)) == v
  {
  }

  /** Any valid tree, printed with its checksum, is accepted for its number of leaves. */
  lemma RenderedIsOk(c: Cell)
    requires ValidCell(c)
    ensures Describes(Render(c), c) && LayoutOk(Render(c), Leaves(c))
  {
    var sum := Checksum(Print(c));
    HexSplit(sum);
    HexDigitBack(sum / 0x1000);
    HexDigitBack(sum / 0x100 % 0x10);
    HexDigitBack(sum / 0x10 % 0x10);
    HexDigitBack(sum % 0x10);
    assert Render(c)[5..] == Print(c);
    PrintNotEmpty(c);
  }

  lemma PrintNotEmpty(c: Cell)
    requires ValidCell(c)
    ensures Print(c) != []
  {
    ReadCellPrinted(c, []);
  }

  // ----- The parser -----

  datatype LayoutError =
    | NotALayout
    | ChecksumMismatch
    | MissingNumber
    | NumberTooBig
    | UnexpectedByte
    | Unterminated
    | TooFewChildren
    | TrailingData
    | WrongPaneCount

  method ComputeChecksum(s: seq<byte>) returns (sum: int)
    ensures sum == Checksum(s)
  {
    sum := 0;
    for i := 0 to |s|
      invariant sum == Checksum(s[..i])
    {
      assert s[..i + 1][..i] == s[..i];
      sum := (RotateRight(sum) + s[i]) % U16_SIZE;
    }
    assert s[..|s|] == s;
  }

  class LayoutParser {
    const input: seq<byte>
    var position: nat

    constructor (input: seq<byte>, position: nat)
      requires position <= |input|
      ensures Valid() && this.input == input && this.position == position
    {
      this.input, this.position := input, position;
    }

    ghost predicate Valid()
      reads this
    {
      position <= |input|
    }

    ghost function Rest(): seq<byte>
      reads this
      requires Valid()
    {
      input[position..]
    }

    function Peek(): Option<byte>
      reads this
    {
      if position < |input| then Some(input[position]) else None
    }

    method Number() returns (r: Result<seq<byte>, LayoutError>)
      requires Valid()
      modifies this`position
      ensures Valid() && position >= old(position)
      ensures match ReadNumber(old(Rest()))
              case Some((number, rest)) => r == Ok(number) && Rest() == rest
              case None => r.Err?
    {
      var start := position;
      ghost var s := input[start..];
      while position < |input| && IsDigit(input[position])
        invariant start <= position <= |input|
        invariant DigitCount(s) == position - start + DigitCount(input[position..])
        decreases |input| - position
      {
        assert input[position..][1..] == input[position + 1..];
        position := position + 1;
      }
      if position == start {
        return Err(MissingNumber);
      }
      assert s[..position - start] == input[start..position] && s[position - start..] == input[position..];
      if Value(input[start..position]) >= U32_SIZE {
        return Err(NumberTooBig);
      }
      return Ok(input[start..position]);
    }

    method Byte(expected: byte) returns (r: Outcome<LayoutError>)
      requires Valid()
      modifies this`position
      ensures Valid() && position >= old(position)
      ensures match Expect(old(Rest()), expected)
              case Some(rest) => r == Pass && Rest() == rest
              case None => r.Fail?
    {
      if Peek() != Some(expected) {
        return Fail(UnexpectedByte);
      }
      assert input[position..][1..] == input[position + 1..];
      position := position + 1;
      return Pass;
    }

    method FourNumbers() returns (r: Outcome<LayoutError>)
      requires Valid()
      modifies this`position
      ensures Valid() && position >= old(position)
      ensures match ReadGeometry(old(Rest()))
              case Some((_, rest)) => r == Pass && Rest() == rest
              case None => r.Fail?
    {
      hide ReadNumber;
      var width := Number();
      if width.Err? {
        return Fail(width.error);
      }
      r := Byte(TIMES);
      if r.Fail? {
        return;
      }
      var height := Number();
      if height.Err? {
        return Fail(height.error);
      }
      r := Byte(COMMA);
      if r.Fail? {
        return;
      }
      var x := Number();
      if x.Err? {
        return Fail(x.error);
      }
      r := Byte(COMMA);
      if r.Fail? {
        return;
      }
      var y := Number();
      if y.Err? {
        return Fail(y.error);
      }
      return Pass;
    }

    /** Reads one cell and counts its panes. */
    method ParseCell() returns (r: Result<nat, LayoutError>)
      requires Valid()
      modifies this`position
      ensures Valid() && position >= old(position)
      ensures match ReadCell(old(Rest()))
              case Some((c, rest)) => r == Ok(Leaves(c)) && Rest() == rest
              case None => r.Err?
      decreases |input| - position, 1
    {
      hide ReadGeometry, ReadNumber;
      ghost var start := Rest();
      var geometry := FourNumbers();
      if geometry.Fail? {
        return Err(geometry.error);
      }
      ghost var rest := Rest();
      assert |rest| < |start|;
      var next := Peek();
      if next.None? {
        return Err(Unterminated);
      }
      assert rest[0] == next.value && rest[1..] == input[position + 1..];
      if next.value == COMMA {
        position := position + 1;
        var pane := Number();
        if pane.Err? {
          return Err(pane.error);
        }
        return Ok(1);
      }
      if next.value == Opening(true) || next.value == Opening(false) {
        position := position + 1;
        r := Children(next.value == Opening(true));
        return;
      }
      return Err(UnexpectedByte);
    }

    /** Reads the children of a container and its bracket. */
    method Children(square: bool) returns (r: Result<nat, LayoutError>)
      requires Valid()
      modifies this`position
      ensures Valid() && position >= old(position)
      ensures match ReadCell(old(Rest()))
              case None => r.Err?
              case Some((first, rest)) => (
                match ReadOthers(rest, square)
                case None => r.Err?
                case Some((others, after)) =>
                  if others.Nil? then r.Err? else r == Ok(Leaves(first) + LeavesOf(others)) && Rest() == after)
      decreases |input| - position, 2
    {
      hide ReadCell;
      ghost var start := position;
      var first := ParseCell();
      if first.Err? {
        return first;
      }
      var panes := first.value;
      var children := 1;
      ghost var rest := Rest();
      while true
        invariant Valid() && position > start && children >= 1
        invariant ReadOthers(rest, square).None? <==> ReadOthers(Rest(), square).None?
        invariant ReadOthers(rest, square).Some? ==>
                    var (all, after), (more, end) := ReadOthers(rest, square).value, ReadOthers(Rest(), square).value;
                    && after == end && first.value + LeavesOf(all) == panes + LeavesOf(more)
                    && (all.Nil? <==> children == 1 && more.Nil?)
        decreases |input| - position
      {
        var next := Peek();
        if next.None? {
          return Err(Unterminated);
        }
        ghost var here := Rest();
        assert here[0] == next.value && here[1..] == input[position + 1..];
        if next.value == Closing(square) {
          position := position + 1;
          if children < 2 {
            return Err(TooFewChildren);
          }
          return Ok(panes);
        }
        if next.value == COMMA {
          position := position + 1;
          var child := ParseCell();
          if child.Err? {
            return child;
          }
          panes := panes + child.value;
          children := children + 1;
        } else {
          return Err(UnexpectedByte);
        }
      }
    }
  }

  /** Accepts exactly the names, and the checksummed trees with the expected number of panes. */
  method ValidateLayout(layout: seq<byte>, expectedPanes: nat) returns (r: Outcome<LayoutError>)
    ensures r.Pass? <==> LayoutOk(layout, expectedPanes)
  {
    hide ValidCell, ReadCell;
    if IsNamed(layout) {
      return Pass;
    }
    if !HasHeader(layout) {
      return Fail(NotALayout);
    }
    var actual := ComputeChecksum(layout[5..]);
    if actual != HeaderValue(layout) {
      return Fail(ChecksumMismatch);
    }
    forall c {
      ParserIsExact(layout[5..], c);
    }
    var parser := new LayoutParser(layout, 5);
    var panes := parser.ParseCell();
    if panes.Err? {
      return Fail(panes.error);
    }
    if parser.position != |layout| {
      return Fail(TrailingData);
    }
    ghost var c := ReadCell(layout[5..]).value.0;
    assert ReadCell(layout[5..]) == Some((c, []));
    if panes.value != expectedPanes {
      return Fail(WrongPaneCount);
    }
    assert Describes(layout, c);
    return Pass;
  }
}
