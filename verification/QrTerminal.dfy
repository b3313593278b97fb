/**
 The terminal renderings of an invite's QR code (waserver/src/invites.rs) and the reader
 that walks a rendered line cell by cell.
 */
module QrTerminal {
  import opened Prelude

  const QUIET: nat := 4

  /** A square code's modules, row by row; `true` is dark. */
  datatype Code = Code(width: nat, modules: seq<bool>)

  predicate WellFormed(code: Code) {
    |code.modules| == code.width * code.width
  }

  function Size(code: Code): nat { code.width + 2 * QUIET }

  lemma ModuleInRange(width: nat, x: nat, y: nat)
    requires x < width && y < width
    ensures y * width + x < width * width
  {
    assert y * width <= (width - 1) * width;
  }

  /** The module shown in column `x` of row `y`, counted with the margin; outside the code all is light. */
  predicate Dark(code: Code, x: nat, y: nat)
    requires WellFormed(code)
  {
    if x < QUIET || y < QUIET || x >= QUIET + code.width || y >= QUIET + code.width then false
    else
      ModuleInRange(code.width, x - QUIET, y - QUIET);
      code.modules[(y - QUIET) * code.width + (x - QUIET)]
  }

  //-- Cells, and how a run of them is written -----------------------------------------

  /** One character cell: is its background black, and the glyph on it. */
  datatype Cell = Cell(black: bool, glyph: char)

  const ESCAPE: char := '\U{001b}'
  const UPPER_HALF: char := '\U{2580}'
  const LOWER_HALF: char := '\U{2584}'

  function Escape(code: string): string { [ESCAPE, '['] + code + "m" }

  function Background(black: bool): string {
    Escape(if black then "48;5;16" else "48;5;231")
  }

  function Switch(from: Option<bool>, to: bool): string {
    if from == Some(to) then [] else Background(to)
  }

  /** The text of cells after a cell of background `bg`, with an escape where it changes. */
  function CellText(cells: seq<Cell>, bg: Option<bool>): string {
    if cells == [] then []
    else Switch(bg, cells[0].black) + [cells[0].glyph] + CellText(cells[1..], Some(cells[0].black))
  }

  function LastBackground(cells: seq<Cell>, bg: Option<bool>): Option<bool> {
    if cells == [] then bg else Some(cells[|cells| - 1].black)
  }

  lemma {:induction false} CellTextPush(cells: seq<Cell>, c: Cell, bg: Option<bool>)
    ensures CellText(cells + [c], bg) == CellText(cells, bg) + (Switch(LastBackground(cells, bg), c.black) + [c.glyph])
    decreases |cells|
  {
    hide Switch;
    if cells == [] {
      assert [c][1..] == [];
      assert cells + [c] == [c];
    } else {
      assert (cells + [c])[1..] == cells[1..] + [c];
      CellTextPush(cells[1..], c, Some(cells[0].black));
    }
  }

  //-- The reader ------------------------------------------------------------------------

  /** The cells of a rendered line, `None` where an escape is not one the renderers emit. */
  function EachCell(line: string, black: bool): (r: Option<seq<Cell>>)
    decreases |line|
  {
    if line == [] then Some([])
    else if |line| >= 2 && line[0] == ESCAPE && line[1] == '[' then
      var after := line[2..];
      var end := Until(after, "m");
      if end == |after| then None
      else
        var code, rest := after[..end], after[end + 1..];
        if code == "38;5;16" || code == "0" then EachCell(rest, black)
        else if code == "48;5;16" then EachCell(rest, true)
        else if code == "48;5;231" then EachCell(rest, false)
        else None
    else
      match EachCell(line[1..], black)
      case None => None
      case Some(cells) => Some([Cell(black, line[0])] + cells)
  }

  lemma EscapeSplits(code: string, rest: string)
    requires 'm' !in code
    ensures var line := Escape(code) + rest;
            var after := line[2..];
            && |line| >= 2 && line[0] == ESCAPE && line[1] == '['
            && Until(after, "m") == |code| < |after|
            && after[..|code|] == code && after[|code| + 1..] == rest
  {
    var line := Escape(code) + rest;
    assert line[2..] == code + "m" + rest;
    UntilIs(line[2..], "m", |code|);
  }

  lemma EscapeReads(rest: string, black: bool)
    ensures EachCell(Escape("38;5;16") + rest, black) == EachCell(rest, black)
    ensures EachCell(Escape("0") + rest, black) == EachCell(rest, black)
    ensures forall to :: EachCell(Background(to) + rest, black) == EachCell(rest, to)
  {
    hide Escape;
    EscapeSplits("38;5;16", rest);
    EscapeSplits("0", rest);
    EscapeSplits("48;5;16", rest);
    EscapeSplits("48;5;231", rest);
  }

  lemma Regroup(a: string, b: string, c: string, d: string)
    ensures a + b + c + d == a + (b + (c + d))
  {
  }

  lemma SwitchReads(from: Option<bool>, to: bool, rest: string, black: bool)
    requires from.Some? ==> from.value == black
    ensures EachCell(Switch(from, to) + rest, black) == EachCell(rest, to)
  {
    hide EachCell, Background;
    EscapeReads(rest, black);
    if from == Some(to) {
      assert Switch(from, to) + rest == rest;
    }
  }

  lemma {:induction false} CellTextReads(cells: seq<Cell>, bg: Option<bool>, black: bool, tail: string)
    requires forall i :: 0 <= i < |cells| ==> cells[i].glyph != ESCAPE
    requires bg.Some? ==> bg.value == black
    requires forall b :: EachCell(tail, b) == Some([])
    ensures EachCell(CellText(cells, bg) + tail, black) == Some(cells)
    decreases |cells|
  {
    if cells == [] {
      assert CellText(cells, bg) + tail == tail;
    } else {
      hide Switch, EachCell;
      var c := cells[0];
      var rest := CellText(cells[1..], Some(c.black)) + tail;
      CellTextReads(cells[1..], Some(c.black), c.black, tail);
      SwitchReads(bg, c.black, [c.glyph] + rest, black);
      Regroup(Switch(bg, c.black), [c.glyph], CellText(cells[1..], Some(c.black)), tail);
      GlyphReads(c, rest);
      assert [c] + cells[1..] == cells;
    }
  }

  lemma GlyphReads(c: Cell, rest: string)
    requires c.glyph != ESCAPE && EachCell(rest, c.black).Some?
    ensures EachCell([c.glyph] + rest, c.black) == Some([c] + EachCell(rest, c.black).value)
  {
    assert ([c.glyph] + rest)[1..] == rest;
  }

  lemma ResetReads()
    ensures forall b :: EachCell(Escape("0"), b) == Some([])
  {
    forall b: bool ensures EachCell(Escape("0"), b) == Some([]) {
      EscapeReads([], b);
      assert Escape("0") + [] == Escape("0");
    }
  }

  //-- Lines -----------------------------------------------------------------------------

  function Join(lines: seq<string>): string {
    if lines == [] then [] else lines[0] + "\n" + Join(lines[1..])
  }

  /** `str::lines`. */
  function Lines(text: string): seq<string> {
    var pieces := Split(text, '\n');
    if pieces[|pieces| - 1] == [] then pieces[..|pieces| - 1] else pieces
  }

  lemma {:induction false} LinesOfJoin(lines: seq<string>)
    requires forall i :: 0 <= i < |lines| ==> '\n' !in lines[i]
    ensures Lines(Join(lines)) == lines
  {
    hide Split;
    SplitOfJoin(lines);
  }

  lemma {:induction false} SplitOfJoin(lines: seq<string>)
    requires forall i :: 0 <= i < |lines| ==> '\n' !in lines[i]
    ensures Split(Join(lines), '\n') == lines + [[]]
  {
    if lines != [] {
      hide Split;
      SplitOfJoin(lines[1..]);
      SplitFirst(lines[0], Join(lines[1..]), '\n');
      assert lines + [[]] == [lines[0]] + (lines[1..] + [[]]);
    }
  }

  lemma {:induction false} JoinPush(lines: seq<string>, line: string)
    ensures Join(lines + [line]) == Join(lines) + line + "\n"
  {
    if lines == [] {
      assert [line][1..] == [] && lines + [line] == [line];
    } else {
      assert (lines + [line])[1..] == lines[1..] + [line];
      JoinPush(lines[1..], line);
    }
  }

  //-- The small format: two module rows per line ----------------------------------------

  function HalfCell(top: bool, bottom: bool): (c: Cell)
    ensures c.glyph != ESCAPE && c.glyph != '\n'
  {
    if top && bottom then Cell(true, ' ')
    else if !top && !bottom then Cell(false, ' ')
    else if top then Cell(false, UPPER_HALF)
    else Cell(false, LOWER_HALF)
  }

  /** The two modules a cell shows. */
  function ModulesShown(c: Cell): Option<(bool, bool)> {
    if c.glyph == ' ' then Some((c.black, c.black))
    else if c.glyph == UPPER_HALF then Some((true, false))
    else if c.glyph == LOWER_HALF then Some((false, true))
    else None
  }

  function HalfRow(code: Code, y: nat): (r: seq<Cell>)
    requires WellFormed(code)
    ensures |r| == Size(code)
    ensures forall x :: 0 <= x < |r| ==> r[x] == HalfCell(Dark(code, x, y), Dark(code, x, y + 1))
  {
    seq(Size(code), x requires 0 <= x < Size(code) => HalfCell(Dark(code, x, y), Dark(code, x, y + 1)))
  }

  function HalfLine(code: Code, y: nat): string
    requires WellFormed(code)
  {
    Escape("38;5;16") + CellText(HalfRow(code, y), None) + Escape("0")
  }

  function HalfLines(code: Code, n: nat): (r: seq<string>)
    requires WellFormed(code)
    ensures |r| == n
    ensures forall i :: 0 <= i < n ==> r[i] == HalfLine(code, 2 * i)
  {
    seq(n, i requires 0 <= i < n => HalfLine(code, 2 * i))
  }

  method RenderHalfBlocks(code: Code) returns (out: string)
    requires WellFormed(code)
    ensures out == Join(HalfLines(code, (Size(code) + 1) / 2))
  {
    hide Dark, Escape, CellText;
    out := "";
    var y := 0;
    while y < Size(code)
      invariant y % 2 == 0 && y <= Size(code) + 1
      invariant out == Join(HalfLines(code, y / 2))
    {
      var line := RenderHalfLine(code, y);
      out := out + line + "\n";
      JoinPush(HalfLines(code, y / 2), line);
      assert HalfLines(code, y / 2) + [line] == HalfLines(code, y / 2 + 1);
      y := y + 2;
    }
  }

  method PushCell(text: string, cell: Cell, bg: Option<bool>) returns (out: string)
    ensures out == text + (Switch(bg, cell.black) + [cell.glyph])
  {
    out := text;
    if bg != Some(cell.black) {
      out := out + Background(cell.black);
    }
    out := out + [cell.glyph];
  }

  lemma CellTextGrows(cells: seq<Cell>, x: nat)
    requires x < |cells|
    ensures CellText(cells[..x + 1], None) ==
            CellText(cells[..x], None) + (Switch(LastBackground(cells[..x], None), cells[x].black) + [cells[x].glyph])
    ensures LastBackground(cells[..x + 1], None) == Some(cells[x].black)
  {
    hide CellText, Switch;
    CellTextPush(cells[..x], cells[x], None);
    assert cells[..x] + [cells[x]] == cells[..x + 1];
  }

  method RenderHalfLine(code: Code, y: nat) returns (out: string)
    requires WellFormed(code)
    ensures out == HalfLine(code, y)
  {
    var text := "";
    var bg: Option<bool> := None;
    ghost var cells := HalfRow(code, y);
    assert text == CellText(cells[..0], None);
    hide Dark, Escape, CellText, Switch, HalfCell;
    for x := 0 to Size(code)
      invariant bg == LastBackground(cells[..x], None)
      invariant text == CellText(cells[..x], None)
    {
      var cell := HalfCell(Dark(code, x, y), Dark(code, x, y + 1));
      CellTextGrows(cells, x);
      text := PushCell(text, cell, bg);
      bg := Some(cell.black);
    }
    assert cells[..Size(code)] == cells;
    out := Escape("38;5;16") + text + Escape("0");
  }

  lemma {:induction false} NoNewlineInCells(cells: seq<Cell>, bg: Option<bool>)
    requires forall i :: 0 <= i < |cells| ==> cells[i].glyph != '\n'
    ensures '\n' !in CellText(cells, bg)
    decreases |cells|
  {
    if cells != [] {
      NoNewlineInCells(cells[1..], Some(cells[0].black));
    }
  }

  /** Reading the small format back gives every module with the quiet zone around them. */
  lemma HalfBlocksRoundTrip(code: Code)
    requires WellFormed(code)
    ensures var lines := Lines(Join(HalfLines(code, (Size(code) + 1) / 2)));
            && |lines| == (Size(code) + 1) / 2
            && forall row :: 0 <= row < |lines| ==>
                 && EachCell(lines[row], false).Some?
                 && var cells := EachCell(lines[row], false).value;
                    && |cells| == Size(code)
                    && forall x :: 0 <= x < |cells| ==>
                         && ModulesShown(cells[x]) == Some((Dark(code, x, 2 * row), Dark(code, x, 2 * row + 1)))
                         && (cells[x].black ==> cells[x].glyph == ' ')
  {
    hide EachCell, Dark, CellText, Escape, Lines;
    var lines := HalfLines(code, (Size(code) + 1) / 2);
    forall row | 0 <= row < |lines|
      ensures '\n' !in lines[row] && EachCell(lines[row], false) == Some(HalfRow(code, 2 * row))
    {
      HalfLineReads(code, 2 * row);
    }
    LinesOfJoin(lines);
  }

  lemma HalfLineReads(code: Code, y: nat)
    requires WellFormed(code)
    ensures '\n' !in HalfLine(code, y)
    ensures EachCell(HalfLine(code, y), false) == Some(HalfRow(code, y))
  {
    var cells := HalfRow(code, y);
    assert '\n' !in Escape("38;5;16") && '\n' !in Escape("0");
    hide Dark, HalfCell, EachCell, Escape, CellText;
    NoNewlineInCells(cells, None);
    ResetReads();
    CellTextReads(cells, None, false, Escape("0"));
    EscapeReads(CellText(cells, None) + Escape("0"), false);
    assert HalfLine(code, y) == Escape("38;5;16") + (CellText(cells, None) + Escape("0"));
  }

  //-- The compatible format: whole cells only -------------------------------------------

  function Spaces(n: nat): (r: string)
    ensures |r| == n
  {
    seq(n, _ => ' ')
  }

  function Painted(n: nat, black: bool): (r: seq<Cell>)
    ensures |r| == n
    ensures forall k :: 0 <= k < n ==> r[k] == Cell(black, ' ')
  {
    seq(n, _ => Cell(black, ' '))
  }

  function ModuleText(row: seq<bool>, n: nat, bg: Option<bool>): string {
    if row == [] then []
    else Switch(bg, row[0]) + Spaces(n) + ModuleText(row[1..], n, Some(row[0]))
  }

  function ModuleCells(row: seq<bool>, n: nat): (r: seq<Cell>) {
    if row == [] then [] else Painted(n, row[0]) + ModuleCells(row[1..], n)
  }

  lemma {:induction false} ModuleCellsLength(row: seq<bool>, n: nat)
    ensures |ModuleCells(row, n)| == |row| * n
  {
    if row != [] {
      ModuleCellsLength(row[1..], n);
      assert |row| * n == n + (|row| - 1) * n;
    }
  }

  /** Module x takes the cells from x * n to (x + 1) * n. */
  lemma {:induction false} ModuleCellsAt(row: seq<bool>, n: nat, x: nat)
    requires x < |row|
    ensures 0 <= x * n <= (x + 1) * n <= |ModuleCells(row, n)|
    ensures ModuleCells(row, n)[x * n..(x + 1) * n] == Painted(n, row[x])
  {
    hide Painted;
    var cells, rest := ModuleCells(row, n), ModuleCells(row[1..], n);
    if x == 0 {
      assert x * n == 0 && (x + 1) * n == n;
    } else {
      ModuleCellsAt(row[1..], n, x - 1);
      assert (x - 1) * n + n == x * n && x * n + n == (x + 1) * n;
      assert cells[x * n..(x + 1) * n] == rest[x * n - n..x * n];
    }
  }

  lemma {:induction false} SpacesRead(n: nat, rest: string, black: bool)
    requires EachCell(rest, black).Some?
    ensures EachCell(Spaces(n) + rest, black) == Some(Painted(n, black) + EachCell(rest, black).value)
    decreases n
  {
    hide EachCell;
    if n == 0 {
      assert Spaces(0) + rest == rest;
      assert Painted(0, black) + EachCell(rest, black).value == EachCell(rest, black).value;
    } else {
      SpacesRead(n - 1, rest, black);
      assert Spaces(n) + rest == [' '] + (Spaces(n - 1) + rest);
      GlyphReads(Cell(black, ' '), Spaces(n - 1) + rest);
      var v := EachCell(rest, black).value;
      assert Painted(n, black) + v == [Cell(black, ' ')] + (Painted(n - 1, black) + v);
    }
  }

  lemma {:induction false} ModuleTextReads(row: seq<bool>, n: nat, bg: Option<bool>, black: bool, tail: string)
    requires bg.Some? ==> bg.value == black
    requires forall b :: EachCell(tail, b) == Some([])
    ensures EachCell(ModuleText(row, n, bg) + tail, black) == Some(ModuleCells(row, n))
    decreases |row|
  {
    hide EachCell, Switch, Spaces, Painted;
    if row == [] {
      assert ModuleText(row, n, bg) + tail == tail;
    } else {
      var rest := ModuleText(row[1..], n, Some(row[0])) + tail;
      ModuleTextReads(row[1..], n, Some(row[0]), row[0], tail);
      SpacesRead(n, rest, row[0]);
      SwitchReads(bg, row[0], Spaces(n) + rest, black);
      Regroup(Switch(bg, row[0]), Spaces(n), ModuleText(row[1..], n, Some(row[0])), tail);
    }
  }

  function DarkRow(code: Code, y: nat): (r: seq<bool>)
    requires WellFormed(code)
    ensures |r| == Size(code)
    ensures forall x :: 0 <= x < |r| ==> r[x] == Dark(code, x, y)
  {
    seq(Size(code), x requires 0 <= x < Size(code) => Dark(code, x, y))
  }

  function CellLine(code: Code, n: nat, y: nat): string
    requires WellFormed(code)
  {
    ModuleText(DarkRow(code, y), n, None) + Escape("0")
  }

  function CellLines(code: Code, n: nat, k: nat): (r: seq<string>)
    requires WellFormed(code)
    ensures |r| == k
    ensures forall i :: 0 <= i < k ==> r[i] == CellLine(code, n, i)
  {
    seq(k, i requires 0 <= i < k => CellLine(code, n, i))
  }

  lemma {:induction false} ModuleTextPush(row: seq<bool>, m: bool, n: nat, bg: Option<bool>)
    ensures ModuleText(row + [m], n, bg) ==
            ModuleText(row, n, bg) + Switch(if row == [] then bg else Some(row[|row| - 1]), m) + Spaces(n)
    decreases |row|
  {
    hide Switch, Spaces;
    if row == [] {
      assert [m][1..] == [] && row + [m] == [m];
    } else {
      assert (row + [m])[1..] == row[1..] + [m];
      ModuleTextPush(row[1..], m, n, Some(row[0]));
      var last := Switch(Some(row[|row| - 1]), m);
      Regroup(Switch(bg, row[0]) + Spaces(n), ModuleText(row[1..], n, Some(row[0])), last, Spaces(n));
      Regroup(Switch(bg, row[0]) + Spaces(n), ModuleText(row[1..], n, Some(row[0])) + last, Spaces(n), []);
    }
  }

  method RenderCells(code: Code, n: nat) returns (out: string)
    requires WellFormed(code)
    ensures out == Join(CellLines(code, n, Size(code)))
  {
    hide Dark, Escape, ModuleText;
    out := "";
    for y := 0 to Size(code)
      invariant out == Join(CellLines(code, n, y))
    {
      var line := RenderCellLine(code, n, y);
      out := out + line + "\n";
      JoinPush(CellLines(code, n, y), line);
      assert CellLines(code, n, y) + [line] == CellLines(code, n, y + 1);
    }
  }

  lemma ModuleTextGrows(row: seq<bool>, n: nat, x: nat)
    requires x < |row|
    ensures ModuleText(row[..x + 1], n, None) ==
            ModuleText(row[..x], n, None) + Switch(if x == 0 then None else Some(row[x - 1]), row[x]) + Spaces(n)
  {
    hide ModuleText, Switch, Spaces;
    ModuleTextPush(row[..x], row[x], n, None);
    assert row[..x] + [row[x]] == row[..x + 1];
  }

  method RenderCellLine(code: Code, n: nat, y: nat) returns (out: string)
    requires WellFormed(code)
    ensures out == CellLine(code, n, y)
  {
    var text := "";
    var bg: Option<bool> := None;
    ghost var row := DarkRow(code, y);
    assert text == ModuleText(row[..0], n, None);
    hide Dark, ModuleText, Background, Spaces;
    for x := 0 to Size(code)
      invariant bg == if x == 0 then None else Some(row[x - 1])
      invariant text == ModuleText(row[..x], n, None)
    {
      var black := Dark(code, x, y);
      ModuleTextGrows(row, n, x);
      assert Switch(bg, black) == if bg != Some(black) then Background(black) else "";
      if bg != Some(black) {
        text := text + Background(black);
        bg := Some(black);
      }
      text := text + Spaces(n);
    }
    assert row[..Size(code)] == row;
    out := text + Escape("0");
  }

  lemma {:induction false} NoNewlineInModules(row: seq<bool>, n: nat, bg: Option<bool>)
    ensures '\n' !in ModuleText(row, n, bg)
    decreases |row|
  {
    if row != [] {
      NoNewlineInModules(row[1..], n, Some(row[0]));
    }
  }

  lemma CellLineReads(code: Code, n: nat, y: nat)
    requires WellFormed(code)
    ensures '\n' !in CellLine(code, n, y)
    ensures EachCell(CellLine(code, n, y), false) == Some(ModuleCells(DarkRow(code, y), n))
  {
    assert '\n' !in Escape("0");
    hide Dark, EachCell, Escape, ModuleText;
    NoNewlineInModules(DarkRow(code, y), n, None);
    ResetReads();
    ModuleTextReads(DarkRow(code, y), n, None, false, Escape("0"));
  }

  /** Reading the compatible format back gives every module as `n` cells of its colour. */
  lemma CellsRoundTrip(code: Code, n: nat, x: nat, y: nat)
    requires WellFormed(code) && x < Size(code) && y < Size(code)
    ensures var lines := Lines(Join(CellLines(code, n, Size(code))));
            && |lines| == Size(code)
            && EachCell(lines[y], false).Some?
            && var cells := EachCell(lines[y], false).value;
               && |cells| == Size(code) * n && 0 <= x * n <= (x + 1) * n <= |cells|
               && cells[x * n..(x + 1) * n] == Painted(n, Dark(code, x, y))
  {
    hide EachCell, Dark, Escape, Lines, ModuleCells, ModuleText, Size;
    var lines := CellLines(code, n, Size(code));
    forall i | 0 <= i < |lines| ensures '\n' !in lines[i] {
      CellLineReads(code, n, i);
    }
    LinesOfJoin(lines);
    CellLineReads(code, n, y);
    ModuleCellsLength(DarkRow(code, y), n);
    ModuleCellsAt(DarkRow(code, y), n, x);
  }

  //-- What a reader sees, in terms of the code's modules alone ---------------------------------

  /** The module a reader of half-block lines finds at column `x` of module row `y`. */
  function HalfModule(lines: seq<string>, x: nat, y: nat): Option<bool>
    requires y / 2 < |lines|
  {
    match EachCell(lines[y / 2], false)
    case None => None
    case Some(cells) =>
      if x >= |cells| then None
      else
        match ModulesShown(cells[x])
        case None => None
        case Some((top, bottom)) => Some(if y % 2 == 0 then top else bottom)
  }

  /** The module a reader of lines of `n` whole cells a module finds: all `n` cells have its colour. */
  function WholeModule(lines: seq<string>, n: nat, x: nat, y: nat): Option<bool>
    requires y < |lines|
  {
    match EachCell(lines[y], false)
    case None => None
    case Some(cells) =>
      if !(0 <= x * n < (x + 1) * n <= |cells|) then None
      else if forall k :: x * n <= k < (x + 1) * n ==> cells[k] == Cell(true, ' ') then Some(true)
      else if forall k :: x * n <= k < (x + 1) * n ==> cells[k] == Cell(false, ' ') then Some(false)
      else None
  }

  lemma DarkIsTheModule(code: Code, x: nat, y: nat)
    requires WellFormed(code) && x < code.width && y < code.width
    ensures y * code.width + x < |code.modules|
    ensures Dark(code, x + 4, y + 4) == code.modules[y * code.width + x]
  {
    ModuleInRange(code.width, x, y);
  }

  lemma MarginIsLight(code: Code, x: nat, y: nat)
    requires WellFormed(code) && (x < 4 || y < 4 || x >= code.width + 4 || y >= code.width + 4)
    ensures !Dark(code, x, y)
  {
  }

  /** The module of a read line, or of one of the two rows a half-block line shows. */
  lemma HalfModuleIsDark(code: Code, x: nat, y: nat)
    requires WellFormed(code) && x < code.width + 8 && y < 2 * ((code.width + 9) / 2)
    ensures var lines := HalfBlocks(code);
            && |lines| == (code.width + 9) / 2 && y / 2 < |lines|
            && ReadsAs(lines[y / 2], code.width + 8)
            && HalfModule(lines, x, y) == Some(Dark(code, x, y))
  {
    hide Dark, EachCell, Lines, Join, HalfLines, ModulesShown, WellFormed;
    HalfBlocksRoundTrip(code);
    assert y == 2 * (y / 2) + y % 2;
  }

  /** What a reader is given: the lines of the half-block rendering. */
  function HalfBlocks(code: Code): seq<string>
    requires WellFormed(code)
  {
    Lines(Join(HalfLines(code, (Size(code) + 1) / 2)))
  }

  /** The lines of the rendering in whole cells, `n` a module. */
  function WholeCells(code: Code, n: nat): seq<string>
    requires WellFormed(code)
  {
    Lines(Join(CellLines(code, n, Size(code))))
  }

  predicate ReadsAs(line: string, cells: nat) {
    EachCell(line, false).Some? && |EachCell(line, false).value| == cells
  }

  /** The code's own module from column 4 and row 4 on, light everywhere else. */
  ghost predicate IsShown(code: Code, x: nat, y: nat, shown: Option<bool>)
    requires WellFormed(code)
  {
    if 4 <= x < code.width + 4 && 4 <= y < code.width + 4 then
      DarkIsTheModule(code, x - 4, y - 4);
      shown == Some(code.modules[(y - 4) * code.width + (x - 4)])
    else shown == Some(false)
  }

  lemma DarkIsShown(code: Code, x: nat, y: nat)
    requires WellFormed(code)
    ensures IsShown(code, x, y, Some(Dark(code, x, y)))
  {
    if 4 <= x < code.width + 4 && 4 <= y < code.width + 4 {
      DarkIsTheModule(code, x - 4, y - 4);
    } else {
      MarginIsLight(code, x, y);
    }
  }

  /**
   Read back, the half-block lines are `width + 8` modules wide, show the code's own modules
   from column 4 and row 4 on, and are light everywhere else, also in the row beyond an odd grid.
   */
  lemma HalfBlocksShowTheCode(code: Code, x: nat, y: nat)
    requires WellFormed(code) && x < code.width + 8 && y < 2 * ((code.width + 9) / 2)
    ensures var lines := HalfBlocks(code);
            && |lines| == (code.width + 9) / 2 && y / 2 < |lines|
            && ReadsAs(lines[y / 2], code.width + 8)
            && IsShown(code, x, y, HalfModule(lines, x, y))
  {
    hide *;
    HalfModuleIsDark(code, x, y);
    DarkIsShown(code, x, y);
  }

  /** The same for lines of whole cells, one a row of modules. */
  lemma CellsShowTheCode(code: Code, n: nat, x: nat, y: nat)
    requires WellFormed(code) && n > 0 && x < code.width + 8 && y < code.width + 8
    ensures var lines := WholeCells(code, n);
            && |lines| == code.width + 8
            && ReadsAs(lines[y], (code.width + 8) * n)
            && IsShown(code, x, y, WholeModule(lines, n, x, y))
  {
    hide *;
    WholeModuleIsDark(code, n, x, y);
    DarkIsShown(code, x, y);
  }

  lemma WholeModuleIsDark(code: Code, n: nat, x: nat, y: nat)
    requires WellFormed(code) && n > 0 && x < code.width + 8 && y < code.width + 8
    ensures var lines := WholeCells(code, n);
            && |lines| == code.width + 8
            && ReadsAs(lines[y], (code.width + 8) * n)
            && WholeModule(lines, n, x, y) == Some(Dark(code, x, y))
  {
    hide Dark, EachCell, Lines, Join, CellLines, WellFormed;
    CellsRoundTrip(code, n, x, y);
    var lines := WholeCells(code, n);
    PaintedShows(EachCell(lines[y], false).value, n, x, Dark(code, x, y));
  }

  lemma PaintedShows(cells: seq<Cell>, n: nat, x: nat, black: bool)
    requires n > 0 && 0 <= x * n <= (x + 1) * n <= |cells| && cells[x * n..(x + 1) * n] == Painted(n, black)
    ensures x * n < (x + 1) * n
    ensures forall k :: x * n <= k < (x + 1) * n ==> cells[k] == Cell(black, ' ')
    ensures cells[x * n] == Cell(black, ' ')
  {
    assert (x + 1) * n == x * n + n;
    var part := cells[x * n..(x + 1) * n];
    forall k | x * n <= k < (x + 1) * n ensures cells[k] == Cell(black, ' ') {
      assert cells[k] == part[k - x * n];
    }
  }

  /** Half blocks are drawn in black, set first on every line; every line ends by resetting the colours. */
  lemma LinesSetTheColours(code: Code, n: nat, y: nat)
    requires WellFormed(code)
    ensures "\U{001b}[38;5;16m" <= HalfLine(code, y)
    ensures var line := HalfLine(code, y); |line| >= 4 && line[|line| - 4..] == "\U{001b}[0m"
    ensures var line := CellLine(code, n, y); |line| >= 4 && line[|line| - 4..] == "\U{001b}[0m"
  {
    hide CellText, ModuleText, Dark;
    assert Escape("38;5;16") == "\U{001b}[38;5;16m" && Escape("0") == "\U{001b}[0m";
    hide Escape;
    assert HalfLine(code, y) == Escape("38;5;16") + (CellText(HalfRow(code, y), None) + Escape("0"));
  }
}
