/**
 `waserver logs` (waserver/src/logging.rs): an incremental reader over one share's log
 files, oldest first, while the server appends to the newest and rotates daily. A file is
 named by its place in chronological order, which is the order its path sorts in.
 */
module LogTail {
  import opened Prelude

  type Bytes = seq<byte>

  const NEWLINE: byte := 10

  /** A reader's position: the file it is in, the files queued behind it, the unfinished line. */
  datatype Tail = Tail(file: nat, pos: nat, later: seq<nat>, partial: Bytes, out: Bytes)

  //-- Lines -------------------------------------------------------------------------------

  predicate EndsLine(b: Bytes) { b != [] && b[|b| - 1] == NEWLINE }

  /** What follows the last newline. */
  function Rest(c: Bytes): (r: Bytes)
    ensures NEWLINE !in r
  {
    if c == [] || EndsLine(c) then [] else Rest(c[..|c| - 1]) + [c[|c| - 1]]
  }

  /** The complete lines, each with its newline. */
  function LinesOf(c: Bytes): (r: seq<Bytes>) {
    if c == [] then []
    else if EndsLine(c) then LinesOf(c[..|c| - 1]) + [Rest(c[..|c| - 1]) + [NEWLINE]]
    else LinesOf(c[..|c| - 1])
  }

  /** A finished file's lines: an unfinished last one gets its newline. */
  function AllLines(c: Bytes): (r: seq<Bytes>) {
    LinesOf(c) + (if Rest(c) == [] then [] else [Rest(c) + [NEWLINE]])
  }

  function FinishedLines(files: seq<Bytes>): (r: seq<Bytes>) {
    if files == [] then [] else AllLines(files[0]) + FinishedLines(files[1..])
  }

  /** Lines as printed, each after `prefix`. */
  function Render(prefix: Bytes, lines: seq<Bytes>): (r: Bytes) {
    if lines == [] then [] else prefix + lines[0] + Render(prefix, lines[1..])
  }

  /** Everything there is to print while the last file may still grow. */
  function Expected(prefix: Bytes, files: seq<Bytes>): (r: Bytes)
    requires files != []
  {
    Render(prefix, Shown(files, |files| - 1, |files[|files| - 1]|))
  }

  /** Everything is printed, with only the unfinished last line held back. */
  ghost predicate CaughtUp(prefix: Bytes, files: seq<Bytes>, t: Tail) {
    && files != []
    && t.out == Expected(prefix, files)
    && t.partial == Rest(files[|files| - 1])
  }

  /** The lines up to position `pos` of file `file`. */
  function Shown(files: seq<Bytes>, file: nat, pos: nat): (r: seq<Bytes>)
    requires file < |files| && pos <= |files[file]|
  {
    FinishedLines(files[..file]) + LinesOf(files[file][..pos])
  }

  lemma OneMoreByte(c: Bytes, b: byte)
    ensures LinesOf(c + [b]) == if b == NEWLINE then LinesOf(c) + [Rest(c) + [NEWLINE]] else LinesOf(c)
    ensures Rest(c + [b]) == if b == NEWLINE then [] else Rest(c) + [b]
  {
    assert (c + [b])[..|c + [b]| - 1] == c;
  }

  /** The lines and the rest are the whole content, in order. */
  lemma {:induction false} LinesAndRest(c: Bytes)
    ensures Flatten(LinesOf(c)) + Rest(c) == c
  {
    if c != [] {
      var front, last := c[..|c| - 1], c[|c| - 1];
      LinesAndRest(front);
      OneMoreByte(front, last);
      assert c == front + [last];
      hide LinesOf, Rest;
      if last == NEWLINE {
        FlattenPush(LinesOf(front), Rest(front) + [NEWLINE]);
      }
    }
  }

  lemma {:induction false} ReadUnfinished(a: Bytes, x: Bytes)
    requires NEWLINE !in x
    ensures LinesOf(a + x) == LinesOf(a) && Rest(a + x) == Rest(a) + x
  {
    hide LinesOf, Rest;
    if x == [] {
      assert a + x == a;
    } else {
      var front, last := x[..|x| - 1], x[|x| - 1];
      ReadUnfinished(a, front);
      OneMoreByte(a + front, last);
      assert x == front + [last] && a + x == (a + front) + [last];
    }
  }

  lemma ReadFinished(a: Bytes, x: Bytes)
    requires NEWLINE !in x
    ensures LinesOf(a + x + [NEWLINE]) == LinesOf(a) + [Rest(a) + x + [NEWLINE]]
    ensures Rest(a + x + [NEWLINE]) == []
  {
    hide LinesOf, Rest;
    ReadUnfinished(a, x);
    OneMoreByte(a + x, NEWLINE);
  }

  lemma {:induction false} LinesGrow(c: Bytes, p: nat)
    requires p <= |c|
    ensures LinesOf(c[..p]) <= LinesOf(c)
  {
    if p < |c| {
      var front := c[..|c| - 1];
      LinesGrow(front, p);
      assert front[..p] == c[..p];
    } else {
      assert c[..p] == c;
    }
  }

  lemma {:induction false} FinishedPush(files: seq<Bytes>, c: Bytes)
    ensures FinishedLines(files + [c]) == FinishedLines(files) + AllLines(c)
  {
    hide AllLines;
    if files == [] {
      assert [c][1..] == [] && files + [c] == [c];
    } else {
      assert (files + [c])[1..] == files[1..] + [c];
      FinishedPush(files[1..], c);
    }
  }

  lemma {:induction false} RenderAppend(prefix: Bytes, a: seq<Bytes>, b: seq<Bytes>)
    ensures Render(prefix, a + b) == Render(prefix, a) + Render(prefix, b)
  {
    if a == [] {
      assert a + b == b;
    } else {
      assert (a + b)[1..] == a[1..] + b;
      RenderAppend(prefix, a[1..], b);
    }
  }

  lemma RenderPush(prefix: Bytes, a: seq<Bytes>, line: Bytes)
    ensures Render(prefix, a + [line]) == Render(prefix, a) + (prefix + line)
  {
    RenderAppend(prefix, a, [line]);
    assert [line][1..] == [];
  }

  //-- Steps -------------------------------------------------------------------------------

  /** Where `read_until` stops: after the next newline, or at the end of the file. */
  function ReadEnd(c: Bytes, pos: nat): (e: nat)
    requires pos <= |c|
    ensures pos <= e <= |c|
    ensures NEWLINE !in c[pos..e] || (e > pos && c[e - 1] == NEWLINE && NEWLINE !in c[pos..e - 1])
    ensures NEWLINE !in c[pos..e] ==> e == |c|
    decreases |c| - pos
  {
    if pos == |c| then pos
    else if c[pos] == NEWLINE then
      assert c[pos..pos] == [];
      pos + 1
    else
      var e := ReadEnd(c, pos + 1);
      assert c[pos..e] == [c[pos]] + c[pos + 1..e];
      assert e > pos + 1 ==> c[pos..e - 1] == [c[pos]] + c[pos + 1..e - 1];
      e
  }

  function WritePartial(prefix: Bytes, t: Tail): Tail {
    t.(out := t.out + (prefix + t.partial), partial := [])
  }

  function CopyRest(prefix: Bytes, t: Tail): Tail {
    if t.partial == [] then t else WritePartial(prefix, t.(partial := t.partial + [NEWLINE]))
  }

  /** One turn of the loop in `copy_complete_lines`; `None` when it returns. */
  function Turn(prefix: Bytes, files: seq<Bytes>, t: Tail): (r: Option<Tail>)
    requires t.file < |files| && t.pos <= |files[t.file]|
  {
    var c := files[t.file];
    var e := ReadEnd(c, t.pos);
    var read := t.(partial := t.partial + c[t.pos..e], pos := e);
    if EndsLine(read.partial) then Some(WritePartial(prefix, read))
    else if e != t.pos then Some(read)
    else if t.later == [] then None
    else Some(CopyRest(prefix, read).(file := t.later[0], pos := 0, later := t.later[1..]))
  }

  function Range(from: nat, to: nat): (r: seq<nat>)
    requires from <= to
    ensures |r| == to - from
    ensures forall i :: 0 <= i < |r| ==> r[i] == from + i
  {
    seq(to - from, i requires 0 <= i => from + i)
  }

  /** What holds after every step: the output is exactly the lines read so far. */
  ghost predicate Inv(prefix: Bytes, files: seq<Bytes>, t: Tail) {
    && t.file < |files| && t.pos <= |files[t.file]|
    && t.file + |t.later| < |files|
    && t.later == Range(t.file + 1, t.file + 1 + |t.later|)
    && t.partial == Rest(files[t.file][..t.pos])
    && t.out == Render(prefix, Shown(files, t.file, t.pos))
  }

  lemma TurnReadsLine(prefix: Bytes, files: seq<Bytes>, t: Tail)
    requires Inv(prefix, files, t)
    requires var c := files[t.file]; NEWLINE in c[t.pos..ReadEnd(c, t.pos)]
    ensures Turn(prefix, files, t).Some? && Inv(prefix, files, Turn(prefix, files, t).value)
    ensures var t' := Turn(prefix, files, t).value;
            t'.pos > t.pos && t'.later == t.later && t'.file == t.file
  {
    hide LinesOf, Rest, FinishedLines, Render, Range;
    var c := files[t.file];
    var e := ReadEnd(c, t.pos);
    var a, x := c[..t.pos], c[t.pos..e - 1];
    LineRead(c, t.pos, e);
    var line := Rest(a) + x + [NEWLINE];
    assert t.partial + c[t.pos..e] == line && EndsLine(line) by { assert c[t.pos..e] == x + [NEWLINE]; }
    LineShown(prefix, files, t.file, t.pos, e, line);
  }

  lemma LineRead(c: Bytes, pos: nat, e: nat)
    requires pos < e <= |c| && c[e - 1] == NEWLINE && NEWLINE !in c[pos..e - 1]
    ensures LinesOf(c[..e]) == LinesOf(c[..pos]) + [Rest(c[..pos]) + c[pos..e - 1] + [NEWLINE]]
    ensures Rest(c[..e]) == []
  {
    hide LinesOf, Rest;
    ReadFinished(c[..pos], c[pos..e - 1]);
    assert c[..e] == c[..pos] + c[pos..e - 1] + [NEWLINE];
  }

  lemma LineShown(prefix: Bytes, files: seq<Bytes>, file: nat, pos: nat, e: nat, line: Bytes)
    requires file < |files| && pos <= e <= |files[file]|
    requires LinesOf(files[file][..e]) == LinesOf(files[file][..pos]) + [line]
    ensures Render(prefix, Shown(files, file, e)) == Render(prefix, Shown(files, file, pos)) + (prefix + line)
  {
    hide LinesOf, FinishedLines, Render;
    assert Shown(files, file, e) == Shown(files, file, pos) + [line];
    RenderPush(prefix, Shown(files, file, pos), line);
  }

  lemma TurnReadsPart(prefix: Bytes, files: seq<Bytes>, t: Tail)
    requires Inv(prefix, files, t)
    requires var c := files[t.file]; NEWLINE !in c[t.pos..ReadEnd(c, t.pos)] && ReadEnd(c, t.pos) != t.pos
    ensures Turn(prefix, files, t).Some? && Inv(prefix, files, Turn(prefix, files, t).value)
    ensures var t' := Turn(prefix, files, t).value;
            t'.pos > t.pos && t'.later == t.later && t'.file == t.file
  {
    var c := files[t.file];
    var e := ReadEnd(c, t.pos);
    var a, x := c[..t.pos], c[t.pos..e];
    assert c[..e] == a + x;
    ReadUnfinished(a, x);
    NotEndsLine(t.partial + x);
  }

  lemma NotEndsLine(b: Bytes)
    requires NEWLINE !in b
    ensures !EndsLine(b)
  {
  }

  lemma RestWritten(prefix: Bytes, files: seq<Bytes>, t: Tail)
    requires Inv(prefix, files, t) && t.pos == |files[t.file]|
    ensures CopyRest(prefix, t).out == Render(prefix, FinishedLines(files[..t.file + 1]))
    ensures CopyRest(prefix, t) == t.(out := CopyRest(prefix, t).out, partial := [])
  {
    hide LinesOf, Rest, FinishedLines, Render, Range;
    var c := files[t.file];
    assert c[..t.pos] == c;
    assert files[..t.file] + [c] == files[..t.file + 1];
    FinishedPush(files[..t.file], c);
    var shown := Shown(files, t.file, t.pos);
    if Rest(c) == [] {
      assert FinishedLines(files[..t.file + 1]) == shown;
    } else {
      var line := Rest(c) + [NEWLINE];
      assert FinishedLines(files[..t.file + 1]) == shown + [line];
      RenderPush(prefix, shown, line);
    }
  }

  lemma TurnMovesOn(prefix: Bytes, files: seq<Bytes>, t: Tail)
    requires Inv(prefix, files, t) && t.later != []
    requires ReadEnd(files[t.file], t.pos) == t.pos
    ensures Turn(prefix, files, t).Some? && Inv(prefix, files, Turn(prefix, files, t).value)
    ensures var t' := Turn(prefix, files, t).value; t'.file == t.file + 1 && |t'.later| == |t.later| - 1
  {
    var c := files[t.file];
    assert c[t.pos..t.pos] == [] && t.pos == |c|;
    var read := t.(partial := t.partial + c[t.pos..t.pos], pos := t.pos);
    assert read == t;
    NotEndsLine(t.partial);
    RestWritten(prefix, files, t);
    hide LinesOf, Rest, FinishedLines, Render, AllLines, CopyRest;
    var t' := Turn(prefix, files, t).value;
    StartsEmpty(files, t.file + 1);
    assert t'.later == Range(t.file + 2, t.file + 2 + |t'.later|);
  }

  lemma StartsEmpty(files: seq<Bytes>, file: nat)
    requires file < |files|
    ensures Shown(files, file, 0) == FinishedLines(files[..file]) && Rest(files[file][..0]) == []
  {
    assert files[file][..0] == [];
  }

  /** Every turn keeps the invariant and gets closer to the end of the queued files. */
  lemma TurnKeepsInv(prefix: Bytes, files: seq<Bytes>, t: Tail)
    requires Inv(prefix, files, t)
    ensures var r := Turn(prefix, files, t);
            match r
            case Some(t') =>
              && Inv(prefix, files, t')
              && (|t'.later| < |t.later| || (t'.later == t.later && t'.file == t.file && t'.pos > t.pos))
              && t'.file + |t'.later| == t.file + |t.later|
            case None => t.later == [] && t.pos == |files[t.file]|
  {
    var c := files[t.file];
    var e := ReadEnd(c, t.pos);
    hide Inv;
    assert t.file < |files| && t.pos <= |files[t.file]|;
    if NEWLINE in c[t.pos..e] {
      TurnReadsLine(prefix, files, t);
    } else if e != t.pos {
      TurnReadsPart(prefix, files, t);
    } else if t.later != [] {
      TurnMovesOn(prefix, files, t);
    } else {
      assert c[t.pos..e] == [];
    }
  }

  function PickUp(files: seq<Bytes>, t: Tail): Tail
    requires t.file < |files|
  {
    t.(later := Range(t.file + 1, |files|))
  }

  lemma PickUpKeepsInv(prefix: Bytes, files: seq<Bytes>, t: Tail)
    requires Inv(prefix, files, t)
    ensures Inv(prefix, files, PickUp(files, t))
  {
    hide LinesOf, Rest, FinishedLines, Render;
  }

  /** Bytes are only ever added to the newest file. */
  function Appended(files: seq<Bytes>, bytes: Bytes): (r: seq<Bytes>)
    requires files != []
    ensures |r| == |files|
  {
    files[|files| - 1 := files[|files| - 1] + bytes]
  }

  lemma AppendKeepsInv(prefix: Bytes, files: seq<Bytes>, t: Tail, bytes: Bytes)
    requires Inv(prefix, files, t)
    ensures Inv(prefix, Appended(files, bytes), t)
  {
    var grown := Appended(files, bytes);
    assert grown[..t.file] == files[..t.file];
    assert grown[t.file][..t.pos] == files[t.file][..t.pos];
    hide LinesOf, Rest, FinishedLines, Render, Range;
  }

  lemma RotateKeepsInv(prefix: Bytes, files: seq<Bytes>, t: Tail)
    requires Inv(prefix, files, t)
    ensures Inv(prefix, files + [[]], t)
  {
    var rotated := files + [[]];
    assert rotated[..t.file] == files[..t.file] && rotated[t.file] == files[t.file];
    hide LinesOf, Rest, FinishedLines, Render, Range;
  }

  //-- Every schedule ----------------------------------------------------------------------

  /** What can happen: the server appends or rotates, the reader takes a turn or lists the files. */
  datatype Event = Append(bytes: Bytes) | Rotate | Read | List

  datatype World = World(files: seq<Bytes>, tail: Tail)

  function Opened(files: seq<Bytes>): Tail
    requires files != []
  {
    Tail(0, 0, Range(1, |files|), [], [])
  }

  /** A turn that has nothing to do leaves the reader where it is. */
  function After(prefix: Bytes, w: World, e: Event): (r: World)
    requires w.files != [] && w.tail.file < |w.files| && w.tail.pos <= |w.files[w.tail.file]|
  {
    match e
    case Append(bytes) => w.(files := Appended(w.files, bytes))
    case Rotate => w.(files := w.files + [[]])
    case List => w.(tail := PickUp(w.files, w.tail))
    case Read =>
      match Turn(prefix, w.files, w.tail)
      case Some(t) => w.(tail := t)
      case None => w
  }

  ghost predicate Schedule(prefix: Bytes, files: seq<Bytes>, events: seq<Event>, worlds: seq<World>) {
    && files != [] && |worlds| == |events| + 1
    && worlds[0] == World(files, Opened(files))
    && forall i :: 0 <= i < |events| ==>
         var w := worlds[i];
         && w.files != [] && w.tail.file < |w.files| && w.tail.pos <= |w.files[w.tail.file]|
         && worlds[i + 1] == After(prefix, w, events[i])
  }

  lemma OpenedInv(prefix: Bytes, files: seq<Bytes>)
    requires files != []
    ensures Inv(prefix, files, Opened(files))
  {
    StartsEmpty(files, 0);
    assert files[..0] == [];
  }

  lemma AfterKeepsInv(prefix: Bytes, w: World, e: Event)
    requires Inv(prefix, w.files, w.tail)
    ensures var v := After(prefix, w, e); Inv(prefix, v.files, v.tail)
  {
    assert w.files != [] && w.tail.file < |w.files| && w.tail.pos <= |w.files[w.tail.file]|;
    hide Inv, Turn, PickUp, Appended;
    match e
    case Append(bytes) => AppendKeepsInv(prefix, w.files, w.tail, bytes);
    case Rotate => RotateKeepsInv(prefix, w.files, w.tail);
    case List => PickUpKeepsInv(prefix, w.files, w.tail);
    case Read => TurnKeepsInv(prefix, w.files, w.tail);
  }

  lemma {:induction false} ScheduleKeepsInv(prefix: Bytes, files: seq<Bytes>, events: seq<Event>, worlds: seq<World>, k: nat)
    requires Schedule(prefix, files, events, worlds) && k < |worlds|
    ensures Inv(prefix, worlds[k].files, worlds[k].tail)
  {
    hide Inv, After;
    if k == 0 {
      OpenedInv(prefix, files);
    } else {
      ScheduleKeepsInv(prefix, files, events, worlds, k - 1);
      AfterKeepsInv(prefix, worlds[k - 1], events[k - 1]);
    }
  }

  lemma FinishedPrefix(files: seq<Bytes>, a: nat, b: nat)
    requires a <= b <= |files|
    ensures FinishedLines(files[..a]) <= FinishedLines(files[..b])
    decreases b - a
  {
    hide FinishedLines;
    if a < b {
      FinishedPrefix(files, a, b - 1);
      assert files[..b - 1] + [files[b - 1]] == files[..b];
      FinishedPush(files[..b - 1], files[b - 1]);
    }
  }

  lemma ShownIsPrefix(files: seq<Bytes>, file: nat, pos: nat)
    requires file < |files| && pos <= |files[file]|
    ensures Shown(files, file, pos) <= Shown(files, |files| - 1, |files[|files| - 1]|)
  {
    var last := |files| - 1;
    var c := files[file];
    LinesGrow(c, pos);
    assert files[last][..|files[last]|] == files[last];
    if file < last {
      assert files[..file] + [c] == files[..file + 1];
      FinishedPush(files[..file], c);
      FinishedPrefix(files, file + 1, last);
      hide LinesOf, FinishedLines, Rest;
      assert Shown(files, file, pos) <= FinishedLines(files[..file]) + AllLines(c);
    }
  }

  lemma RenderPrefix(prefix: Bytes, a: seq<Bytes>, b: seq<Bytes>)
    requires a <= b
    ensures Render(prefix, a) <= Render(prefix, b)
  {
    assert b == a + b[|a|..];
    RenderAppend(prefix, a, b[|a|..]);
  }

  /**
   At every moment of every schedule the output is a beginning of all the lines in order,
   and once nothing queued is left to read of the newest file it is all of them, with only
   the unfinished last line held back.
   */
  lemma FollowerLosesNothing(prefix: Bytes, files: seq<Bytes>, events: seq<Event>, worlds: seq<World>, k: nat)
    requires Schedule(prefix, files, events, worlds) && k < |worlds|
    ensures var w := worlds[k];
            && w.files != []
            && w.tail.out <= Expected(prefix, w.files)
            && (w.tail.file == |w.files| - 1 && w.tail.pos == |w.files[w.tail.file]| ==>
                  CaughtUp(prefix, w.files, w.tail))
  {
    var w := worlds[k];
    ScheduleKeepsInv(prefix, files, events, worlds, k);
    hide Schedule, LinesOf, FinishedLines, Rest, Render;
    ShownIsPrefix(w.files, w.tail.file, w.tail.pos);
    RenderPrefix(prefix, Shown(w.files, w.tail.file, w.tail.pos), Shown(w.files, |w.files| - 1, |w.files[|w.files| - 1]|));
    var c := w.files[w.tail.file];
    assert w.tail.pos == |c| ==> c[..w.tail.pos] == c;
  }

  //-- Printing without following ----------------------------------------------------------

  /** A file with a newline added if it lacks its last one. */
  function Finished(c: Bytes): Bytes {
    if c == [] || EndsLine(c) then c else c + [NEWLINE]
  }

  function Concatenated(files: seq<Bytes>): Bytes {
    if files == [] then [] else Finished(files[0]) + Concatenated(files[1..])
  }

  lemma {:induction false} RenderBare(lines: seq<Bytes>)
    ensures Render([], lines) == Flatten(lines)
  {
    if lines != [] {
      RenderBare(lines[1..]);
      assert [] + lines[0] == lines[0];
    }
  }

  lemma AllLinesBare(c: Bytes)
    ensures Render([], AllLines(c)) == Finished(c)
  {
    RenderBare(AllLines(c));
    LinesAndRest(c);
    if Rest(c) == [] {
      assert LinesOf(c) + [] == LinesOf(c);
      assert Flatten(LinesOf(c)) + [] == Flatten(LinesOf(c));
    } else {
      FlattenPush(LinesOf(c), Rest(c) + [NEWLINE]);
      assert Flatten(LinesOf(c)) + (Rest(c) + [NEWLINE]) == c + [NEWLINE];
    }
  }

  lemma {:induction false} FinishedBare(files: seq<Bytes>)
    ensures Render([], FinishedLines(files)) == Concatenated(files)
  {
    hide AllLines, Finished;
    if files != [] {
      FinishedBare(files[1..]);
      RenderAppend([], AllLines(files[0]), FinishedLines(files[1..]));
      AllLinesBare(files[0]);
    }
  }

  //-- The reader as the program keeps it ---------------------------------------------------

  class LogDir {
    var files: seq<Bytes>
  }

  class Reader {
    const prefix: Bytes
    var file: nat
    var pos: nat
    var later: seq<nat>
    var partial: Bytes
    var out: Bytes

    function View(): Tail
      reads this
    {
      Tail(file, pos, later, partial, out)
    }

    constructor (dir: LogDir, prefix: Bytes)
      requires dir.files != []
      ensures this.prefix == prefix
      ensures View() == Opened(dir.files) && Inv(prefix, dir.files, View())
    {
      this.prefix := prefix;
      file, pos, later := 0, 0, Range(1, |dir.files|);
      partial, out := [], [];
      new;
      OpenedInv(prefix, dir.files);
    }

    method WritePartialLine()
      modifies this
      ensures View() == WritePartial(prefix, old(View()))
    {
      out := out + (prefix + partial);
      partial := [];
    }

    method CopyRestLine()
      modifies this
      ensures View() == CopyRest(prefix, old(View()))
    {
      if partial != [] {
        partial := partial + [NEWLINE];
        WritePartialLine();
      }
    }

    /** One turn of the loop; false when there is nothing more to read. */
    method TakeTurn(dir: LogDir) returns (more: bool)
      requires file < |dir.files| && pos <= |dir.files[file]|
      modifies this
      ensures more <==> Turn(prefix, dir.files, old(View())).Some?
      ensures more ==> Some(View()) == Turn(prefix, dir.files, old(View()))
      ensures !more ==> View() == old(View())
    {
      var c := dir.files[file];
      var e := ReadEnd(c, pos);
      var n := e - pos;
      partial := partial + c[pos..e];
      pos := e;
      if EndsLine(partial) {
        WritePartialLine();
      } else if n == 0 {
        assert partial == old(partial);
        if later == [] {
          return false;
        }
        var next := later[0];
        later := later[1..];
        CopyRestLine();
        file, pos := next, 0;
      }
      return true;
    }

    /** A pass over fixed contents ends, with every queued file read to its end. */
    method CopyCompleteLines(dir: LogDir)
      requires Inv(prefix, dir.files, View())
      modifies this
      ensures Inv(prefix, dir.files, View())
      ensures later == [] && file == old(file) + |old(later)| && pos == |dir.files[file]|
    {
      InBounds(prefix, dir.files, View());
      hide Inv, Turn;
      var more := true;
      while more
        invariant Inv(prefix, dir.files, View())
        invariant file + |later| == old(file) + |old(later)|
        invariant file < |dir.files| && pos <= |dir.files[file]|
        invariant !more ==> later == [] && pos == |dir.files[file]|
        decreases more, |later|, |dir.files[file]| - pos
      {
        TurnKeepsInv(prefix, dir.files, View());
        more := TakeTurn(dir);
        InBounds(prefix, dir.files, View());
      }
    }

    method PickUpRotatedFiles(dir: LogDir)
      requires Inv(prefix, dir.files, View())
      modifies this
      ensures View() == PickUp(dir.files, old(View())) && Inv(prefix, dir.files, View())
    {
      PickUpKeepsInv(prefix, dir.files, View());
      InQueue(prefix, dir.files, View());
      hide Inv;
      for path := 0 to |dir.files|
        invariant View() == old(View()).(later := later)
        invariant |old(later)| <= |later| && later == Range(file + 1, file + 1 + |later|)
        invariant file + |later| < |dir.files|
        invariant file + |later| == if path <= file + |old(later)| then file + |old(later)| else path - 1
      {
        if file < path <= file + |later| {
          QueuedIsListed(file, later, path);
        }
        if path > file && path !in later {
          later := later + [path];
        }
      }
    }

    /** One poll of the follower brings it up to date: only an unfinished last line is held back. */
    method Poll(dir: LogDir)
      requires Inv(prefix, dir.files, View())
      modifies this
      ensures Inv(prefix, dir.files, View()) && CaughtUp(prefix, dir.files, View())
    {
      InBounds(prefix, dir.files, View());
      PickUpReaches(dir.files, View());
      hide Inv, PickUp, CaughtUp;
      PickUpRotatedFiles(dir);
      assert file + |later| == |dir.files| - 1;
      CopyCompleteLines(dir);
      UpToDate(prefix, dir.files, View());
    }

    /** Without following: one pass, then the unfinished line. */
    method Print(dir: LogDir)
      requires dir.files != [] && View() == Opened(dir.files)
      modifies this
      ensures out == Render(prefix, FinishedLines(dir.files))
      ensures prefix == [] ==> out == Concatenated(dir.files)
    {
      hide LinesOf, Rest, FinishedLines, Render, Inv, Concatenated;
      OpenedInv(prefix, dir.files);
      CopyCompleteLines(dir);
      RestWritten(prefix, dir.files, View());
      assert dir.files[..|dir.files|] == dir.files;
      CopyRestLine();
      FinishedBare(dir.files);
    }
  }

  lemma QueuedIsListed(file: nat, later: seq<nat>, path: nat)
    requires later == Range(file + 1, file + 1 + |later|) && file < path <= file + |later|
    ensures path in later
  {
    assert later[path - file - 1] == path;
  }

  lemma UpToDate(prefix: Bytes, files: seq<Bytes>, t: Tail)
    requires Inv(prefix, files, t) && t.file == |files| - 1 && t.pos == |files[t.file]|
    ensures CaughtUp(prefix, files, t)
  {
    hide LinesOf, FinishedLines, Rest, Render, Range;
    assert files[t.file][..t.pos] == files[t.file];
  }

  lemma PickUpReaches(files: seq<Bytes>, t: Tail)
    requires t.file < |files|
    ensures PickUp(files, t).file + |PickUp(files, t).later| == |files| - 1
  {
  }

  lemma InQueue(prefix: Bytes, files: seq<Bytes>, t: Tail)
    requires Inv(prefix, files, t)
    ensures t.file + |t.later| < |files| && t.later == Range(t.file + 1, t.file + 1 + |t.later|)
  {
  }

  lemma InBounds(prefix: Bytes, files: seq<Bytes>, t: Tail)
    requires Inv(prefix, files, t)
    ensures t.file < |files| && t.pos <= |files[t.file]|
  {
  }

  /** A line is text without a newline, and then one. */
  predicate IsLine(line: Bytes) {
    line != [] && line[|line| - 1] == NEWLINE && NEWLINE !in line[..|line| - 1]
  }

  predicate AreLines(lines: seq<Bytes>) {
    forall i :: 0 <= i < |lines| ==> IsLine(lines[i])
  }

  lemma EndedIsLine(rest: Bytes)
    requires NEWLINE !in rest
    ensures IsLine(rest + [NEWLINE])
  {
    assert (rest + [NEWLINE])[..|rest|] == rest;
  }

  /** Every line shown is one line: together with `LinesAndRest` this leaves no other way to cut. */
  lemma {:induction false} LinesAreLines(c: Bytes)
    ensures AreLines(LinesOf(c)) && AreLines(AllLines(c))
  {
    hide IsLine;
    if c != [] {
      var front, last := c[..|c| - 1], c[|c| - 1];
      LinesAreLines(front);
      OneMoreByte(front, last);
      assert front + [last] == c;
      EndedIsLine(Rest(front));
    }
    hide LinesOf;
    EndedIsLine(Rest(c));
  }
}
