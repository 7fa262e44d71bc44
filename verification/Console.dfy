/** The text console.  The screen is a window of video memory that slides forward as lines scroll off,
    and is copied back to the start of video memory when it would run over the end.  It is compared
    with a terminal that keeps a plain grid of rows. */
module Console {

  /** A character and its attribute: one 16-bit word of video memory. */
  datatype Cell = Cell(ch: int, attr: int)

  const ERASE := Cell(0x20, 0x07)   // video_erase_char 0x0720
  const ATTR := 0x07

  // ---------- the terminal ----------

  datatype Terminal = Terminal(rows: seq<seq<Cell>>, x: int, y: int)

  function Blank(cols: nat): (row: seq<Cell>)
    ensures |row| == cols
  {
    seq(cols, _ => ERASE)
  }

  ghost predicate Grid(t: Terminal, cols: int) {
    && cols >= 1 && |t.rows| >= 1
    && (forall r :: 0 <= r < |t.rows| ==> |t.rows[r]| == cols)
    && 0 <= t.x <= cols && 0 <= t.y < |t.rows|
  }

  /** Down one line; at the last line all rows move up and a blank one comes in. */
  function LineFeed(t: Terminal, cols: nat): Terminal {
    if t.y + 1 < |t.rows| then t.(y := t.y + 1)
    else if |t.rows| == 0 then t
    else t.(rows := t.rows[1..] + [Blank(cols)])
  }

  function Put(t: Terminal, x: int, c: Cell): Terminal {
    if 0 <= t.y < |t.rows| && 0 <= x < |t.rows[t.y]| then t.(rows := t.rows[t.y := t.rows[t.y][x := c]]) else t
  }

  predicate Printable(c: int) {
    31 < c < 127
  }

  /** A character goes to the cursor, on the next line if this one is full; the control characters
      move the cursor; DEL also erases; anything else, bytes from 128 up included, does nothing. */
  function Type(t: Terminal, c: int, cols: nat): Terminal {
    if Printable(c) then
      var u := if t.x >= cols then LineFeed(t.(x := t.x - cols), cols) else t;
      Put(u, u.x, Cell(c, ATTR)).(x := u.x + 1)
    else if c == 10 || c == 11 || c == 12 then LineFeed(t, cols).(x := 0)
    else if c == 13 then t.(x := 0)
    else if c == 127 then (if t.x > 0 then Put(t, t.x - 1, ERASE).(x := t.x - 1) else t)
    else if c == 8 then (if t.x > 0 then t.(x := t.x - 1) else t)
    else t
  }

  function TypeAll(t: Terminal, s: seq<int>, cols: nat): Terminal
    decreases |s|
  {
    if s == [] then t else TypeAll(Type(t, s[0], cols), s[1..], cols)
  }

  lemma {:induction false} TypeAllSnoc(t: Terminal, s: seq<int>, c: int, cols: nat)
    ensures TypeAll(t, s + [c], cols) == Type(TypeAll(t, s, cols), c, cols)
    decreases |s|
  {
    if s == [] {
      assert (s + [c])[1..] == [];
    } else {
      assert (s + [c])[1..] == s[1..] + [c];
      TypeAllSnoc(Type(t, s[0], cols), s[1..], c, cols);
    }
  }

  lemma TypeKeepsGrid(t: Terminal, c: int, cols: nat)
    requires Grid(t, cols)
    ensures Grid(Type(t, c, cols), cols) && |Type(t, c, cols).rows| == |t.rows|
  {
  }

  // ---------- rows of a flat window ----------

  /** The window cut into rows. */
  ghost function Rows(w: seq<Cell>, cols: int): seq<seq<Cell>>
    requires cols >= 1
    decreases |w|
  {
    if |w| < cols then [] else [w[..cols]] + Rows(w[cols..], cols)
  }

  /** The cells of n rows. */
  function Cells(n: nat, cols: nat): nat {
    if n == 0 then 0 else cols + Cells(n - 1, cols)
  }

  lemma {:induction false} CellsTimes(n: nat, cols: nat)
    ensures Cells(n, cols) == n * cols
  {
    if n > 0 {
      CellsTimes(n - 1, cols);
    }
  }

  lemma {:induction false} RowsShape(w: seq<Cell>, cols: nat, n: nat)
    requires cols >= 1 && |w| == Cells(n, cols)
    ensures |Rows(w, cols)| == n
    ensures forall r :: 0 <= r < n ==> |Rows(w, cols)[r]| == cols
    decreases n
  {
    if n > 0 {
      RowsShape(w[cols..], cols, n - 1);
    }
  }

  /** Cell by cell: row r, column k is cell r * cols + k. */
  lemma {:induction false} RowsAt(w: seq<Cell>, cols: nat, n: nat, r: nat, k: nat)
    requires cols >= 1 && |w| == Cells(n, cols) && r < n && k < cols
    ensures Cells(r, cols) == r * cols && 0 <= r * cols + k < |w|
    ensures |Rows(w, cols)| == n && |Rows(w, cols)[r]| == cols && Rows(w, cols)[r][k] == w[r * cols + k]
    decreases r
  {
    RowsShape(w, cols, n);
    CellsTimes(r, cols);
    if r > 0 {
      RowsAt(w[cols..], cols, n - 1, r - 1, k);
    }
  }

  lemma {:induction false} RowsPut(w: seq<Cell>, cols: nat, n: nat, y: nat, x: nat, c: Cell)
    requires cols >= 1 && |w| == Cells(n, cols) && y < n && x < cols
    ensures Cells(y, cols) + x < |w| && |Rows(w, cols)| == n && |Rows(w, cols)[y]| == cols
    ensures Rows(w[Cells(y, cols) + x := c], cols) == Rows(w, cols)[y := Rows(w, cols)[y][x := c]]
    decreases y
  {
    RowsShape(w, cols, n);
    if y == 0 {
      assert w[x := c][..cols] == w[..cols][x := c];
      assert w[x := c][cols..] == w[cols..];
    } else {
      RowsPut(w[cols..], cols, n - 1, y - 1, x, c);
      RowsPutRest(w, cols, Cells(y - 1, cols) + x, c);
    }
  }

  /** A change beyond the first row is a change in the rest. */
  lemma RowsPutRest(w: seq<Cell>, cols: nat, k: nat, c: Cell)
    requires cols >= 1 && cols + k < |w|
    ensures Rows(w[cols + k := c], cols) == [w[..cols]] + Rows(w[cols..][k := c], cols)
  {
    var put := w[cols + k := c];
    assert put[..cols] == w[..cols];
    assert put[cols..] == w[cols..][k := c];
  }

  lemma MulLe(a: int, b: int, c: int)
    requires a <= b && c >= 0
    ensures a * c <= b * c
  {
  }

  lemma {:induction false} RowsScroll(w: seq<Cell>, cols: nat, n: nat, blank: seq<Cell>)
    requires cols >= 1 && |w| == Cells(n, cols) && n >= 1 && |blank| == cols
    ensures |w| >= cols && Rows(w[cols..] + blank, cols) == Rows(w, cols)[1..] + [blank]
    decreases n
  {
    var rest := w[cols..];
    if n == 1 {
      assert rest + blank == blank;
      assert blank[..cols] == blank && blank[cols..] == [];
      assert Rows(blank, cols) == [blank] + Rows([], cols);
    } else {
      RowsScroll(rest, cols, n - 1, blank);
      assert (rest + blank)[..cols] == rest[..cols];
      assert (rest + blank)[cols..] == rest[cols..] + blank;
    }
  }

  // ---------- copying back ----------

  /** The first n cells from origin on are at the start, and nothing else has changed. */
  function CopiedTo(v: seq<Cell>, origin: int, n: int): seq<Cell>
    requires 0 <= n && 0 < origin && origin + n <= |v|
  {
    v[origin..origin + n] + v[n..]
  }

  lemma NothingCopied(v: seq<Cell>, origin: int)
    requires 0 < origin <= |v|
    ensures CopiedTo(v, origin, 0) == v
  {
  }

  lemma CopiedTwo(v: seq<Cell>, before: seq<Cell>, after: seq<Cell>, origin: int, n: int)
    requires 0 <= n && 0 < origin && origin + n + 2 <= |v| && before == CopiedTo(v, origin, n)
    requires after == before[n := before[origin + n]][n + 1 := before[origin + n + 1]]
    ensures after == CopiedTo(v, origin, n + 2)
  {
    assert before[origin + n] == v[origin + n] && before[origin + n + 1] == v[origin + n + 1];
  }

  /** Two cells are copied at a time; of an odd number of cells the last is not copied. */
  function Restarted(v: seq<Cell>, origin: int, kept: int, cols: int): seq<Cell>
    requires 0 <= kept && 0 < origin && origin + kept <= |v| && 0 <= cols && kept + cols <= |v|
  {
    var half := kept / 2 * 2;
    v[origin..origin + half] + Blank(cols) + v[half + cols..kept + cols]
  }

  lemma RestartedIs(v: seq<Cell>, copied: seq<Cell>, erased: seq<Cell>, origin: int, kept: int, cols: int)
    requires 0 <= kept && 0 < origin && origin + kept <= |v| && 0 <= cols && kept + cols <= |v|
    requires var half := kept / 2 * 2;
      && copied == CopiedTo(v, origin, half) && erased == copied[..half] + Blank(cols) + copied[half + cols..]
    ensures erased[..kept + cols] == Restarted(v, origin, kept, cols)
  {
  }

  /** The start of video memory is what the screen ought to show. */
  ghost predicate RestartsWhole(v: seq<Cell>, origin: int, kept: int, cols: int)
    requires 0 <= kept && 0 < origin && origin + kept <= |v| && 0 <= cols && kept + cols <= |v|
  {
    Restarted(v, origin, kept, cols) == v[origin..origin + kept] + Blank(cols)
  }

  lemma RestartedWhole(v: seq<Cell>, origin: int, kept: int, cols: int)
    requires 0 <= kept && 0 < origin && origin + kept <= |v| && 0 <= cols && kept + cols <= |v| && kept % 2 == 0
    ensures RestartsWhole(v, origin, kept, cols)
  {
  }

  /** Copying back keeps every screen exactly if the rows that stay are a whole number of 32-bit words. */
  lemma RestartsWholeIff(size: nat, origin: int, kept: int, cols: int)
    requires 0 <= kept && 0 < origin && origin + kept <= size && 1 <= cols && kept + cols <= size
    ensures kept % 2 == 0 <==> forall v: seq<Cell> :: |v| == size ==> RestartsWhole(v, origin, kept, cols)
  {
    if kept % 2 == 0 {
      forall v: seq<Cell> | |v| == size ensures RestartsWhole(v, origin, kept, cols) {
        RestartedWhole(v, origin, kept, cols);
      }
    } else {
      var v := seq(size, _ => Cell(0x41, ATTR));
      assert Restarted(v, origin, kept, cols)[kept - 1] == ERASE;
      assert (v[origin..origin + kept] + Blank(cols))[kept - 1] == Cell(0x41, ATTR);
    }
  }

  // ---------- the console ----------

  /** Addresses are counted in cells from video_mem_base, so `vram.Length` stands for video_mem_term. */
  class Screen {
    const vram: array<Cell>
    var cols: int
    var lines: int
    var origin: int
    var scrEnd: int
    var pos: int
    var x: int
    var y: int

    /** Video memory of `size` cells, before `con_init`. */
    constructor (size: nat)
      ensures fresh(vram) && vram.Length == size && x == 0 && y == 0 && pos == 0
    {
      vram := new Cell[size](_ => ERASE);
      cols, lines, origin, scrEnd, pos, x, y := 0, 0, 0, 0, 0, 0, 0;
    }

    /** The geometry: a whole screen fits, and the rows that stay on a scroll are a whole number of
        32-bit words. */
    ghost predicate Sized()
      reads this
    {
      cols >= 1 && lines >= 1 && lines * cols <= vram.Length && (lines - 1) * cols % 2 == 0
    }

    ghost predicate Windowed()
      reads this
    {
      Sized() && 0 <= origin && scrEnd == origin + lines * cols && scrEnd <= vram.Length
    }

    /** The cursor address is that of the cursor's row and column. */
    ghost predicate Valid()
      reads this
    {
      Windowed() && 0 <= x <= cols && 0 <= y < lines && pos == origin + y * cols + x
    }

    /** What the screen shows. */
    ghost function Abs(): Terminal
      reads this, vram
      requires Windowed()
    {
      Terminal(Rows(vram[origin..scrEnd], cols), x, y)
    }

    ghost predicate SameSize(c: int, l: int)
      reads this
    {
      cols == c && lines == l
    }

    /** `rep stosw`: cols blanks from cell `at` on. */
    method Erase(at: int)
      requires cols >= 0 && 0 <= at && at + cols <= vram.Length
      modifies vram
      ensures vram[..] == old(vram[..at]) + Blank(cols) + old(vram[at + cols..])
    {
      var i := 0;
      while i < cols
        invariant 0 <= i <= cols
        invariant forall k :: 0 <= k < vram.Length ==> vram[k] == if at <= k < at + i then ERASE else old(vram[k])
      {
        vram[at + i] := ERASE;
        i := i + 1;
      }
    }

    /** `rep movsl`: the rows that stay, two cells at a time, from `origin` down to cell 0.  The two
        areas may overlap. */
    method CopyBack(count: int)
      requires 0 <= count && 0 < origin && origin + 2 * count <= vram.Length
      modifies vram
      ensures vram[..] == CopiedTo(old(vram[..]), origin, 2 * count)
    {
      hide CopiedTo;
      ghost var was := vram[..];
      NothingCopied(was, origin);
      var ecx, edi := count, 0;
      while ecx > 0
        invariant 0 <= ecx && 0 <= edi && edi + 2 * ecx == 2 * count
        invariant vram[..] == CopiedTo(was, origin, edi)
      {
        ghost var before := vram[..];
        vram[edi], vram[edi + 1] := vram[origin + edi], vram[origin + edi + 1];
        CopiedTwo(was, before, vram[..], origin, edi);
        ecx, edi := ecx - 1, edi + 2;
      }
    }

    /** The rows that stay go to the start of video memory, with a blank line after them. */
    method Restart(kept: int)
      requires 0 <= kept && 0 < origin && origin + kept <= vram.Length && 0 <= cols && kept + cols <= vram.Length
      modifies vram
      ensures vram[..kept + cols] == Restarted(old(vram[..]), origin, kept, cols)
    {
      hide Restarted;
      ghost var was := vram[..];
      CopyBack(kept / 2);
      var edi := kept / 2 * 2;
      ghost var copied := vram[..];
      Erase(edi);
      RestartedIs(was, copied, vram[..], origin, kept, cols);
    }

    /** Slides the window one line forward, or copies it back to the start. */
    method ScrUp()
      requires Windowed()
      modifies this, vram
      ensures Windowed() && SameSize(old(cols), old(lines)) && x == old(x) && y == old(y)
      ensures pos - origin == old(pos) - old(origin)
      ensures vram[origin..scrEnd] == old(vram[origin..scrEnd])[cols..] + Blank(cols)
    {
      var kept := (lines - 1) * cols;
      KeptRows(lines, cols);
      ghost var was, from, window := vram[..], origin, vram[origin..scrEnd];
      Scroll(kept);
      assert was[from..from + kept + cols] == window;
    }

    /** The same for the `kept` cells of the rows that stay. */
    method Scroll(kept: int)
      requires 0 <= kept && kept % 2 == 0 && 1 <= cols && 0 <= origin && scrEnd == origin + kept + cols <= vram.Length
      modifies this, vram
      ensures cols == old(cols) && lines == old(lines) && x == old(x) && y == old(y)
      ensures 0 <= origin && scrEnd == origin + kept + cols <= vram.Length
      ensures pos - origin == old(pos) - old(origin)
      ensures vram[origin..scrEnd] == ScrolledWindow(old(vram[..]), old(origin), kept, cols)
    {
      hide *;
      ghost var was, from := vram[..], origin;
      origin := origin + cols;
      pos := pos + cols;
      scrEnd := scrEnd + cols;
      if scrEnd > vram.Length {
        ScrolledHome(was, from, kept, cols);
        Restart(kept);
        scrEnd := scrEnd - origin;
        pos := pos - origin;
        origin := 0;
      } else {
        Erase(scrEnd - cols);
        ScrolledOn(was, vram[..], from, kept, cols);
      }
    }

    method Lf()
      requires Windowed() && 0 <= y < lines
      modifies this, vram
      ensures Windowed() && SameSize(old(cols), old(lines)) && 0 <= y < lines
      ensures Abs() == LineFeed(old(Abs()), cols)
      ensures pos - origin - y * cols == old(pos) - old(origin) - old(y) * cols
    {
      ghost var window := vram[origin..scrEnd];
      CellsTimes(lines, cols);
      RowsShape(window, cols, lines);
      if y + 1 < lines {
        y := y + 1;
        pos := pos + cols;
        return;
      }
      ScrUp();
      RowsScroll(window, cols, lines, Blank(cols));
    }

    method Cr()
      requires Valid()
      modifies this
      ensures Valid() && SameSize(old(cols), old(lines)) && Abs() == old(Abs()).(x := 0)
    {
      pos := pos - x;
      x := 0;
    }

    /** Writes one cell at the cursor's row. */
    method PutCell(at: int, c: Cell)
      requires Windowed() && 0 <= y < lines && 0 <= at < cols && pos == origin + y * cols + at
      modifies vram
      ensures Abs() == Put(old(Abs()), at, c)
    {
      ghost var window := vram[origin..scrEnd];
      CellsTimes(lines, cols);
      CellsTimes(y, cols);
      RowsPut(window, cols, lines, y, at, c);
      vram[pos] := c;
      assert vram[origin..scrEnd] == window[y * cols + at := c];
    }

    method Del()
      requires Valid()
      modifies this, vram
      ensures Valid() && SameSize(old(cols), old(lines))
      ensures Abs() == Type(old(Abs()), 127, cols)
    {
      if x > 0 {
        pos := pos - 1;
        x := x - 1;
        PutCell(x, ERASE);
      }
    }

    method GotoXY(newX: int, newY: int)
      requires Windowed() && 0 <= newY
      modifies this
      ensures Windowed() && SameSize(old(cols), old(lines)) && origin == old(origin)
      ensures if newX < 0 || newX > cols || newY >= lines
              then x == old(x) && y == old(y) && pos == old(pos)
              else Valid() && x == newX && y == newY
    {
      if newX < 0 || newX > cols || newY >= lines {   // one unsigned comparison with cols
        return;
      }
      x := newX;
      y := newY;
      pos := origin + y * cols + x;
    }

    method PrintChar(c: int)
      requires Valid()
      modifies this, vram
      ensures Valid() && SameSize(old(cols), old(lines)) && Abs() == Type(old(Abs()), c, cols)
    {
      hide Rows;
      if c > 31 && c < 127 {
        if x >= cols {
          x := x - cols;
          pos := pos - cols;
          Lf();
        }
        PutCell(x, Cell(c, ATTR));
        pos := pos + 1;
        x := x + 1;
      } else if c == 10 || c == 11 || c == 12 {
        Lf();
        Cr();
      } else if c == 13 {
        Cr();
      } else if c == 127 {
        Del();
      } else if c == 8 {
        if x > 0 {
          x := x - 1;
          pos := pos - 1;
        }
      }
    }

    /** For every string the window shows what the plain terminal shows. */
    method ConsolePrint(buf: seq<int>)
      requires Valid()
      modifies this, vram
      ensures Valid() && SameSize(old(cols), old(lines))
      ensures Abs() == TypeAll(old(Abs()), buf, cols)
    {
      var s := 0;
      while s < |buf|
        invariant 0 <= s <= |buf| && Valid() && SameSize(old(cols), old(lines))
        invariant Abs() == TypeAll(old(Abs()), buf[..s], cols)
      {
        TypeAllSnoc(old(Abs()), buf[..s], buf[s], cols);
        assert buf[..s + 1] == buf[..s] + [buf[s]];
        PrintChar(buf[s]);
        s := s + 1;
      }
      assert buf[..s] == buf;
      GotoXY(x, y);
    }

    /** The end of `con_init`: the adapter's name in the top right corner, and the cursor two lines below
        where the BIOS left it.  That line must exist, or the cursor is lost. */
    method ConInit(numCols: int, numLines: int, origX: int, origY: int, desc: seq<int>)
      requires 4 <= numCols && 3 <= numLines && numLines * numCols <= vram.Length && (numLines - 1) * numCols % 2 == 0
      requires 0 <= origX && 0 <= origY && |desc| == 4
      requires x == 0 && y == 0 && pos == 0
      modifies this, vram
      ensures Windowed() && SameSize(numCols, numLines) && origin == 0
      ensures Valid() <==> origX > numCols || origY >= numLines || origY + 2 < numLines
      ensures Valid() ==> x == 0 && y == (if origX > numCols || origY >= numLines then 2 else origY + 2)
      ensures forall k :: 0 <= k < vram.Length ==>
        vram[k] == if numCols - 4 <= k < numCols then old(vram[k]).(ch := desc[k - (numCols - 4)]) else old(vram[k])
    {
      cols, lines := numCols, numLines;
      MulLe(1, lines, cols);
      var i := 0;
      while i < 4
        modifies vram
        invariant 0 <= i <= 4
        invariant forall k :: 0 <= k < vram.Length ==>
          vram[k] == if cols - 4 <= k < cols - 4 + i then old(vram[k]).(ch := desc[k - (cols - 4)]) else old(vram[k])
      {
        vram[cols - 4 + i] := vram[cols - 4 + i].(ch := desc[i]);
        i := i + 1;
      }
      origin := 0;
      scrEnd := lines * cols;
      GotoXY(origX, origY);
      x, y := 0, y + 2;
      GotoXY(x, y);
    }

    /** `con_init` with the 25 lines that setup.S reports: then nothing is asked of the number of columns but
        that the screen fits. */
    method Start(numCols: int, origX: int, origY: int, desc: seq<int>)
      requires 4 <= numCols && 25 * numCols <= vram.Length
      requires 0 <= origX && 0 <= origY && |desc| == 4
      requires x == 0 && y == 0 && pos == 0
      modifies this, vram
      ensures Windowed() && SameSize(numCols, 25) && origin == 0
      ensures Valid() <==> origX > numCols || origY >= 25 || origY + 2 < 25
    {
      TwentyFiveLines(numCols);
      ConInit(numCols, 25, origX, origY, desc);
    }
  }

  /** The window from `origin` on without its first row, and a blank row. */
  function ScrolledWindow(v: seq<Cell>, origin: int, kept: int, cols: int): seq<Cell>
    requires 0 <= origin && 0 <= kept && 0 <= cols && origin + kept + cols <= |v|
  {
    v[origin..origin + kept + cols][cols..] + Blank(cols)
  }

  lemma ScrolledOn(was: seq<Cell>, v: seq<Cell>, origin: int, kept: int, cols: int)
    requires 0 <= origin && 0 <= kept && 0 <= cols && origin + kept + 2 * cols <= |was|
    requires v == was[..origin + kept + cols] + Blank(cols) + was[origin + kept + 2 * cols..]
    ensures v[origin + cols..origin + kept + 2 * cols] == ScrolledWindow(was, origin, kept, cols)
  {
  }

  lemma ScrolledHome(was: seq<Cell>, origin: int, kept: int, cols: int)
    requires 0 <= origin && 0 <= kept && kept % 2 == 0 && 1 <= cols && origin + kept + cols <= |was|
    ensures Restarted(was, origin + cols, kept, cols) == ScrolledWindow(was, origin, kept, cols)
  {
    RestartedWhole(was, origin + cols, kept, cols);
    assert was[origin..origin + kept + cols][cols..] == was[origin + cols..origin + cols + kept];
  }

  lemma KeptRows(lines: int, cols: int)
    requires lines >= 1 && cols >= 1
    ensures (lines - 1) * cols + cols == lines * cols && 0 <= (lines - 1) * cols
  {
    MulLe(0, lines - 1, cols);
  }

  /** `setup.S` always reports 25 lines, so the rows that stay are always a whole number of words. */
  lemma TwentyFiveLines(cols: int)
    ensures (25 - 1) * cols % 2 == 0
  {
    assert (25 - 1) * cols == 2 * (12 * cols);
  }
}
