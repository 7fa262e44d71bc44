/** What a reader of the screen sees: the effect of each byte on cells and cursor, and how whole texts are
    laid out on the rows, over scrolling and lines longer than a row. */
module ConsoleLaws {
  import opened Console

  // ---------- single bytes ----------

  predicate IsBlank(row: seq<Cell>) {
    forall k :: 0 <= k < |row| ==> row[k] == Cell(0x20, 0x07)
  }

  /** The rows are those of t but for the cell in column x of the cursor's row. */
  ghost predicate OneCell(t: Terminal, rows: seq<seq<Cell>>, x: int, c: Cell)
    requires 0 <= t.y < |t.rows|
  {
    && |rows| == |t.rows|
    && (forall r :: 0 <= r < |rows| ==> |rows[r]| == |t.rows[r]|)
    && forall r, k :: 0 <= r < |rows| && 0 <= k < |rows[r]| ==> rows[r][k] == if r == t.y && k == x then c else t.rows[r][k]
  }

  /** The cursor is at the start of the row below; in the last row, every row has moved up instead and a
      blank one has come in. */
  ghost predicate OnNextRow(t: Terminal, u: Terminal, cols: nat) {
    && u.x == 0 && |u.rows| == |t.rows|
    && if t.y + 1 < |t.rows| then u.y == t.y + 1 && u.rows == t.rows
       else
         && u.y == t.y
         && (forall r :: 0 <= r < |t.rows| - 1 ==> u.rows[r] == t.rows[r + 1])
         && forall r :: r == |t.rows| - 1 && r >= 0 ==> |u.rows[r]| == cols && IsBlank(u.rows[r])
  }

  lemma Printing(t: Terminal, c: int, cols: nat)
    requires Grid(t, cols) && 32 <= c <= 126
    ensures var u := Type(t, c, cols);
      && (t.x < cols ==> OneCell(t, u.rows, t.x, Cell(c, 0x07)) && u.x == t.x + 1 && u.y == t.y)
      && (t.x == cols ==> u == Type(Type(t, 10, cols), c, cols))
  {
  }

  lemma MovingDown(t: Terminal, c: int, cols: nat)
    requires Grid(t, cols) && c in [10, 11, 12]
    ensures OnNextRow(t, Type(t, c, cols), cols)
  {
  }

  /** CR goes to column 0 and BS one column back, both leave the cells; DEL goes one back and blanks the
      cell there; BS and DEL do nothing in column 0; no other control byte does anything. */
  lemma Controls(t: Terminal, cols: nat)
    requires Grid(t, cols)
    ensures Type(t, 13, cols) == Terminal(t.rows, 0, t.y)
    ensures Type(t, 8, cols) == Terminal(t.rows, if t.x == 0 then 0 else t.x - 1, t.y)
    ensures t.x == 0 ==> Type(t, 127, cols) == t
    ensures t.x > 0 ==> var u := Type(t, 127, cols);
      OneCell(t, u.rows, t.x - 1, Cell(0x20, 0x07)) && u.x == t.x - 1 && u.y == t.y
    ensures forall c :: c < 8 || c == 9 || 14 <= c <= 31 || c >= 128 ==> Type(t, c, cols) == t
  {
  }

  // ---------- pages ----------

  /** A row that begins with this text. */
  function Padded(line: seq<int>, cols: nat): (row: seq<Cell>)
    ensures |row| == cols
  {
    seq(cols, k requires 0 <= k < cols => if k < |line| then Cell(line[k], 0x07) else Cell(0x20, 0x07))
  }

  /** The terminal shows the last n rows of the page, with blank rows below a shorter one, and the cursor
      is in the page's last row. */
  ghost predicate Shows(t: Terminal, page: seq<seq<Cell>>, n: nat, cols: nat) {
    && n >= 1 && |page| >= 1 && |t.rows| == n
    && t.y == (if |page| <= n then |page| else n) - 1
    && forall r :: 0 <= r < n ==> t.rows[r] == Shown(page, n, r, cols)
  }

  function Shown(page: seq<seq<Cell>>, n: nat, r: nat, cols: nat): seq<Cell>
    requires r < n
  {
    if |page| > n then page[|page| - n + r] else if r < |page| then page[r] else Padded([], cols)
  }

  predicate AllPrintable(s: seq<int>) {
    forall k :: 0 <= k < |s| ==> 32 <= s[k] <= 126
  }

  /** The lines with a line feed between each two. */
  function Joined(lines: seq<seq<int>>): seq<int>
    requires |lines| >= 1
  {
    if |lines| == 1 then lines[0] else Joined(lines[..|lines| - 1]) + [10] + lines[|lines| - 1]
  }

  function PaddedAll(lines: seq<seq<int>>, cols: nat): (rows: seq<seq<Cell>>)
    ensures |rows| == |lines|
  {
    seq(|lines|, k requires 0 <= k < |lines| => Padded(lines[k], cols))
  }

  lemma {:induction false} TypeAllAppend(t: Terminal, a: seq<int>, b: seq<int>, cols: nat)
    ensures TypeAll(t, a + b, cols) == TypeAll(TypeAll(t, a, cols), b, cols)
    decreases |a|
  {
    if a == [] {
      assert a + b == b;
    } else {
      assert (a + b)[1..] == a[1..] + b;
      TypeAllAppend(Type(t, a[0], cols), a[1..], b, cols);
    }
  }

  lemma {:induction false} TypeAllKeepsGrid(t: Terminal, s: seq<int>, cols: nat)
    requires Grid(t, cols)
    ensures Grid(TypeAll(t, s, cols), cols) && |TypeAll(t, s, cols).rows| == |t.rows|
    decreases |s|
  {
    if s != [] {
      TypeKeepsGrid(t, s[0], cols);
      TypeAllKeepsGrid(Type(t, s[0], cols), s[1..], cols);
    }
  }

  lemma FeedShows(t: Terminal, page: seq<seq<Cell>>, n: nat, cols: nat)
    requires Grid(t, cols) && Shows(t, page, n, cols)
    ensures Shows(Type(t, 10, cols), page + [Padded([], cols)], n, cols)
    ensures Type(t, 10, cols).x == 0
  {
    assert Blank(cols) == Padded([], cols);
  }

  lemma CharShows(t: Terminal, before: seq<seq<Cell>>, line: seq<int>, c: int, n: nat, cols: nat)
    requires Grid(t, cols) && Shows(t, before + [Padded(line, cols)], n, cols)
    requires t.x == |line| < cols && 32 <= c <= 126
    ensures Shows(Type(t, c, cols), before + [Padded(line + [c], cols)], n, cols)
    ensures Type(t, c, cols).x == |line| + 1
  {
    var page, u := before + [Padded(line, cols)], Type(t, c, cols);
    assert t.rows[t.y] == Padded(line, cols);
    assert u.rows[t.y] == Padded(line + [c], cols);
  }

  /** A line that fits is shown from column 0 on. */
  lemma {:induction false} LineShows(t: Terminal, before: seq<seq<Cell>>, line: seq<int>, n: nat, cols: nat)
    requires Grid(t, cols) && Shows(t, before + [Padded([], cols)], n, cols)
    requires t.x == 0 && |line| <= cols && AllPrintable(line)
    ensures var u := TypeAll(t, line, cols);
      Grid(u, cols) && Shows(u, before + [Padded(line, cols)], n, cols) && u.x == |line|
    decreases |line|
  {
    TypeAllKeepsGrid(t, line, cols);
    if |line| > 0 {
      var k := |line| - 1;
      LineShows(t, before, line[..k], n, cols);
      assert line == line[..k] + [line[k]];
      TypeAllSnoc(t, line[..k], line[k], cols);
      CharShows(TypeAll(t, line[..k], cols), before, line[..k], line[k], n, cols);
    }
  }

  /** A text whose lines fit: from a cursor in column 0, with nothing below, the rows shown are those above the
      cursor and then the lines, each from column 0 and padded with blanks; when they are more than the
      screen has, the last ones.  The cursor is behind the last line. */
  lemma {:induction false} LinesShown(t: Terminal, lines: seq<seq<int>>, cols: nat)
    requires Grid(t, cols) && t.x == 0 && |lines| >= 1
    requires forall r :: t.y <= r < |t.rows| ==> IsBlank(t.rows[r])
    requires forall k :: 0 <= k < |lines| ==> |lines[k]| <= cols && AllPrintable(lines[k])
    ensures var u := TypeAll(t, Joined(lines), cols);
      && Grid(u, cols) && u.x == |lines[|lines| - 1]|
      && Shows(u, t.rows[..t.y] + PaddedAll(lines, cols), |t.rows|, cols)
    decreases |lines|
  {
    var n, m, above := |t.rows|, |lines| - 1, t.rows[..t.y];
    var last := lines[m];
    if m == 0 {
      assert Shows(t, above + [Padded([], cols)], n, cols) by {
        forall r | t.y <= r < n ensures t.rows[r] == Padded([], cols) {
          assert IsBlank(t.rows[r]);
        }
      }
      LineShows(t, above, last, n, cols);
      assert PaddedAll(lines, cols) == [Padded(last, cols)];
    } else {
      var init := lines[..m];
      LinesShown(t, init, cols);
      var u, page := TypeAll(t, Joined(init), cols), above + PaddedAll(init, cols);
      FeedShows(u, page, n, cols);
      TypeAllSnoc(t, Joined(init), 10, cols);
      TypeKeepsGrid(u, 10, cols);
      LineShows(Type(u, 10, cols), page, last, n, cols);
      TypeAllAppend(t, Joined(init) + [10], last, cols);
      assert page + [Padded(last, cols)] == above + PaddedAll(lines, cols);
    }
  }

  // ---------- long lines ----------

  /** A line cut into rows. */
  function Cut(line: seq<int>, cols: nat): (parts: seq<seq<int>>)
    requires cols >= 1
    ensures |parts| >= 1
    decreases |line|
  {
    if |line| <= cols then [line] else [line[..cols]] + Cut(line[cols..], cols)
  }

  function CutAll(lines: seq<seq<int>>, cols: nat): (parts: seq<seq<int>>)
    requires cols >= 1
    ensures |lines| >= 1 ==> |parts| >= 1
  {
    if lines == [] then [] else CutAll(lines[..|lines| - 1], cols) + Cut(lines[|lines| - 1], cols)
  }

  /** A printable byte behind a full row continues as if a line feed came before it. */
  lemma {:induction false} RowFull(t: Terminal, line: seq<int>, cols: nat)
    requires Grid(t, cols) && t.x + |line| <= cols && AllPrintable(line)
    ensures TypeAll(t, line, cols).x == t.x + |line|
    decreases |line|
  {
    if line != [] {
      TypeKeepsGrid(t, line[0], cols);
      RowFull(Type(t, line[0], cols), line[1..], cols);
    }
  }

  lemma LongLine(t: Terminal, line: seq<int>, cols: nat)
    requires Grid(t, cols) && t.x == 0 && |line| > cols && AllPrintable(line)
    ensures TypeAll(t, line, cols) == TypeAll(t, line[..cols] + [10] + line[cols..], cols)
  {
    var head, rest := line[..cols], line[cols..];
    var u := TypeAll(t, head, cols);
    TypeAllKeepsGrid(t, head, cols);
    RowFull(t, head, cols);
    assert line == head + rest;
    TypeAllAppend(t, head, rest, cols);
    TypeAllAppend(t, head + [10], rest, cols);
    TypeAllSnoc(t, head, 10, cols);
    Printing(u, rest[0], cols);
  }

  lemma {:induction false} JoinedAppend(a: seq<seq<int>>, b: seq<seq<int>>)
    requires |a| >= 1 && |b| >= 1
    ensures Joined(a + b) == Joined(a) + [10] + Joined(b)
    decreases |b|
  {
    var m := |b| - 1;
    assert (a + b)[..|a| + m] == a + b[..m];
    if m == 0 {
      assert a + b[..0] == a;
    } else {
      JoinedAppend(a, b[..m]);
      assert Joined(a) + [10] + Joined(b[..m]) + [10] + b[m] == Joined(a) + [10] + (Joined(b[..m]) + [10] + b[m]);
    }
  }

  lemma {:induction false} CutLine(t: Terminal, line: seq<int>, cols: nat)
    requires Grid(t, cols) && t.x == 0 && AllPrintable(line)
    ensures TypeAll(t, line, cols) == TypeAll(t, Joined(Cut(line, cols)), cols)
    ensures forall k :: 0 <= k < |Cut(line, cols)| ==> |Cut(line, cols)[k]| <= cols && AllPrintable(Cut(line, cols)[k])
    decreases |line|
  {
    if |line| > cols {
      var head, rest := line[..cols], line[cols..];
      LongLine(t, line, cols);
      JoinedAppend([head], Cut(rest, cols));
      var u := TypeAll(t, head + [10], cols);
      TypeAllAppend(t, head + [10], rest, cols);
      TypeAllAppend(t, head + [10], Joined(Cut(rest, cols)), cols);
      TypeAllSnoc(t, head, 10, cols);
      TypeAllKeepsGrid(t, head + [10], cols);
      CutLine(u, rest, cols);
    }
  }

  lemma {:induction false} CutLines(t: Terminal, lines: seq<seq<int>>, cols: nat)
    requires Grid(t, cols) && t.x == 0 && |lines| >= 1 && forall k :: 0 <= k < |lines| ==> AllPrintable(lines[k])
    ensures TypeAll(t, Joined(lines), cols) == TypeAll(t, Joined(CutAll(lines, cols)), cols)
    ensures forall k :: 0 <= k < |CutAll(lines, cols)| ==> |CutAll(lines, cols)[k]| <= cols && AllPrintable(CutAll(lines, cols)[k])
    decreases |lines|
  {
    var m := |lines| - 1;
    var init, last := lines[..m], lines[m];
    if m == 0 {
      CutLine(t, last, cols);
      assert CutAll(init, cols) == [];
      assert CutAll(lines, cols) == Cut(last, cols);
    } else {
      CutLines(t, init, cols);
      var before, after := Joined(init) + [10], Joined(CutAll(init, cols)) + [10];
      var u := TypeAll(t, before, cols);
      TypeAllSnoc(t, Joined(init), 10, cols);
      TypeAllSnoc(t, Joined(CutAll(init, cols)), 10, cols);
      TypeAllKeepsGrid(t, Joined(init), cols);
      TypeAllKeepsGrid(t, before, cols);
      TypeAllAppend(t, before, last, cols);
      TypeAllAppend(t, after, Joined(Cut(last, cols)), cols);
      CutLine(u, last, cols);
      JoinedAppend(CutAll(init, cols), Cut(last, cols));
    }
  }

  /** Every text of printable characters and line feeds: the rows shown are those above the cursor and then
      the lines, each cut into rows of at most `cols` characters. */
  lemma TextShown(t: Terminal, lines: seq<seq<int>>, cols: nat)
    requires Grid(t, cols) && t.x == 0 && |lines| >= 1
    requires forall r :: t.y <= r < |t.rows| ==> IsBlank(t.rows[r])
    requires forall k :: 0 <= k < |lines| ==> AllPrintable(lines[k])
    ensures var u, parts := TypeAll(t, Joined(lines), cols), CutAll(lines, cols);
      && Grid(u, cols) && u.x == |parts[|parts| - 1]|
      && Shows(u, t.rows[..t.y] + PaddedAll(parts, cols), |t.rows|, cols)
  {
    CutLines(t, lines, cols);
    LinesShown(t, CutAll(lines, cols), cols);
  }

  /** A DEL takes back the last character of a row. */
  lemma DeleteUndoes(t: Terminal, c: int, cols: nat)
    requires Grid(t, cols) && 32 <= c <= 126 && t.x < cols && t.rows[t.y][t.x] == Cell(0x20, 0x07)
    ensures Type(Type(t, c, cols), 127, cols) == t
  {
    var u := Type(Type(t, c, cols), 127, cols);
    assert u.rows[t.y] == t.rows[t.y];
    assert u.rows == t.rows;
  }
}
