/**
 A terminal emulator as an independent reference for what the line editor draws: deferred wrap,
 unbounded rows, one cell per printable rune, and the control functions CUU, CUD, CUF, CUB, CUP, ED
 and EL of ECMA-48 (sections 8.3.22, 8.3.19, 8.3.20, 8.3.18, 8.3.21, 8.3.39 and 8.3.41).
 */
module Screen {
  import opened Utf8
  import opened Wrapping

  const ESC: Rune := 0x1B
  const CR: Rune := 0x0D
  const LF: Rune := 0x0A
  const SPACE: Rune := 0x20
  const BRACKET: Rune := '[' as int

  datatype Parser = Ground | Escape | Csi(n: nat)

  datatype Screen = Screen(width: nat, row: nat, col: nat, pending: bool, parser: Parser, cells: map<(nat, nat), Rune>) {
    /** What is shown at a row and column. */
    function Cell(r: nat, c: nat): Rune {
      if (r, c) in cells then cells[(r, c)] else SPACE
    }

    function Goto(r: nat, c: nat): Screen {
      this.(row := r, col := c, pending := false, parser := Ground)
    }

    /** A printable rune: a pending wrap is carried out first; the last column leaves one pending. */
    function Print(r: Rune): Screen {
      var s := if pending then Goto(row + 1, 0) else this;
      s.(cells := s.cells[(s.row, s.col) := r],
         col := if s.col + 1 < width then s.col + 1 else s.col,
         pending := s.col + 1 >= width)
    }

    /** The control function selected by the final byte of a control sequence with parameter `n` (0: absent). */
    function Control(n: nat, final: Rune): Screen {
      var k := if n == 0 then 1 else n;
      if final == 'A' as int then Goto(if row >= k then row - k else 0, col)
      else if final == 'B' as int then Goto(row + k, col)
      else if final == 'C' as int then Goto(row, if col + k < width then col + k else if width > 0 then width - 1 else 0)
      else if final == 'D' as int then Goto(row, if col >= k then col - k else 0)
      else if final == 'H' as int then Goto(k - 1, 0)
      else if final == 'J' as int && n == 2 then this.(cells := map[], parser := Ground)
      else if final == 'K' as int && n == 0 then
        this.(cells := map p | p in cells && !(p.0 == row && p.1 >= col) :: cells[p], parser := Ground)
      else this.(parser := Ground)
    }

    function Step(r: Rune): Screen {
      match parser
      case Ground =>
        if r == ESC then this.(parser := Escape)
        else if r == CR then Goto(row, 0)
        else if r == LF then Goto(row + 1, col)
        else if r >= SPACE then Print(r)
        else this
      case Escape =>
        if r == BRACKET then this.(parser := Csi(0)) else this.(parser := Ground)
      case Csi(n) =>
        if '0' as int <= r <= '9' as int then this.(parser := Csi(10 * n + r - '0' as int))
        else if SPACE <= r < 0x40 then this
        else Control(n, r)
    }
  }

  function Interp(s: Screen, rs: seq<Rune>): Screen
    decreases |rs|
  {
    if rs == [] then s else Interp(s.Step(rs[0]), rs[1..])
  }

  lemma {:induction false} InterpAppend(s: Screen, a: seq<Rune>, b: seq<Rune>)
    ensures Interp(s, a + b) == Interp(Interp(s, a), b)
    decreases |a|
  {
    if a == [] {
      assert a + b == b;
    } else {
      assert (a + b)[0] == a[0] && (a + b)[1..] == a[1..] + b;
      InterpAppend(s.Step(a[0]), a[1..], b);
    }
  }

  // ---- Control sequences with a decimal count ----

  /** strconv.Itoa for a count. */
  function Itoa(n: nat): (ds: seq<Rune>)
    ensures ds != [] && forall i :: 0 <= i < |ds| ==> '0' as int <= ds[i] <= '9' as int
  {
    if n < 10 then ['0' as int + n] else Itoa(n / 10) + ['0' as int + n % 10]
  }

  lemma {:induction false} InterpDigits(s: Screen, n: nat)
    requires s.parser == Csi(0)
    ensures Interp(s, Itoa(n)) == s.(parser := Csi(n))
  {
    if n < 10 {
      assert Interp(s, Itoa(n)) == Interp(s.Step('0' as int + n), []);
    } else {
      var d := '0' as int + n % 10;
      InterpDigits(s, n / 10);
      InterpAppend(s, Itoa(n / 10), [d]);
      var t := s.(parser := Csi(n / 10));
      assert Interp(t, [d]) == Interp(t.Step(d), []);
      assert 10 * (n / 10) + n % 10 == n;
    }
  }

  lemma InterpCsi(s: Screen, n: nat, final: Rune)
    requires s.parser == Ground && final >= 0x40
    ensures Interp(s, [ESC, BRACKET] + Itoa(n) + [final]) == s.Control(n, final)
    ensures Interp(s, [ESC, BRACKET, final]) == s.Control(0, final)
  {
    var t := s.(parser := Csi(0));
    assert Interp(s, [ESC, BRACKET]) == t by {
      assert [ESC, BRACKET][1..] == [BRACKET];
      assert s.Step(ESC).Step(BRACKET) == t;
      assert Interp(s.Step(ESC), [BRACKET]) == Interp(t, []);
    }
    InterpDigits(t, n);
    var u := t.(parser := Csi(n));
    InterpAppend(s, [ESC, BRACKET], Itoa(n));
    InterpAppend(s, [ESC, BRACKET] + Itoa(n), [final]);
    InterpAppend(s, [ESC, BRACKET], [final]);
    assert [ESC, BRACKET] + [final] == [ESC, BRACKET, final];
    assert Interp(u, [final]) == Interp(u.Step(final), []) == s.Control(n, final);
    assert Interp(t, [final]) == Interp(t.Step(final), []) == s.Control(0, final);
  }

  // ---- Linear positions: cell number i of a text that starts at the left edge of row `top` ----

  /** The rune shown at cell number `i` below `top`. */
  function Shown(s: Screen, top: nat, i: nat): Rune
    requires s.width > 0
  {
    s.Cell(top + Row(i, s.width), Col(i, s.width))
  }

  predicate AtPos(s: Screen, top: nat, i: nat) {
    && s.width > 0
    && s.parser == Ground
    && !s.pending
    && s.row == top + Row(i, s.width)
    && s.col == Col(i, s.width)
  }

  /** The cursor rests in the last column after cell `i - 1`, with the wrap still pending. */
  predicate AtWrap(s: Screen, top: nat, i: nat) {
    && s.width > 0 && i > 0
    && s.parser == Ground
    && s.pending
    && Col(i, s.width) == 0
    && s.row + 1 == top + Row(i, s.width)
    && s.col == s.width - 1
  }

  predicate Glyphs(rs: seq<Rune>) {
    forall i :: 0 <= i < |rs| ==> rs[i] >= SPACE
  }

  /** From `s` to `t` exactly the cells i .. i + |rs| below `top`, and none above it, were overwritten, by `rs`. */
  ghost predicate Drawn(s: Screen, t: Screen, top: nat, i: nat, rs: seq<Rune>) {
    && s.width > 0
    && t.width == s.width
    && (forall j: nat :: Shown(t, top, j) == if i <= j < i + |rs| then rs[j - i] else Shown(s, top, j))
    && (forall r: nat, c: nat :: r < top ==> t.Cell(r, c) == s.Cell(r, c))
  }

  lemma DrawnNothing(s: Screen, t: Screen, top: nat, i: nat)
    requires s.width > 0 && t.width == s.width && t.cells == s.cells
    ensures Drawn(s, t, top, i, [])
  {
  }

  lemma DrawnThen(s: Screen, t: Screen, u: Screen, top: nat, i: nat, a: seq<Rune>, b: seq<Rune>)
    requires Drawn(s, t, top, i, a) && Drawn(t, u, top, i + |a|, b)
    ensures Drawn(s, u, top, i, a + b)
  {
    var ab := a + b;
    forall j: nat
      ensures Shown(u, top, j) == if i <= j < i + |ab| then ab[j - i] else Shown(s, top, j)
    {
      assert Shown(t, top, j) == if i <= j < i + |a| then a[j - i] else Shown(s, top, j);
    }
  }

  lemma PrintOne(s: Screen, top: nat, i: nat, r: Rune)
    requires AtPos(s, top, i) || AtWrap(s, top, i)
    requires r >= SPACE
    ensures var t := s.Step(r);
            && Drawn(s, t, top, i, [r])
            && (if Col(i + 1, s.width) == 0 then AtWrap(t, top, i + 1) else AtPos(t, top, i + 1))
  {
    var t := s.Step(r);
    var w := s.width;
    RowColNext(i, w);
    assert t.cells == s.cells[(top + Row(i, w), Col(i, w)) := r];
    forall j: nat
      ensures Shown(t, top, j) == if i <= j < i + 1 then r else Shown(s, top, j)
    {
      if Row(i, w) == Row(j, w) && Col(i, w) == Col(j, w) {
        RowColInjective(i, j, w);
      }
    }
  }

  lemma {:induction false} PrintGlyphs(s: Screen, top: nat, i: nat, rs: seq<Rune>)
    requires AtPos(s, top, i) || AtWrap(s, top, i)
    requires Glyphs(rs)
    ensures var t := Interp(s, rs);
            && Drawn(s, t, top, i, rs)
            && (if rs == [] then t == s
                else if Col(i + |rs|, s.width) == 0 then AtWrap(t, top, i + |rs|)
                else AtPos(t, top, i + |rs|))
    decreases |rs|
  {
    if rs == [] {
      DrawnNothing(s, s, top, i);
    } else {
      var t := s.Step(rs[0]);
      PrintOne(s, top, i, rs[0]);
      PrintGlyphs(t, top, i + 1, rs[1..]);
      DrawnThen(s, t, Interp(s, rs), top, i, [rs[0]], rs[1..]);
      assert [rs[0]] + rs[1..] == rs;
    }
  }

  /** The carriage return and line feed sent after the last column carry out the pending wrap. */
  lemma WrapByNewline(s: Screen, top: nat, i: nat)
    requires AtWrap(s, top, i)
    ensures AtPos(Interp(s, [CR, LF]), top, i)
    ensures Drawn(s, Interp(s, [CR, LF]), top, i, [])
  {
    InterpNewline(s);
    DrawnNothing(s, Interp(s, [CR, LF]), top, i);
  }

  lemma InterpNewline(s: Screen)
    requires s.parser == Ground
    ensures Interp(s, [CR, LF]) == s.Goto(s.row + 1, 0)
  {
    assert [CR, LF][1..] == [LF];
    assert Interp(s.Step(CR), [LF]) == Interp(s.Step(CR).Step(LF), []);
  }
}
