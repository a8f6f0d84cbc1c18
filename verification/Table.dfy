/** Column widths and truncated cells of the pod table. */
module Table {
  import opened Utf8

  type Text = seq<byte>

  /** FieldsSize: fixed width, minimum, maximum; 0 is "none". */
  datatype Limits = Limits(size: int, min: int, max: int)

  datatype Policy = TruncSuffix | TruncPrefix | TruncMiddle | OtherPolicy

  const ELLIPSIS: Text := [0x2E, 0x2E, 0x2E]

  // ---- Maps read as Go reads them ----

  function Get(m: map<string, int>, k: string): int {
    if k in m then m[k] else 0
  }

  function LimitsOf(m: map<string, Limits>, k: string): Limits {
    if k in m then m[k] else Limits(0, 0, 0)
  }

  ghost function Sum(m: map<string, int>): int {
    if m == map[] then 0
    else
      var k :| k in m;
      m[k] + Sum(m - {k})
  }

  /** The sum does not depend on the order in which keys are taken. */
  lemma {:induction false} SumWithout(m: map<string, int>, k: string)
    requires k in m
    ensures Sum(m) == m[k] + Sum(m - {k})
    decreases |m|
  {
    var j :| j in m && Sum(m) == m[j] + Sum(m - {j});
    if j != k {
      SumWithout(m - {j}, k);
      SumWithout(m - {k}, j);
      assert m - {j} - {k} == m - {k} - {j};
    }
  }

  lemma SumUpdate(m: map<string, int>, k: string, v: int)
    ensures Sum(m[k := v]) == Sum(m) - Get(m, k) + v
  {
    var u := m[k := v];
    SumWithout(u, k);
    if k in m {
      SumWithout(m, k);
      assert u - {k} == m - {k};
    } else {
      assert u - {k} == m;
    }
  }

  // ---- Natural widths ----

  function Max(a: int, b: int): int {
    if a > b then a else b
  }

  function Min(a: int, b: int): int {
    if a < b then a else b
  }

  /** The widest value of a column, -1 if no row has one. */
  function ColumnMax(data: seq<map<string, Text>>, name: string): (w: int)
    ensures w >= -1
  {
    if data == [] then -1
    else
      var last := data[|data| - 1];
      Max(ColumnMax(data[..|data| - 1], name), if name in last then |last[name]| else -1)
  }

  ghost predicate Measured(widest: map<string, int>, fields: seq<string>, data: seq<map<string, Text>>) {
    && (forall k :: k in widest <==> k in fields && ColumnMax(data, k) >= 0)
    && (forall k :: k in widest ==> widest[k] == ColumnMax(data, k))
  }

  function Natural(l: Limits, widest: int): int {
    if l.size != 0 then l.size
    else if l.max != 0 && widest > l.max then l.max
    else if l.min != 0 && widest < l.min then l.min
    else widest
  }

  /** fieldsSize before any redistribution. */
  ghost function NaturalSizes(fields: seq<string>, limits: map<string, Limits>, data: seq<map<string, Text>>): map<string, int> {
    map k | k in fields && ColumnMax(data, k) >= 0 :: Natural(LimitsOf(limits, k), ColumnMax(data, k))
  }

  // ---- Redistribution ----

  predicate Adjustable(l: Limits, step: int, width: int) {
    l.size == 0 && if step == 1 then l.max == 0 || width < l.max else width > l.min
  }

  /** How far a column of width `w` has moved when every column still adjustable moved once in each of n rounds. */
  function Share(l: Limits, step: int, w: int, n: nat): (d: nat)
    ensures d <= n
  {
    if l.size != 0 then 0
    else if step == 1 then (if l.max == 0 then n else Min(n, Max(0, l.max - w)))
    else Min(n, Max(0, w - l.min))
  }

  /** The width after n rounds of a column that starts at w. */
  function WidthAt(l: Limits, step: int, w: int, n: nat): int {
    w + step * Share(l, step, w, n)
  }

  /** Each column moved as in n or in n + 1 rounds, and nothing else changed. */
  ghost predicate Filled(init: map<string, int>, limits: map<string, Limits>, step: int, sizes: map<string, int>, n: nat) {
    && sizes.Keys <= init.Keys + limits.Keys
    && (forall k :: k in init && k !in limits ==> Get(sizes, k) == init[k])
    && (forall k :: k in limits ==>
          || Get(sizes, k) == WidthAt(limits[k], step, Get(init, k), n)
          || Get(sizes, k) == WidthAt(limits[k], step, Get(init, k), n + 1))
  }

  ghost predicate Balanced(init: map<string, int>, limits: map<string, Limits>, total: int, sizes: map<string, int>) {
    var step := if total < Sum(init) then -1 else 1;
    && (exists n: nat :: Filled(init, limits, step, sizes, n))
    && (if step == 1 then Sum(sizes) <= total else Sum(sizes) >= total)
    && (Sum(sizes) == total || forall k :: k in limits ==> !Adjustable(limits[k], step, Get(sizes, k)))
  }

  /** Columns are exactly at n rounds. */
  ghost predicate AtRound(init: map<string, int>, limits: map<string, Limits>, step: int, sizes: map<string, int>, n: nat) {
    && sizes.Keys <= init.Keys + limits.Keys
    && (forall k :: k in init && k !in limits ==> Get(sizes, k) == init[k])
    && (forall k :: k in limits ==> Get(sizes, k) == WidthAt(limits[k], step, Get(init, k), n))
  }

  lemma ShareStep(l: Limits, step: int, w: int, n: nat)
    requires step == 1 || step == -1
    ensures var here := w + step * Share(l, step, w, n);
            Share(l, step, w, n + 1) == Share(l, step, w, n) + if Adjustable(l, step, here) then 1 else 0
  {
  }

  class WrapperTable {
    var labels: seq<string>
    var fields: seq<string>
    var limits: map<string, Limits>
    var data: seq<map<string, Text>>
    var totalWidth: int        // TotalSize
    var policy: Policy
    var totalSize: int
    var paddingSize: int
    var bolderSize: int
    var fieldsSize: map<string, int>

    /** The widest value per column, over rows and then fields. */
    method MeasureData() returns (widest: map<string, int>)
      ensures Measured(widest, fields, data)
    {
      widest := map[];
      for i := 0 to |data|
        invariant Measured(widest, fields, data[..i])
      {
        assert data[..i + 1][..i] == data[..i] && data[..i + 1][i] == data[i];
        widest := MeasureRow(data[i], widest);
      }
      assert data[..|data|] == data;
    }

    method MeasureRow(row: map<string, Text>, sofar: map<string, int>) returns (widest: map<string, int>)
      requires forall k :: k in sofar ==> sofar[k] >= 0
      ensures forall k :: k in widest <==> k in sofar || (k in fields && k in row)
      ensures forall k :: k in widest ==>
                widest[k] == Max(if k in sofar then sofar[k] else -1, if k in fields && k in row then |row[k]| else -1)
    {
      widest := sofar;
      for j := 0 to |fields|
        invariant forall k :: k in widest <==> k in sofar || (k in fields[..j] && k in row)
        invariant forall k :: k in widest ==>
                    widest[k] == Max(if k in sofar then sofar[k] else -1, if k in fields[..j] && k in row then |row[k]| else -1)
      {
        var name := fields[j];
        assert fields[..j + 1] == fields[..j] + [name];
        if name in row {
          var width := |row[name]|;
          if name !in widest || width > widest[name] {
            widest := widest[name := width];
          }
        }
      }
      assert fields[..|fields|] == fields;
    }

    method NaturalWidths(widest: map<string, int>)
      requires Measured(widest, fields, data)
      modifies this`fieldsSize
      ensures fieldsSize == NaturalSizes(fields, limits, data)
    {
      fieldsSize := map[];
      var todo := widest.Keys;
      while todo != {}
        invariant todo <= widest.Keys
        invariant fieldsSize.Keys == widest.Keys - todo
        invariant forall k :: k in fieldsSize ==> fieldsSize[k] == Natural(LimitsOf(limits, k), widest[k])
      {
        var k :| k in todo;
        todo := todo - {k};
        var v, l := widest[k], LimitsOf(limits, k);
        if l.size != 0 {
          fieldsSize := fieldsSize[k := l.size];
        } else if l.max != 0 && v > l.max {
          fieldsSize := fieldsSize[k := l.max];
        } else if l.min != 0 && v < l.min {
          fieldsSize := fieldsSize[k := l.min];
        } else {
          fieldsSize := fieldsSize[k := v];
        }
      }
    }

    method AddUp() returns (calSize: int)
      ensures calSize == Sum(fieldsSize)
    {
      calSize := 0;
      var rest := fieldsSize;
      while rest != map[]
        invariant calSize + Sum(rest) == Sum(fieldsSize)
        decreases |rest|
      {
        var k :| k in rest;
        SumWithout(rest, k);
        calSize := calSize + rest[k];
        rest := rest - {k};
      }
    }

    /** canChangeCols, in whatever order the map is walked. */
    method ChangeableColumns(step: int) returns (cols: seq<string>)
      requires step == 1 || step == -1
      ensures forall i, j :: 0 <= i < j < |cols| ==> cols[i] != cols[j]
      ensures forall k :: k in cols <==> k in limits && Adjustable(limits[k], step, Get(fieldsSize, k))
    {
      cols := [];
      var todo := limits.Keys;
      while todo != {}
        invariant todo <= limits.Keys
        invariant forall i, j :: 0 <= i < j < |cols| ==> cols[i] != cols[j]
        invariant forall k :: k in cols <==> k in limits && k !in todo && Adjustable(limits[k], step, Get(fieldsSize, k))
      {
        var k :| k in todo;
        todo := todo - {k};
        var l := limits[k];
        if step == 1 {
          if l.size != 0 || (l.max != 0 && Get(fieldsSize, k) >= l.max) {
            continue;
          }
        } else {
          if l.size != 0 || Get(fieldsSize, k) <= l.min {
            continue;
          }
        }
        cols := cols + [k];
      }
    }

    /** One pass over the changeable columns, cut short when nothing is left to distribute. */
    method OneRound(step: int, left: int, cols: seq<string>, ghost init: map<string, int>, ghost n: nat) returns (delta: int)
      requires step == 1 || step == -1
      requires left > 0 && cols != []
      requires forall i, j :: 0 <= i < j < |cols| ==> cols[i] != cols[j]
      requires forall k :: k in cols <==> k in limits && Adjustable(limits[k], step, Get(fieldsSize, k))
      requires AtRound(init, limits, step, fieldsSize, n)
      modifies this`fieldsSize
      ensures 0 <= delta < left
      ensures Sum(fieldsSize) + step * delta == old(Sum(fieldsSize)) + step * left
      ensures Filled(init, limits, step, fieldsSize, n)
      ensures delta > 0 ==> AtRound(init, limits, step, fieldsSize, n + 1)
    {
      hide Filled, AtRound, Adjustable, Share, Sum;
      ghost var before := fieldsSize;
      ghost var done;
      delta, done := MoveColumns(step, left, cols);
      MovedInRound(init, limits, step, before, fieldsSize, n, cols, done);
    }

    /** fieldsSize[k] += step; delta--; until delta is used up. */
    method MoveColumns(step: int, left: int, cols: seq<string>) returns (delta: int, ghost done: seq<string>)
      requires left > 0 && cols != []
      requires forall i, j :: 0 <= i < j < |cols| ==> cols[i] != cols[j]
      modifies this`fieldsSize
      ensures 0 <= delta < left && done <= cols
      ensures delta > 0 ==> done == cols
      ensures Sum(fieldsSize) + step * delta == old(Sum(fieldsSize)) + step * left
      ensures fieldsSize.Keys <= old(fieldsSize.Keys) + set k | k in cols
      ensures forall k :: Get(fieldsSize, k) == Get(old(fieldsSize), k) + if k in done then step else 0
    {
      hide Sum;
      delta, done := left, [];
      var i := 0;
      while i < |cols|
        invariant i == |done| && done <= cols && delta == left - i && delta > 0
        invariant Sum(fieldsSize) + step * delta == old(Sum(fieldsSize)) + step * left
        invariant fieldsSize.Keys <= old(fieldsSize.Keys) + set k | k in cols
        invariant forall k :: Get(fieldsSize, k) == Get(old(fieldsSize), k) + if k in done then step else 0
      {
        var k := cols[i];
        SumUpdate(fieldsSize, k, Get(fieldsSize, k) + step);
        fieldsSize := fieldsSize[k := Get(fieldsSize, k) + step];
        assert step * delta == step * (delta - 1) + step;
        delta := delta - 1;
        done, i := done + [k], i + 1;
        if delta == 0 {
          break;
        }
      }
    }

    method Redistribute(step: int, left: nat)
      requires step == 1 || step == -1
      modifies this`fieldsSize
      ensures exists n: nat :: Filled(old(fieldsSize), limits, step, fieldsSize, n)
      ensures step * (old(Sum(fieldsSize)) + step * left - Sum(fieldsSize)) >= 0
      ensures || Sum(fieldsSize) == old(Sum(fieldsSize)) + step * left
              || forall k :: k in limits ==> !Adjustable(limits[k], step, Get(fieldsSize, k))
    {
      var delta: int := left;
      ghost var init, n := fieldsSize, 0;
      while delta > 0
        invariant delta >= 0
        invariant Sum(fieldsSize) + step * delta == Sum(init) + step * left
        invariant delta > 0 ==> AtRound(init, limits, step, fieldsSize, n)
        invariant Filled(init, limits, step, fieldsSize, n)
        decreases delta
      {
        var cols := ChangeableColumns(step);
        if |cols| == 0 {
          break;
        }
        delta := OneRound(step, delta, cols, init, n);
        if delta > 0 {
          n := n + 1;
        }
      }
    }

    method CalculateColumnsSize()
      modifies this`fieldsSize, this`totalSize
      ensures var natural := NaturalSizes(fields, limits, data);
              if totalWidth == 0 then fieldsSize == natural && totalSize == Sum(natural)
              else
                && totalSize == totalWidth - |fields| * 2 * paddingSize - (|fields| + 1) * bolderSize
                && Balanced(natural, limits, totalSize, fieldsSize)
                && (totalSize == Sum(natural) ==> fieldsSize == natural)
    {
      var widest := MeasureData();
      NaturalWidths(widest);
      ghost var natural := fieldsSize;
      var calSize := AddUp();
      if totalWidth == 0 {
        totalSize := calSize;
        return;
      }
      totalSize := totalWidth - |fields| * 2 * paddingSize - (|fields| + 1) * bolderSize;
      var delta := totalSize - calSize;
      if delta == 0 {
        assert Filled(natural, limits, 1, fieldsSize, 0);
        return;
      }
      var step := 1;
      if delta < 0 {
        step := -1;
      }
      Redistribute(step, Abs(delta));
    }

    method ConvertDataToSlice() returns (rows: seq<seq<Text>>)
      ensures |rows| == |data|
      ensures forall i :: 0 <= i < |rows| ==> RowShown(rows[i], data[i], fields, fieldsSize, policy)
      ensures forall i :: 0 <= i < |rows| ==> RowMeans(rows[i], data[i], fields, fieldsSize, policy)
    {
      hide RowShown, RowMeans;
      rows := [];
      for i := 0 to |data|
        invariant |rows| == i
        invariant forall j :: 0 <= j < i ==> RowShown(rows[j], data[j], fields, fieldsSize, policy)
        invariant forall j :: 0 <= j < i ==> RowMeans(rows[j], data[j], fields, fieldsSize, policy)
      {
        var row := ConvertRow(data[i]);
        ShownMeans(row, data[i], fields, fieldsSize, policy);
        rows := rows + [row];
      }
    }

    method ConvertRow(values: map<string, Text>) returns (row: seq<Text>)
      ensures RowShown(row, values, fields, fieldsSize, policy)
    {
      hide Cell;
      row := [];
      for m := 0 to |fields|
        invariant |row| == m
        invariant forall j :: 0 <= j < m ==> row[j] == Cell(ValueOf(values, fields[j]), Get(fieldsSize, fields[j]), policy)
      {
        var cell := FitCell(ValueOf(values, fields[m]), Get(fieldsSize, fields[m]));
        row := row + [cell];
      }
    }

    /** The body of the inner loop of convertDataToSlice. */
    method FitCell(value: Text, columSize: int) returns (cell: Text)
      ensures cell == Cell(value, columSize, policy)
    {
      hide ValidPart;
      if |value| <= columSize {
        return value;
      }
      match policy
      case TruncSuffix =>
        var p := GetValidString(value, columSize - 3, true);
        cell := p + ELLIPSIS;
      case TruncPrefix =>
        var q := GetValidString(value, |value| - columSize - 3, false);
        cell := ELLIPSIS + q;
      case TruncMiddle =>
        var midValue := HalfTowardZero(columSize - 3);
        var p := GetValidString(value, midValue, true);
        var q := GetValidString(value, |value| - midValue, false);
        cell := p + ELLIPSIS + q;
      case OtherPolicy =>
        cell := [];
    }
  }

  // ---- What the natural width means ----

  lemma {:induction false} WidestValue(data: seq<map<string, Text>>, k: string)
    ensures var w := ColumnMax(data, k);
            && (forall i :: 0 <= i < |data| && k in data[i] ==> |data[i][k]| <= w)
            && (w >= 0 <==> exists i :: 0 <= i < |data| && k in data[i])
            && (w >= 0 ==> exists i :: 0 <= i < |data| && k in data[i] && |data[i][k]| == w)
  {
    if data != [] {
      var init, last := data[..|data| - 1], data[|data| - 1];
      WidestValue(init, k);
      assert forall i :: 0 <= i < |init| ==> init[i] == data[i];
      assert data[|data| - 1] == last;
    }
  }

  /**
   A column with data gets its fixed size if it has one, and else the width of its widest value, moved to the nearer
   bound if it lies outside its bounds; 0 is no bound. Columns without data get no width.
   */
  lemma NaturalMeans(fields: seq<string>, limits: map<string, Limits>, data: seq<map<string, Text>>, k: string)
    ensures var sizes := NaturalSizes(fields, limits, data);
            && (k in sizes <==> k in fields && exists i :: 0 <= i < |data| && k in data[i])
            && (k in sizes ==>
                  var l := if k in limits then limits[k] else Limits(0, 0, 0);
                  && (l.size != 0 ==> sizes[k] == l.size)
                  && (l.size == 0 ==>
                        exists i :: 0 <= i < |data| && k in data[i]
                          && (forall j :: 0 <= j < |data| && k in data[j] ==> |data[j][k]| <= |data[i][k]|)
                          && Clamped(sizes[k], |data[i][k]|, l.min, l.max)))
  {
    WidestValue(data, k);
    if k in fields && ColumnMax(data, k) >= 0 {
      var i :| 0 <= i < |data| && k in data[i] && |data[i][k]| == ColumnMax(data, k);
      assert Clamped(Natural(LimitsOf(limits, k), |data[i][k]|), |data[i][k]|, LimitsOf(limits, k).min, LimitsOf(limits, k).max)
             || LimitsOf(limits, k).size != 0;
    }
  }

  /** `w` is `widest`, or the bound it is beyond; beyond both, the upper one. */
  predicate Clamped(w: int, widest: int, min: int, max: int) {
    var over, under := max != 0 && widest > max, min != 0 && widest < min;
    (over ==> w == max) && (!over && under ==> w == min) && (!over && !under ==> w == widest)
  }

  // ---- What a balanced allocation means ----

  /** At the end the width is used up exactly, or no column can give or take any more. */
  lemma BalancedExit(init: map<string, int>, limits: map<string, Limits>, total: int, sizes: map<string, int>, k: string)
    requires Balanced(init, limits, total, sizes) && Sum(sizes) != total && k in limits && limits[k].size == 0
    ensures total > Sum(init) ==> Sum(sizes) < total && limits[k].max != 0 && Get(sizes, k) >= limits[k].max
    ensures total < Sum(init) ==> Sum(sizes) > total && Get(sizes, k) <= limits[k].min
  {
    assert !Adjustable(limits[k], if total < Sum(init) then -1 else 1, Get(sizes, k));
  }

  /** Fixed columns and columns without limits keep their width, and no column is pushed past its bounds. */
  lemma BalancedBounds(init: map<string, int>, limits: map<string, Limits>, total: int, sizes: map<string, int>, k: string)
    requires Balanced(init, limits, total, sizes)
    ensures var l, w, w' := LimitsOf(limits, k), Get(init, k), Get(sizes, k);
            && (k !in limits || l.size != 0 ==> w' == w)
            && (total >= Sum(init) ==> w <= w' && (w' > w && l.max != 0 ==> w' <= l.max))
            && (total < Sum(init) ==> w' <= w && (w' < w ==> w' >= l.min))
  {
    var step := if total < Sum(init) then -1 else 1;
    var n: nat :| Filled(init, limits, step, sizes, n);
    assert Filled(init, limits, step, sizes, n);
  }

  /** Columns that could still be adjusted at the end moved by amounts that differ by at most one. */
  lemma BalancedFair(init: map<string, int>, limits: map<string, Limits>, total: int, sizes: map<string, int>, j: string, k: string)
    requires Balanced(init, limits, total, sizes)
    requires j in limits && k in limits
    requires var step := if total < Sum(init) then -1 else 1;
             Adjustable(limits[j], step, Get(sizes, j)) && Adjustable(limits[k], step, Get(sizes, k))
    ensures -1 <= (Get(sizes, j) - Get(init, j)) - (Get(sizes, k) - Get(init, k)) <= 1
  {
    var step := if total < Sum(init) then -1 else 1;
    var n: nat :| Filled(init, limits, step, sizes, n);
    assert Filled(init, limits, step, sizes, n);
    StillAdjustable(limits[j], step, Get(init, j), Get(sizes, j), n);
    StillAdjustable(limits[k], step, Get(init, k), Get(sizes, k), n);
  }

  lemma StillAdjustable(l: Limits, step: int, w: int, w': int, n: nat)
    requires step == 1 || step == -1
    requires w' == w + step * Share(l, step, w, n) || w' == w + step * Share(l, step, w, n + 1)
    requires Adjustable(l, step, w')
    ensures w' == w + step * n || w' == w + step * (n + 1)
  {
  }

  /** A column at its bound moved no further than the columns that could go on. */
  lemma BalancedCapped(init: map<string, int>, limits: map<string, Limits>, total: int, sizes: map<string, int>, j: string, k: string)
    requires Balanced(init, limits, total, sizes)
    requires j in limits && k in limits
    requires var step := if total < Sum(init) then -1 else 1;
             Adjustable(limits[k], step, Get(sizes, k))
    ensures Abs(Get(sizes, j) - Get(init, j)) <= Abs(Get(sizes, k) - Get(init, k)) + 1
  {
    var step := if total < Sum(init) then -1 else 1;
    var n: nat :| Filled(init, limits, step, sizes, n);
    assert Filled(init, limits, step, sizes, n);
    StillAdjustable(limits[k], step, Get(init, k), Get(sizes, k), n);
  }

  function Abs(x: int): (r: nat)
    ensures r == x || r == -x
  {
    if x < 0 then -x else x
  }

  /** A column that can go on is one step further in the next round, any other is where it was. */
  lemma WidthStep(l: Limits, step: int, w: int, n: nat)
    requires step == 1 || step == -1
    ensures WidthAt(l, step, w, n + 1) == WidthAt(l, step, w, n) + if Adjustable(l, step, WidthAt(l, step, w, n)) then step else 0
  {
    ShareStep(l, step, w, n);
  }

  /** After one pass over `done`, a part of the changeable columns, each column is at round n or n + 1. */
  lemma MovedInRound(init: map<string, int>, limits: map<string, Limits>, step: int,
                     before: map<string, int>, sizes: map<string, int>, n: nat, cols: seq<string>, done: seq<string>)
    requires step == 1 || step == -1
    requires AtRound(init, limits, step, before, n)
    requires forall k :: k in cols <==> k in limits && Adjustable(limits[k], step, Get(before, k))
    requires forall k :: k in done ==> k in cols
    requires sizes.Keys <= before.Keys + limits.Keys
    requires forall k :: Get(sizes, k) == Get(before, k) + if k in done then step else 0
    ensures Filled(init, limits, step, sizes, n)
    ensures done == cols ==> AtRound(init, limits, step, sizes, n + 1)
  {
    hide WidthAt, Adjustable;
    forall k | k in limits
      ensures Get(sizes, k) == WidthAt(limits[k], step, Get(init, k), if k in done then n + 1 else n)
      ensures k !in cols ==> WidthAt(limits[k], step, Get(init, k), n + 1) == WidthAt(limits[k], step, Get(init, k), n)
    {
      WidthStep(limits[k], step, Get(init, k), n);
    }
  }

  // ---- Truncated cells ----

  function ValueOf(row: map<string, Text>, name: string): Text {
    if name in row then row[name] else []
  }

  /** Go's division by two. */
  function HalfTowardZero(x: int): int {
    if x >= 0 then x / 2 else -((-x) / 2)
  }

  /** The longest well-formed prefix of at most `position` bytes, by its length. */
  function PrefixEnd(s: Text, position: nat): (n: nat)
    requires position <= |s|
    ensures n <= position && Valid(s[..n])
    ensures forall m :: n < m <= position ==> !Valid(s[..m])
  {
    if Valid(s[..position]) then position
    else
      assert position > 0;
      PrefixEnd(s, position - 1)
  }

  /** The longest well-formed suffix starting at `position` or later, by its start. */
  function SuffixStart(s: Text, position: nat): (n: nat)
    requires position <= |s|
    ensures position <= n <= |s| && Valid(s[n..])
    ensures forall m :: position <= m < n ==> !Valid(s[m..])
    decreases |s| - position
  {
    if Valid(s[position..]) then position
    else
      assert position < |s|;
      SuffixStart(s, position + 1)
  }

  function ValidPart(s: Text, position: int, positive: bool): Text {
    if !(0 <= position <= |s|) then []
    else if positive then s[..PrefixEnd(s, position)]
    else s[SuffixStart(s, position)..]
  }

  /** A part that is not well-formed is that of the position one further. */
  lemma ValidPartStep(s: Text, position: int, positive: bool)
    requires 0 <= position <= |s|
    ensures positive && Valid(s[..position]) ==> ValidPart(s, position, positive) == s[..position]
    ensures positive && !Valid(s[..position]) ==> position > 0 && ValidPart(s, position, positive) == ValidPart(s, position - 1, positive)
    ensures !positive && Valid(s[position..]) ==> ValidPart(s, position, positive) == s[position..]
    ensures !positive && !Valid(s[position..]) ==> position < |s| && ValidPart(s, position, positive) == ValidPart(s, position + 1, positive)
  {
  }

  lemma OutsideIsEmpty(s: Text, position: int, positive: bool)
    ensures !(0 <= position <= |s|) ==> ValidPart(s, position, positive) == []
  {
  }

  method GetValidString(s: Text, start: int, positive: bool) returns (part: Text)
    ensures part == ValidPart(s, start, positive)
  {
    hide Valid, ValidPart;
    var position := start;
    OutsideIsEmpty(s, position, positive);
    while 0 <= position <= |s|
      invariant 0 <= start <= |s| ==> 0 <= position <= |s|
      invariant !(0 <= start <= |s|) ==> position == start
      invariant 0 <= position <= |s| ==> ValidPart(s, position, positive) == ValidPart(s, start, positive)
      decreases if positive then position else |s| - position
    {
      ValidPartStep(s, position, positive);
      if positive {
        if Valid(s[..position]) {
          return s[..position];
        }
        position := position - 1;
      } else {
        if Valid(s[position..]) {
          return s[position..];
        }
        position := position + 1;
      }
    }
    return [];
  }

  /** A cell of the table. */
  function Cell(value: Text, columSize: int, policy: Policy): Text {
    if |value| <= columSize then value
    else
      match policy
      case TruncSuffix => ValidPart(value, columSize - 3, true) + ELLIPSIS
      case TruncPrefix => ELLIPSIS + ValidPart(value, |value| - columSize - 3, false)
      case TruncMiddle =>
        var mid := HalfTowardZero(columSize - 3);
        ValidPart(value, mid, true) + ELLIPSIS + ValidPart(value, |value| - mid, false)
      case OtherPolicy => []
  }

  predicate RowShown(row: seq<Text>, data: map<string, Text>, fields: seq<string>, sizes: map<string, int>, policy: Policy) {
    |row| == |fields| &&
    forall j :: 0 <= j < |fields| ==> row[j] == Cell(ValueOf(data, fields[j]), Get(sizes, fields[j]), policy)
  }

  /**
   What a cell shows of its value, and nothing of one that is missing: all of it if it fits, nothing if it does not and
   no policy is set; and cut at the end or in the middle it is well-formed and never wider than a column of three or more.
   */
  predicate CellMeans(cell: Text, row: map<string, Text>, name: string, width: int, policy: Policy) {
    && (name in row && |row[name]| <= width ==> cell == row[name])
    && (name !in row && width >= 0 ==> cell == [])
    && (name in row && |row[name]| > width && policy == OtherPolicy ==> cell == [])
    && ((policy == TruncSuffix || policy == TruncMiddle) && width >= 3 ==>
          |cell| <= width && (name in row && Valid(row[name]) ==> Valid(cell)))
  }

  /** A row has one such cell per field; a column without a width is of width 0. */
  predicate RowMeans(row: seq<Text>, data: map<string, Text>, fields: seq<string>, sizes: map<string, int>, policy: Policy) {
    |row| == |fields| &&
    forall j :: 0 <= j < |fields| ==>
      CellMeans(row[j], data, fields[j], if fields[j] in sizes then sizes[fields[j]] else 0, policy)
  }

  lemma ShownMeans(row: seq<Text>, data: map<string, Text>, fields: seq<string>, sizes: map<string, int>, policy: Policy)
    requires RowShown(row, data, fields, sizes, policy)
    ensures RowMeans(row, data, fields, sizes, policy)
  {
    hide Valid, ValidPart, Cell;
    forall j | 0 <= j < |fields|
      ensures CellMeans(row[j], data, fields[j], if fields[j] in sizes then sizes[fields[j]] else 0, policy)
    {
      CellWithin(ValueOf(data, fields[j]), Get(sizes, fields[j]), policy);
      if fields[j] !in data {
        ValidNothing();
      }
    }
  }

  /** Every value, cut or not. */
  lemma CellWithin(value: Text, width: int, policy: Policy)
    ensures var cell := Cell(value, width, policy);
            && (|value| <= width ==> cell == value)
            && (|value| > width && policy == OtherPolicy ==> cell == [])
            && ((policy == TruncSuffix || policy == TruncMiddle) && width >= 3 ==>
                  |cell| <= width && (Valid(value) ==> Valid(cell)))
  {
    hide Valid, ValidPart;
    if |value| > width {
      if policy == TruncSuffix {
        SuffixCell(value, width);
      } else if policy == TruncMiddle {
        MiddleCell(value, width);
      }
    }
  }

  /** In well-formed text a rune boundary lies at most three bytes before, and at most three after, any position. */
  lemma {:induction false} BoundaryNear(s: Text, p: nat) returns (lo: nat, hi: nat)
    requires Valid(s) && p <= |s|
    ensures lo <= p <= hi <= |s| && p < lo + 4 && hi < p + 4
    ensures Valid(s[..lo]) && Valid(s[hi..])
    decreases |s|
  {
    hide RuneLen;
    if p == 0 {
      lo, hi := 0, 0;
      assert s[..0] == [] && s[0..] == s;
    } else {
      var n := RuneLen(s);
      if p < n {
        lo, hi := 0, n;
        assert s[..0] == [];
      } else {
        lo, hi := BoundaryNear(s[n..], p - n);
        RuneThen(s, lo);
        assert s[n..][hi..] == s[n + hi..];
        lo, hi := lo + n, hi + n;
      }
    }
  }

  lemma RuneThen(s: Text, k: nat)
    requires RuneLen(s) > 0 && k <= |s| - RuneLen(s) && Valid(s[RuneLen(s)..][..k])
    ensures Valid(s[..RuneLen(s) + k])
  {
    var n := RuneLen(s);
    RuneLenRestrict(s, n + k);
    assert s[..n + k][n..] == s[n..][..k];
  }

  /** The part kept loses at most three bytes to the rune it would have torn. */
  lemma ValidPartNear(s: Text, position: nat)
    requires Valid(s) && position <= |s|
    ensures position < |ValidPart(s, position, true)| + 4
    ensures |s| - position < |ValidPart(s, position, false)| + 4
  {
    var lo, hi := BoundaryNear(s, position);
  }

  lemma ValidPartValid(s: Text, position: int, positive: bool)
    ensures Valid(ValidPart(s, position, positive))
  {
  }

  /** ValidPart is the longest well-formed prefix that ends, or suffix that starts, on the right side of the position. */
  lemma ValidPartLongest(s: Text, position: nat, other: Text)
    requires position <= |s| && Valid(other)
    ensures other <= s && |other| <= position ==> other <= ValidPart(s, position, true)
    ensures |other| <= |s| - position && s[|s| - |other|..] == other ==> |other| <= |ValidPart(s, position, false)|
  {
    if other <= s && |other| <= position {
      assert s[..|other|] == other;
    }
  }

  /**
   Cutting off the end: whatever the value, the cell is valid text that keeps a prefix of it, and it fits the
   column exactly when the column has room for the ellipsis; at most three columns stay unused then.
   */
  lemma SuffixCell(value: Text, columSize: int)
    requires |value| > columSize
    ensures var cell := Cell(value, columSize, TruncSuffix);
            && Valid(cell)
            && (exists n: nat :: n <= |value| && cell == value[..n] + ELLIPSIS)
            && (|cell| <= columSize <==> columSize >= 3)
            && (Valid(value) && columSize >= 3 ==> columSize < |cell| + 4)
  {
    var part := ValidPart(value, columSize - 3, true);
    ValidEllipsis(part, []);
    if columSize >= 3 {
      assert Cell(value, columSize, TruncSuffix) == value[..PrefixEnd(value, columSize - 3)] + ELLIPSIS;
      if Valid(value) {
        ValidPartNear(value, columSize - 3);
      }
    } else {
      assert Cell(value, columSize, TruncSuffix) == value[..0] + ELLIPSIS;
    }
  }

  /** Cutting out the middle: a prefix and a suffix are kept, and the cell fits exactly from width three on. */
  lemma MiddleCell(value: Text, columSize: int)
    requires |value| > columSize
    ensures var cell := Cell(value, columSize, TruncMiddle);
            && Valid(cell)
            && (exists n: nat, m: nat :: n <= m <= |value| && cell == value[..n] + ELLIPSIS + value[m..])
            && (|cell| <= columSize <==> columSize >= 3)
            && (Valid(value) && columSize >= 3 ==> columSize < |cell| + 8)
  {
    hide Valid, PrefixEnd, SuffixStart;
    var mid := HalfTowardZero(columSize - 3);
    var p, q := ValidPart(value, mid, true), ValidPart(value, |value| - mid, false);
    ValidPartValid(value, mid, true);
    ValidPartValid(value, |value| - mid, false);
    ValidEllipsis(p, q);
    var cell := Cell(value, columSize, TruncMiddle);
    if mid >= 0 {
      var n, m := PrefixEnd(value, mid), SuffixStart(value, |value| - mid);
      assert cell == value[..n] + ELLIPSIS + value[m..];
      if Valid(value) {
        ValidPartNear(value, mid);
        ValidPartNear(value, |value| - mid);
      }
    } else {
      assert p == value[..0] && q == value[|value|..];
      assert cell == value[..0] + ELLIPSIS + value[|value|..];
    }
  }

  /**
   Cutting off the beginning goes wrong: the offset subtracts the ellipsis instead of adding it. For well-formed
   values the cell fits only if the offset falls out of range, and then nothing of the value is kept.
   */
  lemma PrefixCell(value: Text, columSize: int)
    requires Valid(value) && |value| > columSize
    ensures |Cell(value, columSize, TruncPrefix)| <= columSize <==> 3 <= columSize && |value| < columSize + 3
    ensures |value| < columSize + 3 ==> Cell(value, columSize, TruncPrefix) == ELLIPSIS
  {
    var position := |value| - columSize - 3;
    if 0 <= position <= |value| {
      ValidPartNear(value, position);
    }
  }

  /** Six letters in a column of three: the cell has nine. */
  lemma PrefixTooWide()
    ensures var value: Text := [0x61, 0x62, 0x63, 0x64, 0x65, 0x66];
            Cell(value, 3, TruncPrefix) == ELLIPSIS + value
  {
    var value: Text := [0x61, 0x62, 0x63, 0x64, 0x65, 0x66];
    AsciiIsValid(value);
    assert value[0..] == value;
    assert SuffixStart(value, 0) == 0;
  }

  lemma ValidEllipsis(p: Text, q: Text)
    requires Valid(p) && Valid(q)
    ensures Valid(p + ELLIPSIS) && Valid(p + ELLIPSIS + q)
  {
    assert Valid(ELLIPSIS) by {
      assert ELLIPSIS[1..][1..] == [0x2E] && ELLIPSIS[1..][1..][1..] == [];
    }
    SplitValid(p, ELLIPSIS);
    SplitValid(p + ELLIPSIS, q);
  }
}
