/** Division with remainder by recursion: item i of a sequence laid out in rows of w. */
module Wrapping {
  function Row(i: nat, w: nat): nat
    requires w > 0
  {
    if i < w then 0 else 1 + Row(i - w, w)
  }

  function Col(i: nat, w: nat): (c: nat)
    requires w > 0
    ensures c < w
  {
    if i < w then i else Col(i - w, w)
  }

  lemma RowColZero(w: nat)
    requires w > 0
    ensures Row(0, w) == 0 && Col(0, w) == 0
  {
  }

  /** Row and Col are Go's i / w and i % w. */
  lemma RowColIsDivMod(i: nat, w: nat)
    requires w > 0
    ensures Row(i, w) == i / w && Col(i, w) == i % w
  {
    RowColSplit(i, w);
    var q, r := i / w, i % w;
    var d := q - Row(i, w);
    assert i == w * q + r;
    assert w * d == w * q - w * Row(i, w);
    MultipleOf(w, d);
  }

  lemma {:induction false} RowColSplit(i: nat, w: nat)
    requires w > 0
    ensures i == w * Row(i, w) + Col(i, w)
  {
    if i >= w {
      RowColSplit(i - w, w);
      assert w * (1 + Row(i - w, w)) == w + w * Row(i - w, w);
    }
  }

  lemma {:induction false} MultipleOf(w: int, d: int)
    requires w > 0
    ensures d >= 1 ==> w * d >= w
    ensures d <= -1 ==> w * d <= -w
    decreases if d < 0 then -d else d
  {
    if d > 1 {
      MultipleOf(w, d - 1);
      assert w * d == w * (d - 1) + w;
    } else if d < -1 {
      MultipleOf(w, d + 1);
      assert w * d == w * (d + 1) - w;
    }
  }

  /** Printing n cells from column Col(p) crosses Row(Col(p) + n) rows. */
  lemma {:induction false} RowColAdvance(p: nat, n: nat, w: nat)
    requires w > 0
    ensures Row(p, w) + Row(Col(p, w) + n, w) == Row(p + n, w)
    ensures Col(Col(p, w) + n, w) == Col(p + n, w)
  {
    if p >= w {
      RowColAdvance(p - w, n, w);
      assert p + n - w == (p - w) + n;
    }
  }

  lemma {:induction false} RowColNext(i: nat, w: nat)
    requires w > 0
    ensures if Col(i, w) == w - 1 then Col(i + 1, w) == 0 && Row(i + 1, w) == Row(i, w) + 1
            else Col(i + 1, w) == Col(i, w) + 1 && Row(i + 1, w) == Row(i, w)
  {
    if i >= w {
      RowColNext(i - w, w);
      assert i + 1 - w == (i - w) + 1;
    }
  }

  lemma {:induction false} RowColInjective(i: nat, j: nat, w: nat)
    requires w > 0 && Row(i, w) == Row(j, w) && Col(i, w) == Col(j, w)
    ensures i == j
  {
    if i >= w && j >= w {
      RowColInjective(i - w, j - w, w);
    }
  }

  lemma {:induction false} RowMonotone(i: nat, j: nat, w: nat)
    requires w > 0 && i <= j
    ensures Row(i, w) <= Row(j, w)
  {
    if i >= w {
      RowMonotone(i - w, j - w, w);
    }
  }
}
