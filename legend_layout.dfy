/**
 * The column split of the custom legend (createThreeColumnLegend): the indices
 * 0..n-1 are cut into at most five columns of ceil(n / 5) consecutive indices,
 * and a column whose range is empty is skipped.
 */
module LegendLayout {
  /** The legend lays out at most this many columns. */
  const ColumnCount: nat := 5

  function Min(a: int, b: int): int {
    if a <= b then a else b
  }

  /** Math.ceil(n / 5): the least k with 5 * k >= n (Dafny divides by a positive divisor rounding down). */
  function ItemsPerColumn(n: int): (k: int)
    ensures 5 * k >= n && 5 * (k - 1) < n
  {
    (n + 4) / 5
  }

  /** The half-open index range [start, end) of one legend column. */
  datatype Column = Column(start: int, end: int)

  predicate IsEmpty(c: Column) {
    c.start >= c.end
  }

  predicate Contains(c: Column, i: int) {
    c.start <= i < c.end
  }

  /** The bounds the legend loop computes for column `col` of a legend of n rows. */
  function ColumnAt(n: int, col: nat): Column {
    var k := ItemsPerColumn(n);
    Column(col * k, Min(col * k + k, n))
  }

  /** The columns the loop emits from column `col` on, empty ones skipped. */
  function ColumnsFrom(n: int, col: nat): seq<Column>
    requires col <= ColumnCount
    decreases ColumnCount - col
  {
    if col == ColumnCount then []
    else if IsEmpty(ColumnAt(n, col)) then ColumnsFrom(n, col + 1)
    else [ColumnAt(n, col)] + ColumnsFrom(n, col + 1)
  }

  /** The columns a legend of n rows shows, left to right. */
  function Columns(n: int): seq<Column> {
    ColumnsFrom(n, 0)
  }

  /** Some column of `cols` holds index i. */
  predicate Covered(cols: seq<Column>, i: int) {
    exists j :: 0 <= j < |cols| && Contains(cols[j], i)
  }

  lemma MulStep(c: int, k: int)
    ensures (c + 1) * k == c * k + k
  {}

  lemma MulMono(a: int, b: int, k: int)
    requires a <= b && 0 <= k
    ensures a * k <= b * k
  {
    assert b * k - a * k == (b - a) * k;
  }

  /** Column `col` is shown exactly when the items per column are positive and it starts below n. */
  lemma NonEmptyIff(n: int, col: nat)
    ensures !IsEmpty(ColumnAt(n, col)) <==> ItemsPerColumn(n) > 0 && col * ItemsPerColumn(n) < n
  {
    var k := ItemsPerColumn(n);
    if k <= 0 {
      MulMono(0, col, -k);
      assert col * (-k) == -(col * k);
    }
  }

  /** Once a column is empty, so is every column to its right. */
  lemma EmptyStaysEmpty(n: int, a: nat, b: nat)
    requires a <= b && IsEmpty(ColumnAt(n, a))
    ensures IsEmpty(ColumnAt(n, b))
  {
    var k := ItemsPerColumn(n);
    NonEmptyIff(n, a);
    NonEmptyIff(n, b);
    if k > 0 {
      MulMono(a, b, k);
    }
  }

  /** From `col` on, the emitted columns are the non-empty ones, and these come first. */
  lemma {:induction false} ColumnsFromShape(n: int, col: nat)
    requires col <= ColumnCount
    ensures |ColumnsFrom(n, col)| <= ColumnCount - col
    ensures forall j :: 0 <= j < |ColumnsFrom(n, col)| ==>
      ColumnsFrom(n, col)[j] == ColumnAt(n, col + j) && !IsEmpty(ColumnAt(n, col + j))
    ensures forall c :: col <= c < ColumnCount ==>
      (IsEmpty(ColumnAt(n, c)) <==> c >= col + |ColumnsFrom(n, col)|)
    decreases ColumnCount - col
  {
    if col < ColumnCount {
      ColumnsFromShape(n, col + 1);
      var rest := ColumnsFrom(n, col + 1);
      if IsEmpty(ColumnAt(n, col)) {
        forall c | col <= c < ColumnCount ensures IsEmpty(ColumnAt(n, c)) {
          EmptyStaysEmpty(n, col, c);
        }
      } else {
        var cols := ColumnsFrom(n, col);
        assert cols == [ColumnAt(n, col)] + rest;
        forall j | 0 <= j < |cols|
          ensures cols[j] == ColumnAt(n, col + j) && !IsEmpty(ColumnAt(n, col + j))
        {
          if j > 0 {
            assert cols[j] == rest[j - 1];
          }
        }
      }
    }
  }

  /**
   * The shown columns are the first |Columns(n)| of the five, none empty, at
   * most five of them, and there are none at all exactly when n <= 0.
   */
  lemma ColumnsShape(n: int)
    ensures |Columns(n)| <= ColumnCount
    ensures forall j :: 0 <= j < |Columns(n)| ==> Columns(n)[j] == ColumnAt(n, j)
    ensures forall j :: 0 <= j < |Columns(n)| ==> Columns(n)[j].start < Columns(n)[j].end
    ensures Columns(n) == [] <==> n <= 0
  {
    ColumnsFromShape(n, 0);
    var cols := Columns(n);
    forall j | 0 <= j < |cols| ensures cols[j] == ColumnAt(n, j) && cols[j].start < cols[j].end {
      assert cols[j] == ColumnAt(n, 0 + j);
    }
    NonEmptyIff(n, 0);
  }

  /** What a shown column looks like: column j of the five, starting at j * k >= 0 and below n. */
  lemma ShownColumn(n: int, j: int)
    requires 0 <= j < |Columns(n)|
    ensures ItemsPerColumn(n) > 0
    ensures Columns(n)[j] == ColumnAt(n, j)
    ensures 0 <= j * ItemsPerColumn(n) < n
  {
    ColumnsShape(n);
    NonEmptyIff(n, j);
    MulMono(0, j, ItemsPerColumn(n));
  }

  /** The first shown column starts at 0 and the last ends at n. */
  lemma ColumnsEnds(n: int)
    requires n > 0
    ensures |Columns(n)| > 0
    ensures Columns(n)[0].start == 0 && Columns(n)[|Columns(n)| - 1].end == n
  {
    ColumnsShape(n);
    var m := |Columns(n)|;
    var k := ItemsPerColumn(n);
    ShownColumn(n, m - 1);
    assert m * k >= n by {
      if m < ColumnCount {
        ColumnsFromShape(n, 0);
        assert IsEmpty(ColumnAt(n, 0 + m));
        NonEmptyIff(n, m);
      }
    }
    MulStep(m - 1, k);
  }

  /** Each shown column begins where the previous one ends. */
  lemma ColumnsContiguous(n: int)
    ensures forall j :: 0 <= j < |Columns(n)| - 1 ==> Columns(n)[j].end == Columns(n)[j + 1].start
  {
    var cols := Columns(n);
    forall j | 0 <= j < |cols| - 1 ensures cols[j].end == cols[j + 1].start {
      ShownColumn(n, j);
      ShownColumn(n, j + 1);
      MulStep(j, ItemsPerColumn(n));
    }
  }

  /** A column lies wholly to the left of every later column. */
  lemma ColumnsOrdered(n: int)
    ensures forall j1, j2 :: 0 <= j1 < j2 < |Columns(n)| ==> Columns(n)[j1].end <= Columns(n)[j2].start
  {
    var cols := Columns(n);
    forall j1, j2 | 0 <= j1 < j2 < |cols| ensures cols[j1].end <= cols[j2].start {
      ShownColumn(n, j1);
      ShownColumn(n, j2);
      MulStep(j1, ItemsPerColumn(n));
      MulMono(j1 + 1, j2, ItemsPerColumn(n));
    }
  }

  lemma DivBounds(i: int, k: int)
    requires 0 <= i && 0 < k
    ensures 0 <= i / k && (i / k) * k <= i < (i / k) * k + k
  {}

  /** Index i of 0..n-1 lies in column i / ItemsPerColumn(n), which is shown. */
  lemma IndexCovered(n: int, i: int)
    requires 0 <= i < n
    ensures Covered(Columns(n), i)
  {
    var k := ItemsPerColumn(n);
    DivBounds(i, k);
    var j := i / k;
    if j >= ColumnCount {
      MulMono(5, j, k);
    }
    NonEmptyIff(n, j);
    ColumnsFromShape(n, 0);
    assert !IsEmpty(ColumnAt(n, 0 + j));
    assert Contains(Columns(n)[j], i);
  }

  /** Every index 0 <= i < n lies in a shown column, and no other index does. */
  lemma ColumnsCover(n: int)
    ensures forall i :: 0 <= i < n ==> Covered(Columns(n), i)
    ensures forall i :: Covered(Columns(n), i) ==> 0 <= i < n
  {
    var cols := Columns(n);
    forall i | 0 <= i < n ensures Covered(cols, i) {
      IndexCovered(n, i);
    }
    forall i | Covered(cols, i) ensures 0 <= i < n {
      var j :| 0 <= j < |cols| && Contains(cols[j], i);
      ShownColumn(n, j);
    }
  }

  /**
   * The shown columns partition 0..n-1: they start at 0, each begins where the
   * previous ends, the last ends at n, they are ordered and pairwise disjoint,
   * and an index lies in one of them exactly when 0 <= i < n.
   */
  lemma ColumnsPartition(n: int)
    ensures n > 0 ==> Columns(n)[0].start == 0 && Columns(n)[|Columns(n)| - 1].end == n
    ensures forall j :: 0 <= j < |Columns(n)| - 1 ==> Columns(n)[j].end == Columns(n)[j + 1].start
    ensures forall i :: 0 <= i < n ==> Covered(Columns(n), i)
    ensures forall i :: Covered(Columns(n), i) ==> 0 <= i < n
    ensures forall j1, j2, i ::
      (0 <= j1 < |Columns(n)| && 0 <= j2 < |Columns(n)| &&
       Contains(Columns(n)[j1], i) && Contains(Columns(n)[j2], i)) ==> j1 == j2
  {
    if n > 0 {
      ColumnsEnds(n);
    }
    ColumnsContiguous(n);
    ColumnsOrdered(n);
    ColumnsCover(n);
  }

  /** The first index not yet laid out once the legend loop has handled columns 0..col-1. */
  function Reach(n: int, col: nat): int {
    if n <= 0 then 0 else Min(col * ItemsPerColumn(n), n)
  }

  /**
   * The legend loop lays out the indices in order: an empty column adds none,
   * a shown column starts at the reach so far and extends it to its end, and
   * after the five columns the reach is n (0 when n <= 0).
   */
  lemma ReachStep(n: int, col: nat)
    ensures Reach(n, 0) == 0 && 0 <= Reach(n, col)
    ensures Reach(n, ColumnCount) == (if n > 0 then n else 0)
    ensures IsEmpty(ColumnAt(n, col)) ==> Reach(n, col + 1) == Reach(n, col)
    ensures !IsEmpty(ColumnAt(n, col)) ==>
      0 <= ColumnAt(n, col).start == Reach(n, col) && ColumnAt(n, col).end == Reach(n, col + 1)
  {
    var k := ItemsPerColumn(n);
    NonEmptyIff(n, col);
    MulStep(col, k);
    if n > 0 {
      MulMono(0, col, k);
      MulMono(col, col + 1, k);
    }
  }
}
