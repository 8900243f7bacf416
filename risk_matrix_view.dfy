/** The 5x5 risk matrix widget: its score table, the hazard markers drawn over it and
    the size it asks for. Drawing geometry and colours are not modelled. */
module MatrixView {
  import opened Wrappers
  import opened KotlinInt
  import opened RiskLevels
  import opened Hazards
  import opened Lists

  /** Rows and columns of the matrix: likelihood and severity 1..5, indexed from 0. */
  const Size: int := 5

  /** The size the view asks for when its parent leaves it free. */
  const DesiredSize: int32 := 600

  /** The score the matrix holds at row `likelihood`, column `severity` (both from 0). */
  function CellScore(likelihood: int, severity: int): (r: int)
    requires 0 <= likelihood < Size && 0 <= severity < Size
    ensures 1 <= r <= 25
  {
    MulBounds(likelihood + 1, severity + 1);
    (likelihood + 1) * (severity + 1)
  }

  /** `MeasureSpec` modes. */
  datatype MeasureMode = Unspecified | Exactly | AtMost

  /** A measure spec as its mode and size; the packing into one `Int` is Android's. */
  datatype MeasureSpec = MeasureSpec(mode: MeasureMode, size: int32)

  /** `onMeasure`, one axis: the given size when exact, at most the desired 600 when
      bounded, and 600 when free. */
  function Measure(spec: MeasureSpec): (r: int32)
    ensures spec.mode == Exactly ==> r == spec.size
    ensures spec.mode == AtMost ==> r <= DesiredSize && r <= spec.size && (r == DesiredSize || r == spec.size)
    ensures spec.mode == Unspecified ==> r == DesiredSize
  {
    match spec.mode
    case Exactly => spec.size
    case AtMost => if DesiredSize <= spec.size then DesiredSize else spec.size
    case Unspecified => DesiredSize
  }

  /** The marker test of `onDraw`: `likelihood - 1` and `severity - 1`, in 32-bit
      arithmetic, must both lie in 0..4; the marker then sits at that row and column. */
  function MarkerCell(h: Hazard): (r: Option<(int, int)>)
    ensures r.Some? <==> 1 <= h.likelihood <= 5 && 1 <= h.severity <= 5
    ensures r.Some? ==> r.value == (h.likelihood as int - 1, h.severity as int - 1)
  {
    var row := Minus(h.likelihood, 1);
    var col := Minus(h.severity, 1);
    if 0 <= row <= 4 && 0 <= col <= 4 then Some((row as int, col as int)) else None
  }

  /** The cells marked for a hazard list, in drawing order; hazards off the matrix are
      skipped. */
  function Markers(hs: seq<Hazard>): (r: seq<(int, int)>)
    ensures |r| <= |hs|
  {
    if hs == [] then []
    else
      var prefix := Markers(hs[..|hs| - 1]);
      match MarkerCell(hs[|hs| - 1])
      case Some(cell) => prefix + [cell]
      case None => prefix
  }

  class RiskMatrixView {
    /** `Array(5) { IntArray(5) }`. */
    const matrix: array2<int>
    var hazards: seq<Hazard>

    /** The matrix is 5x5 and holds the product table. */
    ghost predicate Initialized()
      reads this, matrix
    {
      matrix.Length0 == Size && matrix.Length1 == Size &&
      forall l, s :: 0 <= l < Size && 0 <= s < Size ==> matrix[l, s] == CellScore(l, s)
    }

    /** The constructor's `init` fills the matrix; the hazard list starts empty. */
    constructor()
      ensures Initialized() && hazards == []
      ensures fresh(matrix)
    {
      matrix := new int[Size, Size];
      hazards := [];
      new;
      InitializeMatrix();
    }

    /** `initializeMatrix`: row by row, cell (l, s) gets the score (l + 1) * (s + 1). */
    method InitializeMatrix()
      requires matrix.Length0 == Size && matrix.Length1 == Size
      modifies matrix
      ensures Initialized()
    {
      for likelihood := 0 to Size
        invariant forall l, s :: 0 <= l < likelihood && 0 <= s < Size ==> matrix[l, s] == CellScore(l, s)
      {
        for severity := 0 to Size
          invariant forall l, s :: 0 <= l < likelihood && 0 <= s < Size ==> matrix[l, s] == CellScore(l, s)
          invariant forall s :: 0 <= s < severity ==> matrix[likelihood, s] == CellScore(likelihood, s)
        {
          matrix[likelihood, severity] := (likelihood + 1) * (severity + 1);
        }
      }
    }

    /** The level drawn for a cell: the band of its score. */
    function CellLevel(row: int, col: int): (r: RiskLevel)
      reads this, matrix
      requires Initialized() && 0 <= row < Size && 0 <= col < Size
      ensures r == FromScore(CellScore(row, col))
    {
      FromScore(matrix[row, col])
    }

    /** `setHazards`: the list is replaced; the matrix is untouched. */
    method SetHazards(hs: seq<Hazard>)
      modifies this
      ensures hazards == hs
      ensures forall l, s :: 0 <= l < matrix.Length0 && 0 <= s < matrix.Length1 ==>
        matrix[l, s] == old(matrix[l, s])
      ensures old(Initialized()) ==> Initialized()
    {
      hazards := hs;
    }
  }

  /** The matrix reads the same across its diagonal. */
  lemma CellScoreSymmetric(l: int, s: int)
    requires 0 <= l < Size && 0 <= s < Size
    ensures CellScore(l, s) == CellScore(s, l)
  {
  }

  /** The corner cells: (0, 0) is LOW and (4, 4), scoring 25, is EXTREME. */
  lemma CornerLevels()
    ensures FromScore(CellScore(0, 0)) == Low
    ensures FromScore(CellScore(Size - 1, Size - 1)) == Extreme
  {
  }

  /** Only the top corner is drawn EXTREME: every other cell scores at most 20. */
  lemma OnlyCornerExtreme(l: int, s: int)
    requires 0 <= l < Size && 0 <= s < Size
    ensures FromScore(CellScore(l, s)) == Extreme <==> l == Size - 1 && s == Size - 1
  {
    if l < Size - 1 {
      MulBounds(l + 1, s + 1);
      assert (l + 1) * (s + 1) <= 4 * (s + 1);
    } else if s < Size - 1 {
      assert (l + 1) * (s + 1) <= 5 * 4;
    }
  }

  /** A marker sits on the cell whose score is the hazard's score, so the cell's
      colour is the hazard's own level. */
  lemma MarkerOnOwnLevel(h: Hazard)
    requires MarkerCell(h).Some?
    ensures var (row, col) := MarkerCell(h).value;
      0 <= row < Size && 0 <= col < Size &&
      CellScore(row, col) == h.RiskScore() as int &&
      FromScore(CellScore(row, col)) == h.Level()
  {
    ScoreOnMatrix(h);
  }

  /** Markers are drawn in list order: those of a concatenation are the markers of
      each part in turn. */
  lemma {:induction false} MarkersOfAppend(a: seq<Hazard>, b: seq<Hazard>)
    ensures Markers(a + b) == Markers(a) + Markers(b)
  {
    if b == [] {
      assert a + b == a;
    } else {
      var n := |b| - 1;
      MarkersOfAppend(a, b[..n]);
      AppendInit(a, b);
    }
  }

  /** When every hazard has likelihood and severity in 1..5 (as the detector's 2..4
      estimates do), every hazard gets its marker. */
  lemma {:induction false} AllInRangeMarked(hs: seq<Hazard>)
    requires forall i :: 0 <= i < |hs| ==> 1 <= hs[i].likelihood <= 5 && 1 <= hs[i].severity <= 5
    ensures |Markers(hs)| == |hs|
  {
    if hs != [] {
      AllInRangeMarked(hs[..|hs| - 1]);
    }
  }
}
