/** The scan grid: the q/pt shift values the scan histograms are filled at.

    They are the centres of the x-axis bins of the scan histogram, which has
    `nbins` fixed-width bins over [lo, hi]. The centre of a 1-based bin is
    taken to be the one a fixed-width ROOT axis reports:
    lo + (bin - 1) * w + w / 2 with w = (hi - lo) / nbins. */
module ScanGrid {

  /** A fixed-width histogram axis as it is booked: bin count and range. */
  datatype Axis = Axis(nbins: int, lo: real, hi: real)

  /** The bin count a loop `ib < nbins` walks through. */
  function NumBins(a: Axis): nat {
    if a.nbins > 0 then a.nbins else 0
  }

  /** Width of one bin. */
  function BinWidth(a: Axis): real
    requires a.nbins > 0
  {
    (a.hi - a.lo) / (a.nbins as real)
  }

  /** Centre of the 1-based bin `bin` of a fixed-width axis. */
  function BinCenter(a: Axis, bin: int): real
    requires a.nbins > 0
  {
    a.lo + ((bin - 1) as real) * BinWidth(a) + 0.5 * BinWidth(a)
  }

  /** The bin centres of an axis, bin 1 first. */
  function Centers(a: Axis): (cs: seq<real>)
    ensures |cs| == NumBins(a)
  {
    seq(NumBins(a), i requires 0 <= i < NumBins(a) => BinCenter(a, i + 1))
  }

  /** The i-th centre (0-based) is lo + (i + 1/2) * (hi - lo) / nbins. */
  lemma CenterFormula(a: Axis, i: int)
    requires 0 <= i < NumBins(a)
    ensures Centers(a)[i] == a.lo + ((i as real) + 0.5) * (a.hi - a.lo) / (a.nbins as real)
  {
    var w := BinWidth(a);
    assert Centers(a)[i] == a.lo + (i as real) * w + 0.5 * w;
    assert (i as real) * w + 0.5 * w == ((i as real) + 0.5) * w;
  }

  /** Neighbouring centres are one bin width apart. */
  lemma CentersEvenlySpaced(a: Axis, i: int)
    requires 0 <= i && i + 1 < NumBins(a)
    ensures Centers(a)[i + 1] - Centers(a)[i] == (a.hi - a.lo) / (a.nbins as real)
  {
    var w := BinWidth(a);
    assert Centers(a)[i] == a.lo + (i as real) * w + 0.5 * w;
    assert Centers(a)[i + 1] == a.lo + ((i + 1) as real) * w + 0.5 * w;
    assert ((i + 1) as real) * w == (i as real) * w + w;
  }

  /** On a non-empty range the centres strictly increase. */
  lemma CentersIncreasing(a: Axis, i: int, j: int)
    requires a.lo < a.hi
    requires 0 <= i < j < NumBins(a)
    ensures Centers(a)[i] < Centers(a)[j]
  {
    var w := BinWidth(a);
    assert w > 0.0;
    assert Centers(a)[i] == a.lo + (i as real) * w + 0.5 * w;
    assert Centers(a)[j] == a.lo + (j as real) * w + 0.5 * w;
    assert (j as real) * w - (i as real) * w == ((j - i) as real) * w;
    assert ((j - i) as real) * w >= w;
  }

  /** On a non-empty range every centre lies strictly inside (lo, hi). */
  lemma CentersInside(a: Axis, i: int)
    requires a.lo < a.hi
    requires 0 <= i < NumBins(a)
    ensures a.lo < Centers(a)[i] < a.hi
  {
    var w := BinWidth(a);
    var n := a.nbins as real;
    var x := (i as real) + 0.5;
    assert Centers(a)[i] == a.lo + x * w;
    assert w > 0.0;
    assert n * w == a.hi - a.lo;
    ScaledInside(a.lo, a.hi, n, x, w);
  }

  /** lo + x * w lies strictly inside (lo, hi) when 0 < x < n and the n
      steps of width w > 0 span exactly [lo, hi]. */
  lemma ScaledInside(lo: real, hi: real, n: real, x: real, w: real)
    requires 0.0 < x < n && w > 0.0 && n * w == hi - lo
    ensures lo < lo + x * w < hi
  {
    assert x * w > 0.0;
    assert n * w - x * w == (n - x) * w;
    assert (n - x) * w > 0.0;
  }

  /** The default scan axis: 100 bins over [-1e-3, 1e-3]. */
  function DefaultScanAxis(): Axis {
    Axis(100, -0.001, 0.001)
  }

  /** The default grid has 100 shifts from -9.9e-4 to 9.9e-4 in steps of 2e-5. */
  lemma DefaultGrid()
    ensures |Centers(DefaultScanAxis())| == 100
    ensures Centers(DefaultScanAxis())[0] == -0.00099
    ensures Centers(DefaultScanAxis())[99] == 0.00099
    ensures forall i :: 0 <= i < 99 ==>
      Centers(DefaultScanAxis())[i + 1] - Centers(DefaultScanAxis())[i] == 0.00002
  {
    var a := DefaultScanAxis();
    CenterFormula(a, 0);
    CenterFormula(a, 99);
    forall i | 0 <= i < 99
      ensures Centers(a)[i + 1] - Centers(a)[i] == 0.00002
    {
      CentersEvenlySpaced(a, i);
    }
  }
}
