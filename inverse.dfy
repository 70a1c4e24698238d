/**
 * The nearest-preimage scan `ajustement` nested in tab_inverse: over a sampled grid,
 * find the first point whose image is closest to a target, and keep, row by row,
 * the points whose image is at least pas/2 away from it.
 */
module Inverse {
  import opened Grid
  import opened Wrappers

  /** A map of the plane, given as a numeric function. */
  type Map2 = (real, real) -> (real, real)

  /** Squared distance from the image of (px, py) to the target (x, y). */
  function Dist2(f: Map2, x: real, y: real, px: real, py: real): (d: real)
    ensures f(px, py) == (x, y) ==> d == 0.0
  {
    var (fx, fy) := f(px, py);
    (fx - x) * (fx - x) + (fy - y) * (fy - y)
  }

  /** A squared distance is never negative. */
  lemma Dist2NonNegative(f: Map2, x: real, y: real, px: real, py: real)
    ensures Dist2(f, x, y, px, py) >= 0.0
  {
  }

  /** The squared image distances of a list of points, in order. */
  function Dists(f: Map2, x: real, y: real, px: seq<real>, py: seq<real>): (ds: seq<real>)
    requires |px| == |py|
    ensures |ds| == |px|
    ensures forall i :: 0 <= i < |px| ==> ds[i] == Dist2(f, x, y, px[i], py[i])
  {
    seq(|px|, i requires 0 <= i < |px| => Dist2(f, x, y, px[i], py[i]))
  }

  /** One more point adds its distance at the end. */
  lemma DistsSnoc(f: Map2, x: real, y: real, px: seq<real>, py: seq<real>, a: real, b: real)
    requires |px| == |py|
    ensures Dists(f, x, y, px + [a], py + [b]) == Dists(f, x, y, px, py) + [Dist2(f, x, y, a, b)]
  {
    var l := Dists(f, x, y, px + [a], py + [b]);
    var r := Dists(f, x, y, px, py) + [Dist2(f, x, y, a, b)];
    assert |l| == |r|;
    forall i | 0 <= i < |l|
      ensures l[i] == r[i]
    {
      if i < |px| {
        assert (px + [a])[i] == px[i] && (py + [b])[i] == py[i];
      }
    }
  }

  /**
   * The position of the first smallest value: no value is smaller, and every value
   * before it is strictly larger (a later tie does not replace it).
   */
  function FirstMin(ds: seq<real>): (k: nat)
    requires |ds| > 0
    ensures k < |ds|
    ensures forall m :: 0 <= m < |ds| ==> ds[k] <= ds[m]
    ensures forall m :: 0 <= m < k ==> ds[k] < ds[m]
    decreases |ds|
  {
    if |ds| == 1 then 0
    else
      var k := FirstMin(ds[..|ds| - 1]);
      if ds[|ds| - 1] < ds[k] then |ds| - 1 else k
  }

  /** The first point, in list order, whose image is closest to (x, y); None for no points. */
  function Nearest(f: Map2, x: real, y: real, px: seq<real>, py: seq<real>): (r: Option<(real, real)>)
    requires |px| == |py|
    ensures r.None? <==> |px| == 0
  {
    if |px| == 0 then None
    else
      var k := FirstMin(Dists(f, x, y, px, py));
      Some((px[k], py[k]))
  }

  /** Nearest picks a point whose image is closest to (x, y), the first such in scan order. */
  lemma NearestIsFirstClosest(f: Map2, x: real, y: real, px: seq<real>, py: seq<real>)
    requires |px| == |py| && |px| > 0
    ensures exists k :: 0 <= k < |px| && Nearest(f, x, y, px, py) == Some((px[k], py[k])) &&
              (forall m :: 0 <= m < |px| ==> Dist2(f, x, y, px[k], py[k]) <= Dist2(f, x, y, px[m], py[m])) &&
              (forall m :: 0 <= m < k ==> Dist2(f, x, y, px[k], py[k]) < Dist2(f, x, y, px[m], py[m]))
  {
    var ds := Dists(f, x, y, px, py);
    var k := FirstMin(ds);
    assert ds[k] == Dist2(f, x, y, px[k], py[k]);
    assert Nearest(f, x, y, px, py) == Some((px[k], py[k]));
  }

  /** Nearest over a grid of points, scanned row by row. */
  function NearestOnGrid(f: Map2, x: real, y: real, xs: Matrix, ys: Matrix): (r: Option<(real, real)>)
    requires SameShape(xs, ys)
    ensures r.None? <==> |Flatten(xs)| == 0
  {
    FlattenSameShape(xs, ys);
    Nearest(f, x, y, Flatten(xs), Flatten(ys))
  }

  /** The smallest squared image distance over a non-empty list of points. */
  function Closest(f: Map2, x: real, y: real, px: seq<real>, py: seq<real>): (r: real)
    requires |px| == |py| > 0
    ensures Nearest(f, x, y, px, py).Some? &&
            r == Dist2(f, x, y, Nearest(f, x, y, px, py).value.0, Nearest(f, x, y, px, py).value.1)
  {
    var ds := Dists(f, x, y, px, py);
    ds[FirstMin(ds)]
  }

  /** Scanning one more point replaces the candidate only on a strictly smaller distance. */
  lemma NearestSnoc(f: Map2, x: real, y: real, px: seq<real>, py: seq<real>, a: real, b: real)
    requires |px| == |py|
    ensures var d := Dist2(f, x, y, a, b);
            if |px| == 0 || d < Closest(f, x, y, px, py)
            then Nearest(f, x, y, px + [a], py + [b]) == Some((a, b)) && Closest(f, x, y, px + [a], py + [b]) == d
            else Nearest(f, x, y, px + [a], py + [b]) == Nearest(f, x, y, px, py) &&
                 Closest(f, x, y, px + [a], py + [b]) == Closest(f, x, y, px, py)
  {
    DistsSnoc(f, x, y, px, py, a, b);
    var ds := Dists(f, x, y, px, py);
    var ds' := Dists(f, x, y, px + [a], py + [b]);
    assert ds'[..|ds|] == ds;
    if |px| > 0 {
      assert (px + [a])[FirstMin(ds)] == px[FirstMin(ds)];
      assert (py + [b])[FirstMin(ds)] == py[FirstMin(ds)];
    }
  }

  /** The positions j of `ds` with ds[j] >= test, in increasing order. */
  function Keep(ds: seq<real>, test: real): (idx: seq<nat>)
    ensures forall k :: 0 <= k < |idx| ==> idx[k] < |ds|
    decreases |ds|
  {
    if |ds| == 0 then []
    else Keep(ds[..|ds| - 1], test) + (if ds[|ds| - 1] >= test then [|ds| - 1] else [])
  }

  /** Keep lists exactly the positions at or past the threshold, each once, in increasing order. */
  lemma {:induction false} KeepExact(ds: seq<real>, test: real)
    ensures forall k, k' :: 0 <= k < k' < |Keep(ds, test)| ==> Keep(ds, test)[k] < Keep(ds, test)[k']
    ensures forall j :: 0 <= j < |ds| ==> (ds[j] >= test <==> j in Keep(ds, test))
    ensures |Keep(ds, test)| <= |ds|
    decreases |ds|
  {
    if |ds| > 0 {
      var p := ds[..|ds| - 1];
      KeepExact(p, test);
    }
  }

  /** The values of `vs` at the positions `idx`, in that order. */
  function Pick(vs: seq<real>, idx: seq<nat>): (r: seq<real>)
    requires forall k :: 0 <= k < |idx| ==> idx[k] < |vs|
    ensures |r| == |idx| && forall k :: 0 <= k < |idx| ==> r[k] == vs[idx[k]]
  {
    seq(|idx|, k requires 0 <= k < |idx| => vs[idx[k]])
  }

  /** The row's points whose image is at least `test` (squared) away from (x, y): one coordinate. */
  function Far(f: Map2, x: real, y: real, test: real, rowX: seq<real>, rowY: seq<real>, vs: seq<real>): (r: seq<real>)
    requires |rowX| == |rowY| == |vs|
    ensures |r| <= |vs|
  {
    var ds := Dists(f, x, y, rowX, rowY);
    KeepExact(ds, test);
    Pick(vs, Keep(ds, test))
  }

  /** Every point Far keeps is one of the row's values at a position whose image is far enough. */
  lemma FarKeepsFarPoints(f: Map2, x: real, y: real, test: real, rowX: seq<real>, rowY: seq<real>, vs: seq<real>)
    requires |rowX| == |rowY| == |vs|
    ensures |Far(f, x, y, test, rowX, rowY, vs)| <= |vs|
    ensures forall k :: 0 <= k < |Far(f, x, y, test, rowX, rowY, vs)| ==>
              exists j :: 0 <= j < |vs| && Far(f, x, y, test, rowX, rowY, vs)[k] == vs[j] &&
                Dist2(f, x, y, rowX[j], rowY[j]) >= test
  {
    var ds := Dists(f, x, y, rowX, rowY);
    KeepExact(ds, test);
    var idx := Keep(ds, test);
    forall k | 0 <= k < |idx|
      ensures Dist2(f, x, y, rowX[idx[k]], rowY[idx[k]]) >= test
    {
      assert idx[k] in idx;
    }
  }

  /** Scanning one more point of a row appends it to the kept points exactly when it is far. */
  lemma FarSnoc(f: Map2, x: real, y: real, test: real, rowX: seq<real>, rowY: seq<real>, vs: seq<real>,
                a: real, b: real, v: real)
    requires |rowX| == |rowY| == |vs|
    ensures Far(f, x, y, test, rowX + [a], rowY + [b], vs + [v])
            == Far(f, x, y, test, rowX, rowY, vs) + (if Dist2(f, x, y, a, b) >= test then [v] else [])
  {
    DistsSnoc(f, x, y, rowX, rowY, a, b);
    var ds := Dists(f, x, y, rowX, rowY);
    var ds' := Dists(f, x, y, rowX + [a], rowY + [b]);
    assert ds'[..|ds|] == ds;
    var l := Far(f, x, y, test, rowX + [a], rowY + [b], vs + [v]);
    var r := Far(f, x, y, test, rowX, rowY, vs) + (if Dist2(f, x, y, a, b) >= test then [v] else []);
    assert |l| == |r|;
    forall k | 0 <= k < |l|
      ensures l[k] == r[k]
    {
    }
  }

  /**
   * The candidate half of ajustement's inner loop state after the first j points of a
   * row, the rows before it having contributed the points `seenX`, `seenY`.
   */
  ghost predicate RowNearest(f: Map2, x: real, y: real, seenX: seq<real>, seenY: seq<real>,
                             rowX: seq<real>, rowY: seq<real>, j: nat, best: Option<(real, real)>, dis: real)
    requires |seenX| == |seenY| && |rowX| == |rowY| && j <= |rowX|
  {
    && best == Nearest(f, x, y, seenX + rowX[..j], seenY + rowY[..j])
    && (|seenX| + j > 0 ==> dis == Closest(f, x, y, seenX + rowX[..j], seenY + rowY[..j]))
  }

  /** The kept-points half of the inner loop state after the first j points of a row. */
  ghost predicate RowFar(f: Map2, x: real, y: real, test: real, rowX: seq<real>, rowY: seq<real>, j: nat,
                         keptX: seq<real>, keptY: seq<real>)
    requires |rowX| == |rowY| && j <= |rowX|
  {
    && keptX == Far(f, x, y, test, rowX[..j], rowY[..j], rowX[..j])
    && keptY == Far(f, x, y, test, rowX[..j], rowY[..j], rowY[..j])
  }

  /** One pass of the inner loop at point j: a strictly closer point replaces the candidate. */
  lemma RowNearestStep(f: Map2, x: real, y: real, seenX: seq<real>, seenY: seq<real>,
                       rowX: seq<real>, rowY: seq<real>, j: nat, best: Option<(real, real)>, dis: real,
                       best': Option<(real, real)>, dis': real)
    requires |seenX| == |seenY| && |rowX| == |rowY| && j < |rowX|
    requires RowNearest(f, x, y, seenX, seenY, rowX, rowY, j, best, dis)
    requires var d := Dist2(f, x, y, rowX[j], rowY[j]);
             if best.None? || d < dis then best' == Some((rowX[j], rowY[j])) && dis' == d
             else best' == best && dis' == dis
    ensures RowNearest(f, x, y, seenX, seenY, rowX, rowY, j + 1, best', dis')
  {
    var a, b := rowX[j], rowY[j];
    NearestSnoc(f, x, y, seenX + rowX[..j], seenY + rowY[..j], a, b);
    assert rowX[..j + 1] == rowX[..j] + [a] && rowY[..j + 1] == rowY[..j] + [b];
    assert seenX + rowX[..j + 1] == (seenX + rowX[..j]) + [a];
    assert seenY + rowY[..j + 1] == (seenY + rowY[..j]) + [b];
  }

  /** One pass of the inner loop at point j: a far point is appended to the kept points. */
  lemma RowFarStep(f: Map2, x: real, y: real, test: real, rowX: seq<real>, rowY: seq<real>, j: nat,
                   keptX: seq<real>, keptY: seq<real>, keptX': seq<real>, keptY': seq<real>)
    requires |rowX| == |rowY| && j < |rowX|
    requires RowFar(f, x, y, test, rowX, rowY, j, keptX, keptY)
    requires var far := Dist2(f, x, y, rowX[j], rowY[j]) >= test;
             keptX' == (if far then keptX + [rowX[j]] else keptX) &&
             keptY' == (if far then keptY + [rowY[j]] else keptY)
    ensures RowFar(f, x, y, test, rowX, rowY, j + 1, keptX', keptY')
  {
    KeptStep(f, x, y, test, rowX, rowY, rowX, j, keptX, keptX');
    KeptStep(f, x, y, test, rowX, rowY, rowY, j, keptY, keptY');
  }

  /** RowFarStep for one coordinate `vs` of the row. */
  lemma KeptStep(f: Map2, x: real, y: real, test: real, rowX: seq<real>, rowY: seq<real>, vs: seq<real>,
                 j: nat, kept: seq<real>, kept': seq<real>)
    requires |rowX| == |rowY| == |vs| && j < |rowX|
    requires kept == Far(f, x, y, test, rowX[..j], rowY[..j], vs[..j])
    requires kept' == if Dist2(f, x, y, rowX[j], rowY[j]) >= test then kept + [vs[j]] else kept
    ensures kept' == Far(f, x, y, test, rowX[..j + 1], rowY[..j + 1], vs[..j + 1])
  {
    FarSnoc(f, x, y, test, rowX[..j], rowY[..j], vs[..j], rowX[j], rowY[j], vs[j]);
    assert rowX[..j + 1] == rowX[..j] + [rowX[j]] && rowY[..j + 1] == rowY[..j] + [rowY[j]];
    assert vs[..j + 1] == vs[..j] + [vs[j]];
  }

  /**
   * The inner loop of ajustement over one row: update the closest candidate and
   * collect the row's far points.
   */
  method ScanRow(f: Map2, x: real, y: real, test: real, rowX: seq<real>, rowY: seq<real>,
                 best: Option<(real, real)>, dis: real, ghost seenX: seq<real>, ghost seenY: seq<real>)
    returns (best': Option<(real, real)>, dis': real, keptX: seq<real>, keptY: seq<real>)
    requires |rowX| == |rowY| && |seenX| == |seenY|
    requires best == Nearest(f, x, y, seenX, seenY)
    requires |seenX| > 0 ==> dis == Closest(f, x, y, seenX, seenY)
    ensures best' == Nearest(f, x, y, seenX + rowX, seenY + rowY)
    ensures |seenX + rowX| > 0 ==> dis' == Closest(f, x, y, seenX + rowX, seenY + rowY)
    ensures keptX == Far(f, x, y, test, rowX, rowY, rowX)
    ensures keptY == Far(f, x, y, test, rowX, rowY, rowY)
  {
    best', dis', keptX, keptY := best, dis, [], [];
    assert seenX + rowX[..0] == seenX && seenY + rowY[..0] == seenY;
    for j := 0 to |rowX|
      invariant RowNearest(f, x, y, seenX, seenY, rowX, rowY, j, best', dis')
      invariant RowFar(f, x, y, test, rowX, rowY, j, keptX, keptY)
    {
      ghost var best0, dis0, keptX0, keptY0 := best', dis', keptX, keptY;
      var xOri, yOri := rowX[j], rowY[j];
      var (fx, fy) := f(xOri, yOri);
      var d := (fx - x) * (fx - x) + (fy - y) * (fy - y);
      assert d == Dist2(f, x, y, xOri, yOri);
      if best'.None? || d < dis' {
        dis' := d;
        best' := Some((xOri, yOri));
      }
      if d >= test {
        keptX := keptX + [xOri];
        keptY := keptY + [yOri];
      }
      RowNearestStep(f, x, y, seenX, seenY, rowX, rowY, j, best0, dis0, best', dis');
      RowFarStep(f, x, y, test, rowX, rowY, j, keptX0, keptY0, keptX, keptY);
    }
    assert rowX[..|rowX|] == rowX && rowY[..|rowY|] == rowY;
  }

  /** The far points of every row, one coordinate (`vs`, laid out like the grid). */
  function FarRows(f: Map2, x: real, y: real, test: real, xs: Matrix, ys: Matrix, vs: Matrix): (r: Matrix)
    requires SameShape(xs, ys) && SameShape(xs, vs)
    ensures |r| == |xs|
    ensures forall i :: 0 <= i < |xs| ==> r[i] == Far(f, x, y, test, xs[i], ys[i], vs[i])
  {
    seq(|xs|, i requires 0 <= i < |xs| => Far(f, x, y, test, xs[i], ys[i], vs[i]))
  }

  /** Scanning one more row appends that row's far points. */
  lemma FarRowsSnoc(f: Map2, x: real, y: real, test: real, xs: Matrix, ys: Matrix, vs: Matrix, i: nat)
    requires SameShape(xs, ys) && SameShape(xs, vs) && i < |xs|
    ensures FarRows(f, x, y, test, xs[..i + 1], ys[..i + 1], vs[..i + 1])
            == FarRows(f, x, y, test, xs[..i], ys[..i], vs[..i]) + [Far(f, x, y, test, xs[i], ys[i], vs[i])]
  {
    var l := FarRows(f, x, y, test, xs[..i + 1], ys[..i + 1], vs[..i + 1]);
    var r := FarRows(f, x, y, test, xs[..i], ys[..i], vs[..i]) + [Far(f, x, y, test, xs[i], ys[i], vs[i])];
    assert |l| == |r|;
    forall k | 0 <= k < |l|
      ensures l[k] == r[k]
    {
    }
  }

  /**
   * The state of ajustement after its first i rows: the candidate and its distance
   * are those of the first closest point among them, and the kept lists hold their
   * far points row by row.
   */
  ghost predicate Scanned(f: Map2, x: real, y: real, test: real, xs: Matrix, ys: Matrix, i: nat,
                          best: Option<(real, real)>, dis: real, keptX: Matrix, keptY: Matrix)
    requires SameShape(xs, ys) && i <= |xs|
  {
    FlattenSameShape(xs[..i], ys[..i]);
    && best == Nearest(f, x, y, Flatten(xs[..i]), Flatten(ys[..i]))
    && (|Flatten(xs[..i])| > 0 ==> dis == Closest(f, x, y, Flatten(xs[..i]), Flatten(ys[..i])))
    && keptX == FarRows(f, x, y, test, xs[..i], ys[..i], xs[..i])
    && keptY == FarRows(f, x, y, test, xs[..i], ys[..i], ys[..i])
  }

  /** One pass of the outer loop, scanning row i, extends the scanned state to i + 1 rows. */
  lemma ScannedStep(f: Map2, x: real, y: real, test: real, xs: Matrix, ys: Matrix, i: nat,
                    best: Option<(real, real)>, dis: real, keptX: Matrix, keptY: Matrix,
                    best': Option<(real, real)>, dis': real, rowX: seq<real>, rowY: seq<real>)
    requires SameShape(xs, ys) && i < |xs|
    requires Scanned(f, x, y, test, xs, ys, i, best, dis, keptX, keptY)
    requires |Flatten(xs[..i])| == |Flatten(ys[..i])|
    requires best' == Nearest(f, x, y, Flatten(xs[..i]) + xs[i], Flatten(ys[..i]) + ys[i])
    requires |Flatten(xs[..i]) + xs[i]| > 0 ==> dis' == Closest(f, x, y, Flatten(xs[..i]) + xs[i], Flatten(ys[..i]) + ys[i])
    requires rowX == Far(f, x, y, test, xs[i], ys[i], xs[i])
    requires rowY == Far(f, x, y, test, xs[i], ys[i], ys[i])
    ensures Scanned(f, x, y, test, xs, ys, i + 1, best', dis', keptX + [rowX], keptY + [rowY])
  {
    FlattenSnoc(xs, i);
    FlattenSnoc(ys, i);
    FarRowsSnoc(f, x, y, test, xs, ys, xs, i);
    FarRowsSnoc(f, x, y, test, xs, ys, ys, i);
  }

  /**
   * ajustement(x, y, xs, ys): the first grid point in row-major order whose image
   * is closest to (x, y) (None when the grid is empty), and for every row the points
   * whose squared image distance is at least pas^2/4, in their original order.
   */
  method NearestPreimage(f: Map2, pas: real, x: real, y: real, xs: Matrix, ys: Matrix)
    returns (best: Option<(real, real)>, keptX: Matrix, keptY: Matrix)
    requires SameShape(xs, ys)
    ensures best == NearestOnGrid(f, x, y, xs, ys)
    ensures keptX == FarRows(f, x, y, pas * pas / 4.0, xs, ys, xs)
    ensures keptY == FarRows(f, x, y, pas * pas / 4.0, xs, ys, ys)
  {
    var dis: real := 0.0;
    var test := pas * pas / 4.0;
    best, keptX, keptY := None, [], [];
    assert FarRows(f, x, y, test, xs[..0], ys[..0], xs[..0]) == [];
    assert FarRows(f, x, y, test, xs[..0], ys[..0], ys[..0]) == [];
    for i := 0 to |xs|
      invariant Scanned(f, x, y, test, xs, ys, i, best, dis, keptX, keptY)
    {
      FlattenSameShape(xs[..i], ys[..i]);
      var best', dis', tempX, tempY := ScanRow(f, x, y, test, xs[i], ys[i], best, dis,
                                                Flatten(xs[..i]), Flatten(ys[..i]));
      ScannedStep(f, x, y, test, xs, ys, i, best, dis, keptX, keptY, best', dis', tempX, tempY);
      best, dis := best', dis';
      keptX := keptX + [tempX];
      keptY := keptY + [tempY];
    }
    assert xs[..|xs|] == xs && ys[..|ys|] == ys;
  }
}
