/**
 * The sampling lattice of the square [t0, t1]^2 (numpy.linspace and numpy.meshgrid)
 * and the rectangular real arrays that every later stage works on.
 */
module Grid {

  /** A two-dimensional real array, row by row. */
  type Matrix = seq<seq<real>>

  /** `m` has `rows` rows of `cols` entries each. */
  predicate IsMatrix(m: Matrix, rows: nat, cols: nat) {
    |m| == rows && forall i :: 0 <= i < rows ==> |m[i]| == cols
  }

  /** `a` and `b` have the same number of rows and each row the same length. */
  predicate SameShape(a: Matrix, b: Matrix) {
    |a| == |b| && forall i :: 0 <= i < |a| ==> |a[i]| == |b[i]|
  }

  /** Multiplying both sides by a positive factor keeps an inequality. */
  lemma Scale(u: real, v: real, p: real)
    requires p > 0.0
    ensures (u <= v) == (u * p <= v * p)
    ensures (u < v) == (u * p < v * p)
  {
    assert v * p - u * p == (v - u) * p;
    if u < v {
      assert (v - u) * p > 0.0;
    } else if v < u {
      assert (u - v) * p > 0.0;
    }
  }

  /** Comparing `d` with multiples of a positive unit is comparing d / pas with the multipliers. */
  lemma DivideThrough(d: real, pas: real, lo: real, hi: real)
    requires pas > 0.0
    ensures (lo * pas <= d) == (lo <= d / pas)
    ensures (lo * pas < d) == (lo < d / pas)
    ensures (d <= hi * pas) == (d / pas <= hi)
    ensures (d < hi * pas) == (d / pas < hi)
  {
    var q := d / pas;
    assert q * pas == d;
    Scale(lo, q, pas);
    Scale(q, hi, pas);
  }

  /** The transpose of a rows x cols array (numpy's `.T`). */
  function Transpose(m: Matrix, rows: nat, cols: nat): (t: Matrix)
    requires IsMatrix(m, rows, cols)
    ensures IsMatrix(t, cols, rows)
    ensures forall i, j :: 0 <= i < cols && 0 <= j < rows ==> t[i][j] == m[j][i]
  {
    seq(cols, i requires 0 <= i < cols => seq(rows, j requires 0 <= j < rows => m[j][i]))
  }

  /** Every entry of `m` plus `c` (numpy's broadcast `m + c`). */
  function Offset(m: Matrix, c: real): (r: Matrix)
    ensures SameShape(r, m)
    ensures forall i, j :: 0 <= i < |m| && 0 <= j < |m[i]| ==> r[i][j] == m[i][j] + c
  {
    seq(|m|, i requires 0 <= i < |m| => seq(|m[i]|, j requires 0 <= j < |m[i]| => m[i][j] + c))
  }

  /** The entrywise image of two same-shaped arrays under `g` (a numpy ufunc). */
  function Zip(g: (real, real) -> real, a: Matrix, b: Matrix): (r: Matrix)
    requires SameShape(a, b)
    ensures SameShape(r, a)
    ensures forall i, j :: 0 <= i < |a| && 0 <= j < |a[i]| ==> r[i][j] == g(a[i][j], b[i][j])
  {
    seq(|a|, i requires 0 <= i < |a| => seq(|a[i]|, j requires 0 <= j < |a[i]| => g(a[i][j], b[i][j])))
  }

  /** All entries of `m` in row-major order (the order of a `for i: for j:` traversal). */
  function Flatten(m: Matrix): (r: seq<real>)
    decreases |m|
  {
    if |m| == 0 then [] else Flatten(m[..|m| - 1]) + m[|m| - 1]
  }

  /** Flattening one more row appends that row. */
  lemma FlattenSnoc(m: Matrix, i: nat)
    requires i < |m|
    ensures Flatten(m[..i + 1]) == Flatten(m[..i]) + m[i]
  {
    assert m[..i + 1][..i] == m[..i];
  }

  /**
   * The traversal is row-major: entry [i][j] of a rows x cols array sits at
   * position i * cols + j.
   */
  lemma {:induction false} FlattenRowMajor(m: Matrix, rows: nat, cols: nat, i: nat, j: nat)
    requires IsMatrix(m, rows, cols) && i < rows && j < cols
    ensures i * cols + j < |Flatten(m)| && Flatten(m)[i * cols + j] == m[i][j]
    decreases rows
  {
    var p := m[..rows - 1];
    FlattenLength(p, rows - 1, cols);
    assert Flatten(m) == Flatten(p) + m[rows - 1];
    assert (rows - 1) * cols + cols == rows * cols;
    if i < rows - 1 {
      FlattenRowMajor(p, rows - 1, cols, i, j);
      assert (i + 1) * cols <= (rows - 1) * cols;
    } else {
      assert i * cols == |Flatten(p)|;
    }
  }

  /** A rows x cols array flattens to rows * cols entries. */
  lemma {:induction false} FlattenLength(m: Matrix, rows: nat, cols: nat)
    requires IsMatrix(m, rows, cols)
    ensures |Flatten(m)| == rows * cols
    decreases rows
  {
    if rows > 0 {
      FlattenLength(m[..rows - 1], rows - 1, cols);
      assert (rows - 1) * cols + cols == rows * cols;
    }
  }

  /** Flattening keeps the row-by-row shape: same-shaped arrays flatten to equally long sequences. */
  lemma {:induction false} FlattenSameShape(a: Matrix, b: Matrix)
    requires SameShape(a, b)
    ensures |Flatten(a)| == |Flatten(b)|
    decreases |a|
  {
    if |a| > 0 {
      FlattenSameShape(a[..|a| - 1], b[..|b| - 1]);
    }
  }

  /**
   * numpy.linspace(t0, t1, n): n evenly spaced samples; numpy stores `t1` itself as
   * the last sample, and a single sample is `t0`.
   */
  function Linspace(t0: real, t1: real, n: nat): (l: seq<real>)
    ensures |l| == n
  {
    if n == 0 then []
    else if n == 1 then [t0]
    else seq(n, i requires 0 <= i < n =>
               if i == n - 1 then t1 else t0 + (i as real) * ((t1 - t0) / ((n - 1) as real)))
  }

  /** The spacing between two neighbouring samples of an n-point axis over [t0, t1]. */
  function Step(t0: real, t1: real, n: int): real
    requires n != 1
  {
    (t1 - t0) / ((n - 1) as real)
  }

  /** n - 1 steps span the axis from t0 to t1, and the step has the sign of t1 - t0 when n >= 2. */
  lemma StepSpansAxis(t0: real, t1: real, n: int)
    requires n != 1
    ensures Step(t0, t1, n) * ((n - 1) as real) == t1 - t0
    ensures n >= 2 ==> (t0 < t1 <==> Step(t0, t1, n) > 0.0) && (t0 == t1 <==> Step(t0, t1, n) == 0.0)
  {
    var h := Step(t0, t1, n);
    var m := (n - 1) as real;
    assert h * m == t1 - t0;
    if n >= 2 {
      assert m > 0.0;
      if h > 0.0 { assert h * m > 0.0; }
      if h < 0.0 { assert (-h) * m > 0.0; }
    }
  }

  /** Sample i of the axis sits i steps after t0, the last one included. */
  lemma LinspaceAt(t0: real, t1: real, n: nat, i: nat)
    requires n >= 2 && i < n
    ensures Linspace(t0, t1, n)[i] == t0 + (i as real) * Step(t0, t1, n)
  {
    if i == n - 1 {
      var k := (n - 1) as real;
      assert k * ((t1 - t0) / k) == t1 - t0;
    }
  }

  /** The axis starts at t0, ends at t1 and neighbouring samples are one step apart. */
  lemma LinspaceEvenlySpaced(t0: real, t1: real, n: nat)
    requires n >= 2
    ensures Linspace(t0, t1, n)[0] == t0 && Linspace(t0, t1, n)[n - 1] == t1
    ensures forall i :: 0 <= i < n - 1 ==>
              Linspace(t0, t1, n)[i + 1] - Linspace(t0, t1, n)[i] == Step(t0, t1, n)
  {
    var l := Linspace(t0, t1, n);
    forall i | 0 <= i < n - 1
      ensures l[i + 1] - l[i] == Step(t0, t1, n)
    {
      LinspaceAt(t0, t1, n, i);
      LinspaceAt(t0, t1, n, i + 1);
    }
  }

  /** On a proper interval (t0 < t1) the samples strictly increase, so they are distinct. */
  lemma LinspaceIncreasing(t0: real, t1: real, n: nat, i: nat, j: nat)
    requires n >= 2 && t0 < t1 && i < j < n
    ensures Linspace(t0, t1, n)[i] < Linspace(t0, t1, n)[j]
  {
    var h := Step(t0, t1, n);
    LinspaceAt(t0, t1, n, i);
    LinspaceAt(t0, t1, n, j);
    assert h > 0.0;
    var d := (j - i) as real;
    assert d >= 1.0;
    assert d * h >= h by {
      assert d * h - h == (d - 1.0) * h;
      assert (d - 1.0) * h >= 0.0;
    }
    assert (j as real) * h == (i as real) * h + d * h;
  }

  /** numpy.meshgrid(axis, axis): X varies along columns, Y along rows. */
  datatype Plane = Plane(xs: Matrix, ys: Matrix)

  function Meshgrid(axis: seq<real>): (p: Plane)
    ensures IsMatrix(p.xs, |axis|, |axis|) && IsMatrix(p.ys, |axis|, |axis|)
    ensures forall r, c :: 0 <= r < |axis| && 0 <= c < |axis| ==> p.xs[r][c] == axis[c] && p.ys[r][c] == axis[r]
  {
    var n := |axis|;
    Plane(seq(n, r requires 0 <= r < n => axis),
          seq(n, r requires 0 <= r < n => seq(n, c requires 0 <= c < n => axis[r])))
  }

  /** The lattice the class samples for parameters (t0, t1, taille). */
  function Lattice(t0: real, t1: real, taille: nat): (p: Plane)
    ensures IsMatrix(p.xs, taille, taille) && IsMatrix(p.ys, taille, taille)
  {
    Meshgrid(Linspace(t0, t1, taille))
  }

  /**
   * Node (r, c) of the lattice is the point (t0 + c*step, t0 + r*step): the first
   * column is t0, the last t1, and symmetrically for the rows of Y.
   */
  lemma LatticeNode(t0: real, t1: real, taille: nat, r: nat, c: nat)
    requires taille >= 2 && r < taille && c < taille
    ensures Lattice(t0, t1, taille).xs[r][c] == t0 + (c as real) * Step(t0, t1, taille)
    ensures Lattice(t0, t1, taille).ys[r][c] == t0 + (r as real) * Step(t0, t1, taille)
    ensures Lattice(t0, t1, taille).xs[r][0] == t0 && Lattice(t0, t1, taille).xs[r][taille - 1] == t1
    ensures Lattice(t0, t1, taille).ys[0][c] == t0 && Lattice(t0, t1, taille).ys[taille - 1][c] == t1
  {
    LinspaceAt(t0, t1, taille, r);
    LinspaceAt(t0, t1, taille, c);
    LinspaceEvenlySpaced(t0, t1, taille);
  }
}
