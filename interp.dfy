/**
 * Locating a point in the sampling lattice (_find_sim_points) and blending the
 * angle field at the four corners of its cell (_angle_moyen).
 */
module Interp {
  import opened Grid
  import opened Angles

  /** One axis of a cell: lower index, upper index and the offset inside the cell. */
  datatype Axis = Axis(k0: int, k1: int, frac: real)

  /**
   * One axis of _find_sim_points: k0 = (v - t0) // pas, lowered to taille - 1 when it
   * reaches taille (there is no lower clamp); k1 is the next index unless k0 is
   * already the last one; the offset is measured from index k0 in steps.
   */
  function LocateAxis(v: real, t0: real, pas: real, taille: int): (a: Axis)
    requires pas != 0.0
    ensures a.k0 <= taille - 1 && a.k1 <= taille - 1
    ensures a.k1 == a.k0 + 1 || (a.k1 == a.k0 && a.k0 == taille - 1)
    ensures t0 + (a.k0 as real + a.frac) * pas == v
    ensures (0.0 <= a.frac < 1.0) || (a.k0 == taille - 1 && a.frac >= 1.0)
  {
    var q := (v - t0) / pas;
    var k := q.Floor;
    var k0 := if k >= taille then taille - 1 else k;
    var k1 := if k0 < taille - 1 then k0 + 1 else k0;
    var frac := (v - t0 - (k0 as real) * pas) / pas;
    assert frac * pas == v - t0 - (k0 as real) * pas;
    assert (k0 as real + frac) * pas == (k0 as real) * pas + frac * pas;
    assert q * pas == v - t0;
    assert (frac - (q - k0 as real)) * pas == 0.0;
    assert frac == q - k0 as real;
    Axis(k0, k1, frac)
  }

  /** The four corners of a cell and the point's offsets (t along x, s along y). */
  datatype Cell = Cell(p00: (int, int), p10: (int, int), p01: (int, int), p11: (int, int), t: real, s: real)

  /**
   * _find_sim_points. The corners come in the order (kx0, ky0), (kx1, ky0),
   * (kx0, ky1), (kx1, ky1); each index is at most taille - 1, and the offsets put
   * the point back exactly: x == t0 + (kx0 + t) * pas, y == t0 + (ky0 + s) * pas.
   */
  function FindCell(x: real, y: real, t0: real, t1: real, taille: int): (c: Cell)
    requires taille != 1 && t0 != t1
    ensures c.p10 == (c.p11.0, c.p00.1) && c.p01 == (c.p00.0, c.p11.1)
    ensures c.p00.0 <= c.p11.0 <= taille - 1 && c.p00.1 <= c.p11.1 <= taille - 1
    ensures c.p11.0 - c.p00.0 <= 1 && c.p11.1 - c.p00.1 <= 1
    ensures t0 + (c.p00.0 as real + c.t) * Step(t0, t1, taille) == x
    ensures t0 + (c.p00.1 as real + c.s) * Step(t0, t1, taille) == y
    ensures (0.0 <= c.t < 1.0) || (c.p00.0 == taille - 1 && c.t >= 1.0)
    ensures (0.0 <= c.s < 1.0) || (c.p00.1 == taille - 1 && c.s >= 1.0)
  {
    var pas := Step(t0, t1, taille);
    var ax := LocateAxis(x, t0, pas, taille);
    var ay := LocateAxis(y, t0, pas, taille);
    Cell((ax.k0, ay.k0), (ax.k1, ay.k0), (ax.k0, ay.k1), (ax.k1, ay.k1), ax.frac, ay.frac)
  }

  /** Inside a proper axis [t0, t1] the lower index is a real lattice index and the offset is in [0, 1). */
  lemma LocateAxisInside(v: real, t0: real, t1: real, taille: int)
    requires taille >= 2 && t0 < t1 && t0 <= v <= t1
    ensures var a := LocateAxis(v, t0, Step(t0, t1, taille), taille);
            0 <= a.k0 <= taille - 1 && 0.0 <= a.frac < 1.0 &&
            (v < t1 ==> a.k1 == a.k0 + 1) &&
            (v == t1 ==> a.k0 == a.k1 == taille - 1 && a.frac == 0.0)
  {
    var pas := Step(t0, t1, taille);
    var m := (taille - 1) as real;
    assert pas > 0.0;
    assert pas * m == t1 - t0;
    DivideThrough(v - t0, pas, 0.0, m);
    var a := LocateAxis(v, t0, pas, taille);
    var q := (v - t0) / pas;
    assert a.k0 == q.Floor;
    assert a.frac * pas == v - t0 - (a.k0 as real) * pas;
    assert a.frac == q - a.k0 as real by {
      assert q * pas == v - t0;
      assert (a.frac - (q - a.k0 as real)) * pas == 0.0;
    }
  }

  /**
   * For a point of the square [t0, t1]^2 both lower indices are lattice indices in
   * [0, taille - 1], both offsets are in [0, 1), and the cell is a proper one except on
   * the far edges.
   */
  lemma FindCellInside(x: real, y: real, t0: real, t1: real, taille: int)
    requires taille >= 2 && t0 < t1 && t0 <= x <= t1 && t0 <= y <= t1
    ensures var c := FindCell(x, y, t0, t1, taille);
            0 <= c.p00.0 <= taille - 1 && 0 <= c.p00.1 <= taille - 1 &&
            0.0 <= c.t < 1.0 && 0.0 <= c.s < 1.0 &&
            (x < t1 ==> c.p11.0 == c.p00.0 + 1) && (y < t1 ==> c.p11.1 == c.p00.1 + 1)
  {
    LocateAxisInside(x, t0, t1, taille);
    LocateAxisInside(y, t0, t1, taille);
  }

  /** A point exactly i steps past t0, with i a lattice index, starts the cell at i with offset 0. */
  lemma LocateAxisAtStep(v: real, t0: real, pas: real, taille: int, i: nat)
    requires pas != 0.0 && i < taille && v - t0 == (i as real) * pas
    ensures LocateAxis(v, t0, pas, taille).k0 == i && LocateAxis(v, t0, pas, taille).frac == 0.0
  {
    var q := (v - t0) / pas;
    assert q * pas == (i as real) * pas;
    assert (q - i as real) * pas == 0.0;
    assert q == i as real;
  }

  /** At lattice sample i the axis cell starts at i with offset 0. */
  lemma LocateAxisAtSample(t0: real, t1: real, taille: int, i: nat)
    requires taille >= 2 && t0 != t1 && i < taille
    ensures var a := LocateAxis(Linspace(t0, t1, taille)[i], t0, Step(t0, t1, taille), taille);
            a.k0 == i && a.frac == 0.0
  {
    LinspaceAt(t0, t1, taille, i);
    LocateAxisAtStep(Linspace(t0, t1, taille)[i], t0, Step(t0, t1, taille), taille, i);
  }

  /** At lattice node (r, c), i.e. the point (X[r][c], Y[r][c]), the cell is (c, r) with zero offsets. */
  lemma FindCellAtNode(t0: real, t1: real, taille: int, r: nat, c: nat)
    requires taille >= 2 && t0 != t1 && r < taille && c < taille
    ensures var p := Lattice(t0, t1, taille);
            var cell := FindCell(p.xs[r][c], p.ys[r][c], t0, t1, taille);
            cell.p00 == (c, r) && cell.t == 0.0 && cell.s == 0.0
  {
    LocateAxisAtSample(t0, t1, taille, r);
    LocateAxisAtSample(t0, t1, taille, c);
  }

  /** `i` is a valid numpy index along an axis of length n: in [-n, n). */
  predicate IndexIn(n: nat, i: int) {
    -(n as int) <= i < n
  }

  /** numpy indexing of an n x n array: an index in [-n, -1] counts from the end. */
  function Read(m: Matrix, n: nat, i: int, j: int): (r: real)
    requires IsMatrix(m, n, n) && IndexIn(n, i) && IndexIn(n, j)
    ensures 0 <= i && 0 <= j ==> r == m[i][j]
  {
    m[if i < 0 then i + n else i][if j < 0 then j + n else j]
  }

  /** Index -k names the same entry as index n - k, on either axis. */
  lemma ReadFromEnd(m: Matrix, n: nat, i: nat, j: nat)
    requires IsMatrix(m, n, n) && i < n && j < n
    ensures Read(m, n, i - n, j) == m[i][j] && Read(m, n, i, j - n) == m[i][j]
    ensures Read(m, n, i - n, j - n) == m[i][j]
  {
  }

  /** The least and the greatest of four corner values. */
  function Min4(a: real, b: real, c: real, d: real): (m: real)
    ensures m <= a && m <= b && m <= c && m <= d
  {
    var ab := if a <= b then a else b;
    var cd := if c <= d then c else d;
    if ab <= cd then ab else cd
  }

  function Max4(a: real, b: real, c: real, d: real): (m: real)
    ensures m >= a && m >= b && m >= c && m >= d
  {
    var ab := if a >= b then a else b;
    var cd := if c >= d then c else d;
    if ab >= cd then ab else cd
  }

  /** The product of two numbers of known sign has the expected sign. */
  lemma MulSign(x: real, y: real)
    ensures x >= 0.0 && y >= 0.0 ==> x * y >= 0.0
    ensures x >= 0.0 && y <= 0.0 ==> x * y <= 0.0
  {
  }

  /** Linear interpolation between a (s = 0) and b (s = 1). */
  function Lerp(a: real, b: real, s: real): real {
    (1.0 - s) * a + s * b
  }

  /** For s in [0, 1] the interpolation of two values in [lo, hi] stays in [lo, hi]. */
  lemma LerpBetween(a: real, b: real, s: real, lo: real, hi: real)
    requires 0.0 <= s <= 1.0 && lo <= a <= hi && lo <= b <= hi
    ensures lo <= Lerp(a, b, s) <= hi
  {
    assert Lerp(a, b, s) == a + s * (b - a);
    assert Lerp(a, b, s) == b - (1.0 - s) * (b - a);
    MulSign(s, b - a);
    MulSign(1.0 - s, b - a);
    MulSign(s, a - b);
    MulSign(1.0 - s, a - b);
  }

  /**
   * The bilinear blend of one channel: weights (1-t)(1-s), t(1-s), (1-t)s and ts on
   * the corners 00, 10, 01 and 11. The weights sum to 1, a corner is reproduced at
   * its own offsets, and equal corners give their common value.
   */
  function Mix(a00: real, a10: real, a01: real, a11: real, t: real, s: real): (r: real)
    ensures (1.0 - t) * (1.0 - s) + t * (1.0 - s) + (1.0 - t) * s + t * s == 1.0
    ensures r == (1.0 - t) * (1.0 - s) * a00 + t * (1.0 - s) * a10 + (1.0 - t) * s * a01 + t * s * a11
    ensures t == 0.0 && s == 0.0 ==> r == a00
    ensures t == 1.0 && s == 0.0 ==> r == a10
    ensures t == 0.0 && s == 1.0 ==> r == a01
    ensures t == 1.0 && s == 1.0 ==> r == a11
    ensures a00 == a10 == a01 == a11 ==> r == a00
  {
    Lerp(Lerp(a00, a01, s), Lerp(a10, a11, s), t)
  }

  /** For offsets in [0, 1] the blend lies between the least and the greatest corner. */
  lemma MixBounded(a00: real, a10: real, a01: real, a11: real, t: real, s: real)
    requires 0.0 <= t <= 1.0 && 0.0 <= s <= 1.0
    ensures Min4(a00, a10, a01, a11) <= Mix(a00, a10, a01, a11, t, s) <= Max4(a00, a10, a01, a11)
  {
    var lo, hi := Min4(a00, a10, a01, a11), Max4(a00, a10, a01, a11);
    LerpBetween(a00, a01, s, lo, hi);
    LerpBetween(a10, a11, s, lo, hi);
    LerpBetween(Lerp(a00, a01, s), Lerp(a10, a11, s), t, lo, hi);
  }

  /** The four corners are valid (possibly negative) numpy indices into n x n channels. */
  predicate CornersIn(n: nat, p00: (int, int), p10: (int, int), p01: (int, int), p11: (int, int)) {
    && IndexIn(n, p00.0) && IndexIn(n, p00.1) && IndexIn(n, p10.0) && IndexIn(n, p10.1)
    && IndexIn(n, p01.0) && IndexIn(n, p01.1) && IndexIn(n, p11.0) && IndexIn(n, p11.1)
  }

  /**
   * _angle_moyen as written: channel 0 read at [p[0], p[1]], channel 1 at
   * [p[1], p[0]], each blended with the same offsets.
   */
  function Blend(a: Field, n: nat, p00: (int, int), p10: (int, int), p01: (int, int), p11: (int, int),
                 t: real, s: real): (r: (real, real))
    requires IsMatrix(a.along, n, n) && IsMatrix(a.across, n, n) && CornersIn(n, p00, p10, p01, p11)
    ensures t == 0.0 && s == 0.0 && p00.0 >= 0 && p00.1 >= 0 ==>
              r == (a.along[p00.0][p00.1], a.across[p00.1][p00.0])
    ensures t == 1.0 && s == 1.0 && p11.0 >= 0 && p11.1 >= 0 ==>
              r == (a.along[p11.0][p11.1], a.across[p11.1][p11.0])
  {
    (Mix(Read(a.along, n, p00.0, p00.1), Read(a.along, n, p10.0, p10.1),
         Read(a.along, n, p01.0, p01.1), Read(a.along, n, p11.0, p11.1), t, s),
     Mix(Read(a.across, n, p00.1, p00.0), Read(a.across, n, p10.1, p10.0),
         Read(a.across, n, p01.1, p01.0), Read(a.across, n, p11.1, p11.0), t, s))
  }

  /**
   * The angles the field holds for lattice node (r, c), the point (X[r][c], Y[r][c]):
   * channel 0 is laid out like the lattice ([row][column]) and channel 1, built from
   * a transpose, the other way round ([column][row]).
   */
  function NodeAngles(a: Field, n: nat, r: nat, c: nat): (real, real)
    requires IsMatrix(a.along, n, n) && IsMatrix(a.across, n, n) && r < n && c < n
  {
    (a.along[r][c], a.across[c][r])
  }

  /**
   * As written, the blend at lattice node (r, c) returns channel 0 at [c][r] and
   * channel 1 at [r][c]: the angles of the mirrored node (c, r).
   */
  lemma BlendAtNodeMirrored(a: Field, t0: real, t1: real, n: nat, r: nat, c: nat)
    requires n >= 2 && t0 != t1 && r < n && c < n
    requires IsMatrix(a.along, n, n) && IsMatrix(a.across, n, n)
    ensures var p := Lattice(t0, t1, n);
            var cell := FindCell(p.xs[r][c], p.ys[r][c], t0, t1, n);
            CornersIn(n, cell.p00, cell.p10, cell.p01, cell.p11) &&
            Blend(a, n, cell.p00, cell.p10, cell.p01, cell.p11, cell.t, cell.s) == NodeAngles(a, n, c, r)
  {
    FindCellAtNode(t0, t1, n, r, c);
  }

  /**
   * A field and a node for which the blend as written differs from the node's own
   * angles: on the 2 x 2 lattice over [-1, 1], node (0, 1) is the point (1, -1).
   */
  lemma BlendMirroredCounterexample()
    ensures var a := Field([[0.0, 0.0], [1.0, 1.0]], [[0.0, 1.0], [0.0, 1.0]]);
            var p := Lattice(-1.0, 1.0, 2);
            var cell := FindCell(p.xs[0][1], p.ys[0][1], -1.0, 1.0, 2);
            CornersIn(2, cell.p00, cell.p10, cell.p01, cell.p11) &&
            Blend(a, 2, cell.p00, cell.p10, cell.p01, cell.p11, cell.t, cell.s) != NodeAngles(a, 2, 0, 1)
  {
    var a := Field([[0.0, 0.0], [1.0, 1.0]], [[0.0, 1.0], [0.0, 1.0]]);
    BlendAtNodeMirrored(a, -1.0, 1.0, 2, 0, 1);
    assert NodeAngles(a, 2, 1, 0) == (1.0, 1.0);
  }

  /**
   * The blend with the channels read where the lattice puts them: channel 0 at
   * [y index][x index], channel 1 at [x index][y index].
   */
  function BlendAt(a: Field, n: nat, p00: (int, int), p10: (int, int), p01: (int, int), p11: (int, int),
                   t: real, s: real): (r: (real, real))
    requires IsMatrix(a.along, n, n) && IsMatrix(a.across, n, n) && CornersIn(n, p00, p10, p01, p11)
    ensures t == 0.0 && s == 0.0 && p00.0 >= 0 && p00.1 >= 0 ==>
              r == (a.along[p00.1][p00.0], a.across[p00.0][p00.1])
    ensures t == 1.0 && s == 1.0 && p11.0 >= 0 && p11.1 >= 0 ==>
              r == (a.along[p11.1][p11.0], a.across[p11.0][p11.1])
  {
    (Mix(Read(a.along, n, p00.1, p00.0), Read(a.along, n, p10.1, p10.0),
         Read(a.along, n, p01.1, p01.0), Read(a.along, n, p11.1, p11.0), t, s),
     Mix(Read(a.across, n, p00.0, p00.1), Read(a.across, n, p10.0, p10.1),
         Read(a.across, n, p01.0, p01.1), Read(a.across, n, p11.0, p11.1), t, s))
  }

  /** Interpolation is exact at the lattice nodes: at node (r, c) it returns that node's angles. */
  lemma BlendAtExactAtNodes(a: Field, t0: real, t1: real, n: nat, r: nat, c: nat)
    requires n >= 2 && t0 != t1 && r < n && c < n
    requires IsMatrix(a.along, n, n) && IsMatrix(a.across, n, n)
    ensures var p := Lattice(t0, t1, n);
            var cell := FindCell(p.xs[r][c], p.ys[r][c], t0, t1, n);
            CornersIn(n, cell.p00, cell.p10, cell.p01, cell.p11) &&
            BlendAt(a, n, cell.p00, cell.p10, cell.p01, cell.p11, cell.t, cell.s) == NodeAngles(a, n, r, c)
  {
    FindCellAtNode(t0, t1, n, r, c);
  }
}
