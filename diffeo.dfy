/**
 * The object fonc_diff_infini: a smooth map of the plane with four one-entry caches,
 * each keyed by the sampling parameters (t0, t1, taille). The symbolic side (sympy
 * expressions and their lambdified forms) is given here as numeric functions.
 */
module Diffeo {
  import opened Wrappers
  import opened Grid
  import opened Angles

  /** The sampling parameters that key every cache. */
  datatype Key = Key(t0: real, t1: real, taille: nat)

  /** One cache slot: the last key written and the value stored for it, both initially absent. */
  datatype Memo<V> = Memo(key: Option<Key>, value: Option<V>)

  /** A slot is coherent when any stored value is the value `spec` gives for its key. */
  predicate Coherent<V(==)>(m: Memo<V>, spec: Key -> V) {
    m.value.Some? ==> m.key.Some? && m.value.value == spec(m.key.value)
  }

  /** The Jacobian matrix [[a, b], [c, d]] of the map at one point. */
  datatype Jacobian = Jacobian(a: real, b: real, c: real, d: real)

  /** The four Jacobian entries sampled over a plane, each laid out like the plane. */
  datatype JacobianField = JacobianField(a: Matrix, b: Matrix, c: Matrix, d: Matrix)

  /** The sampled plane for a key: the meshgrid of linspace(t0, t1, taille) with itself. */
  function PlanOf(k: Key): (p: Plane)
    ensures IsMatrix(p.xs, k.taille, k.taille) && IsMatrix(p.ys, k.taille, k.taille)
  {
    Lattice(k.t0, k.t1, k.taille)
  }

  /** The image of a sampled plane under f, point by point. */
  function ImageOf(f: (real, real) -> (real, real), p: Plane): (q: Plane)
    requires SameShape(p.xs, p.ys)
    ensures SameShape(q.xs, p.xs) && SameShape(q.ys, p.xs)
    ensures forall i, j :: 0 <= i < |p.xs| && 0 <= j < |p.xs[i]| ==>
              (q.xs[i][j], q.ys[i][j]) == f(p.xs[i][j], p.ys[i][j])
  {
    Plane(Zip((x, y) => f(x, y).0, p.xs, p.ys), Zip((x, y) => f(x, y).1, p.xs, p.ys))
  }

  /** The Jacobian of the map at every point of a sampled plane. */
  function JacobianOf(df: (real, real) -> Jacobian, p: Plane): (j: JacobianField)
    requires SameShape(p.xs, p.ys)
    ensures SameShape(j.a, p.xs) && SameShape(j.b, p.xs) && SameShape(j.c, p.xs) && SameShape(j.d, p.xs)
    ensures forall i, k :: 0 <= i < |p.xs| && 0 <= k < |p.xs[i]| ==>
              Jacobian(j.a[i][k], j.b[i][k], j.c[i][k], j.d[i][k]) == df(p.xs[i][k], p.ys[i][k])
  {
    JacobianField(Zip((x, y) => df(x, y).a, p.xs, p.ys), Zip((x, y) => df(x, y).b, p.xs, p.ys),
                  Zip((x, y) => df(x, y).c, p.xs, p.ys), Zip((x, y) => df(x, y).d, p.xs, p.ys))
  }

  /**
   * The raw direction angles of the images of the two coordinate directions:
   * atan2(c, a) for the first column of the Jacobian and atan2(d, b) for the second.
   */
  function RawAngles(atan2: (real, real) -> real, j: JacobianField, n: nat): (r: (Matrix, Matrix))
    requires IsMatrix(j.a, n, n) && IsMatrix(j.b, n, n) && IsMatrix(j.c, n, n) && IsMatrix(j.d, n, n)
    ensures IsMatrix(r.0, n, n) && IsMatrix(r.1, n, n)
    ensures forall i, k :: 0 <= i < n && 0 <= k < n ==>
              r.0[i][k] == atan2(j.c[i][k], j.a[i][k]) && r.1[i][k] == atan2(j.d[i][k], j.b[i][k])
  {
    (Zip(atan2, j.c, j.a), Zip(atan2, j.d, j.b))
  }

  class Map {
    /** The map f, its Jacobian df and the two-argument arctangent used on it. */
    const f: (real, real) -> (real, real)
    const df: (real, real) -> Jacobian
    const atan2: (real, real) -> real

    var plan: Memo<Plane>
    var tabF: Memo<Plane>
    var tabDf: Memo<JacobianField>
    var angles: Memo<Field>

    /** What tab_f stores for a key. */
    function TabFOf(k: Key): (q: Plane)
      ensures IsMatrix(q.xs, k.taille, k.taille) && IsMatrix(q.ys, k.taille, k.taille)
    {
      ImageOf(f, PlanOf(k))
    }

    /** Entry (r, c) of tab_f is the image of the sample point (t0 + c * pas, t0 + r * pas). */
    lemma TabFAtNode(k: Key, r: nat, c: nat)
      requires k.taille >= 2 && r < k.taille && c < k.taille
      ensures var pas := Step(k.t0, k.t1, k.taille);
              (TabFOf(k).xs[r][c], TabFOf(k).ys[r][c]) == f(k.t0 + (c as real) * pas, k.t0 + (r as real) * pas)
    {
      LatticeNode(k.t0, k.t1, k.taille, r, c);
    }

    /** What tab_df stores for a key. */
    function TabDfOf(k: Key): (j: JacobianField)
      ensures IsMatrix(j.a, k.taille, k.taille) && IsMatrix(j.b, k.taille, k.taille)
      ensures IsMatrix(j.c, k.taille, k.taille) && IsMatrix(j.d, k.taille, k.taille)
    {
      JacobianOf(df, PlanOf(k))
    }

    /** What tab_angles_R stores for a key: both angle channels, unwrapped. */
    function AnglesOf(k: Key): (a: Field)
      ensures IsMatrix(a.along, k.taille, k.taille) && IsMatrix(a.across, k.taille, k.taille)
    {
      var raw := RawAngles(atan2, TabDfOf(k), k.taille);
      AngleField(raw.0, raw.1, k.taille)
    }

    /**
     * Channel 0 at (r, c) is a direction of the image of the first coordinate vector
     * there, unwrapped along the row; channel 1, read at [c][r] and shifted back by
     * PI/2, is a direction of the image of the second one, unwrapped down the column.
     */
    lemma AnglesOfDirections(k: Key, r: nat, c: nat)
      requires r < k.taille && c < k.taille
      ensures var j := TabDfOf(k);
              Congruent(AnglesOf(k).along[r][c], atan2(j.c[r][c], j.a[r][c])) &&
              Congruent(AnglesOf(k).across[c][r] + PI / 2.0, atan2(j.d[r][c], j.b[r][c]))
      ensures c > 0 ==> -PI <= AnglesOf(k).along[r][c] - AnglesOf(k).along[r][c - 1] <= PI
      ensures r > 0 ==> -PI <= AnglesOf(k).across[c][r] - AnglesOf(k).across[c][r - 1] <= PI
    {
      var raw := RawAngles(atan2, TabDfOf(k), k.taille);
      AlongRows(raw.0, raw.1, k.taille, r, c);
      AcrossColumns(raw.0, raw.1, k.taille, c, r);
    }

    ghost predicate PlanOk() reads this { Coherent(plan, PlanOf) }
    ghost predicate TabFOk() reads this { Coherent(tabF, TabFOf) }
    ghost predicate TabDfOk() reads this { Coherent(tabDf, TabDfOf) }
    ghost predicate AnglesOk() reads this { Coherent(angles, AnglesOf) }

    /** Every cache holds, if anything, the value for its own key. */
    ghost predicate Valid() reads this {
      PlanOk() && TabFOk() && TabDfOk() && AnglesOk()
    }

    /** The object as __init__ leaves it: all four caches empty. */
    constructor(f: (real, real) -> (real, real), df: (real, real) -> Jacobian, atan2: (real, real) -> real)
      ensures Valid()
      ensures this.f == f && this.df == df && this.atan2 == atan2
      ensures plan == Memo(None, None) && tabF == Memo(None, None)
      ensures tabDf == Memo(None, None) && angles == Memo(None, None)
    {
      this.f, this.df, this.atan2 := f, df, atan2;
      plan, tabF, tabDf, angles := Memo(None, None), Memo(None, None), Memo(None, None), Memo(None, None);
    }

    /**
     * plan(t0, t1, taille): answers from the cache when it holds a value for the key,
     * and otherwise samples the plane and stores it under the key.
     */
    method Plan(k: Key) returns (p: Plane)
      requires PlanOk()
      modifies this
      ensures p == PlanOf(k)
      ensures old(plan.key) == Some(k) && old(plan.value).Some? ==> p == old(plan.value.value)
      ensures plan == Memo(Some(k), Some(p))
      ensures PlanOk()
      ensures tabF == old(tabF) && tabDf == old(tabDf) && angles == old(angles)
    {
      if plan.key == Some(k) {
        if plan.value.Some? {
          return plan.value.value;
        }
      } else {
        plan := plan.(key := Some(k));
      }
      p := Meshgrid(Linspace(k.t0, k.t1, k.taille));
      plan := plan.(value := Some(p));
    }

    /**
     * tab_f(t0, t1, taille): the image of the sampled plane, cached under the key;
     * a miss goes through the plane's own cache.
     */
    method TabF(k: Key) returns (q: Plane)
      requires PlanOk() && TabFOk()
      modifies this
      ensures q == TabFOf(k)
      ensures old(tabF.key) == Some(k) && old(tabF.value).Some? ==> q == old(tabF.value.value) && plan == old(plan)
      ensures tabF == Memo(Some(k), Some(q))
      ensures PlanOk() && TabFOk()
      ensures !(old(tabF.key) == Some(k) && old(tabF.value).Some?) ==> plan == Memo(Some(k), Some(PlanOf(k)))
      ensures tabDf == old(tabDf) && angles == old(angles)
    {
      if tabF.key == Some(k) {
        if tabF.value.Some? {
          return tabF.value.value;
        }
      }
      tabF := tabF.(key := Some(k));
      var p := Plan(k);
      q := ImageOf(f, p);
      tabF := tabF.(value := Some(q));
    }

    /**
     * tab_df(t0, t1, taille): the Jacobian at every sample point, cached under the key;
     * a miss goes through the plane's own cache.
     */
    method TabDf(k: Key) returns (j: JacobianField)
      requires PlanOk() && TabDfOk()
      modifies this
      ensures j == TabDfOf(k)
      ensures old(tabDf.key) == Some(k) && old(tabDf.value).Some? ==> j == old(tabDf.value.value) && plan == old(plan)
      ensures tabDf == Memo(Some(k), Some(j))
      ensures PlanOk() && TabDfOk()
      ensures !(old(tabDf.key) == Some(k) && old(tabDf.value).Some?) ==> plan == Memo(Some(k), Some(PlanOf(k)))
      ensures tabF == old(tabF) && angles == old(angles)
    {
      if tabDf.key == Some(k) {
        if tabDf.value.Some? {
          return tabDf.value.value;
        }
      } else {
        tabDf := tabDf.(key := Some(k));
      }
      var p := Plan(k);
      j := JacobianOf(df, p);
      tabDf := tabDf.(value := Some(j));
    }

    /**
     * tab_angles_R(t0, t1, taille): the unwrapped direction angles of the images of
     * both coordinate directions, cached under the key; a miss goes through tab_df.
     */
    method TabAnglesR(k: Key) returns (a: Field)
      requires PlanOk() && TabDfOk() && AnglesOk()
      modifies this
      ensures a == AnglesOf(k)
      ensures old(angles.key) == Some(k) && old(angles.value).Some? ==>
                a == old(angles.value.value) && plan == old(plan) && tabDf == old(tabDf)
      ensures angles == Memo(Some(k), Some(a))
      ensures PlanOk() && TabDfOk() && AnglesOk()
      ensures old(tabDf.key) == Some(k) && old(tabDf.value).Some? ==> plan == old(plan)
      ensures !(old(angles.key) == Some(k) && old(angles.value).Some?) ==> tabDf == Memo(Some(k), Some(TabDfOf(k)))
      ensures (!(old(angles.key) == Some(k) && old(angles.value).Some?) &&
               !(old(tabDf.key) == Some(k) && old(tabDf.value).Some?)) ==> plan == Memo(Some(k), Some(PlanOf(k)))
      ensures tabF == old(tabF)
    {
      if angles.key == Some(k) {
        if angles.value.Some? {
          return angles.value.value;
        }
      } else {
        angles := angles.(key := Some(k));
      }
      var jac := TabDf(k);
      var raw := RawAngles(atan2, jac, k.taille);
      a := BuildAngleField(raw.0, raw.1, k.taille);
      angles := angles.(value := Some(a));
    }
  }
}
