/**
 * Distance-shell classification (_classifier_tab and _classifier_points_cles):
 * grid points are put into n + 1 bins by their distance to a reference point,
 * bin n catching every distance past the last finite threshold.
 */
module Shells {
  import opened Grid

  /** The two level rules: `(d - pas/2) // pas + 1` and the nudged `d // pas + 1`. */
  datatype Rule = FloorRule | NudgedRule

  /** _classifier_tab's level: bins [0, pas/2), [pas/2, 3pas/2), ...; never negative for d >= 0. */
  function FloorLevel(d: real, pas: real): (l: int)
    requires pas > 0.0
    ensures d >= 0.0 ==> l >= 0
  {
    DivideThrough(d - pas / 2.0, pas, -0.5, 0.0);
    ((d - pas / 2.0) / pas).Floor + 1
  }

  /**
   * _classifier_points_cles's level: start from `d // pas + 1`, move up one if d is
   * at or past the level's upper threshold, else down one if d is at or below its
   * lower threshold.
   */
  function NudgedLevel(d: real, pas: real): (r: int)
    requires pas > 0.0
    ensures r <= (d / pas).Floor + 1
  {
    var g := (d / pas).Floor;
    DivideThrough(d, pas, g as real, (g + 1) as real);
    var l := g + 1;
    if d >= pas / 2.0 + (l as real) * pas then l + 1
    else if d <= pas / 2.0 + ((l - 1) as real) * pas then l - 1
    else l
  }

  function Level(rule: Rule, d: real, pas: real): int
    requires pas > 0.0
  {
    match rule
    case FloorRule => FloorLevel(d, pas)
    case NudgedRule => NudgedLevel(d, pas)
  }

  /** The bin a distance goes to: its level, with every level from n on sent to bin n. */
  function Bin(rule: Rule, d: real, pas: real, n: nat): (b: int)
    requires pas > 0.0
    ensures d >= 0.0 ==> 0 <= b <= n
  {
    NudgedLevelBounds(d, pas);
    var l := Level(rule, d, pas);
    if l >= n then n else l
  }

  /** Where `d` sits, in bin widths, past the first threshold pas/2. */
  function Position(d: real, pas: real): real
    requires pas > 0.0
  {
    (d - pas / 2.0) / pas
  }

  /**
   * The floor rule gives half-open bins closed below: level l holds exactly the
   * distances in [pas/2 + (l-1)*pas, pas/2 + l*pas).
   */
  lemma FloorLevelBounds(d: real, pas: real)
    requires pas > 0.0
    ensures var l := FloorLevel(d, pas);
            ((l - 1) as real) <= Position(d, pas) < (l as real) &&
            pas / 2.0 + ((l - 1) as real) * pas <= d < pas / 2.0 + (l as real) * pas
  {
    var l := FloorLevel(d, pas);
    var f := (l - 1) as real;
    DivideThrough(d - pas / 2.0, pas, f, f + 1.0);
  }

  /**
   * The nudged rule gives half-open bins closed above: level l holds exactly the
   * distances in (pas/2 + (l-1)*pas, pas/2 + l*pas]; a distance >= 0 has a level >= 0,
   * so the downward nudge never makes it negative.
   */
  lemma NudgedLevelBounds(d: real, pas: real)
    requires pas > 0.0
    ensures var l := NudgedLevel(d, pas);
            ((l - 1) as real) < Position(d, pas) <= (l as real) &&
            pas / 2.0 + ((l - 1) as real) * pas < d <= pas / 2.0 + (l as real) * pas
    ensures d >= 0.0 ==> NudgedLevel(d, pas) >= 0
  {
    var g := (d / pas).Floor;
    var gr := g as real;
    DivideThrough(d, pas, gr, gr + 1.0);
    DivideThrough(d, pas, gr - 0.5, gr + 0.5);
    DivideThrough(d, pas, gr + 0.5, gr + 1.5);
    assert pas / 2.0 + ((g + 1) as real) * pas == (gr + 1.5) * pas;
    assert pas / 2.0 + (g as real) * pas == (gr + 0.5) * pas;
    assert pas / 2.0 + ((g - 1) as real) * pas == (gr - 0.5) * pas;
    var l := NudgedLevel(d, pas);
    DivideThrough(d - pas / 2.0, pas, (l - 1) as real, l as real);
    if d >= 0.0 {
      DivideThrough(d, pas, 0.0, 0.0);
    }
  }

  /** `d` is exactly on a threshold pas/2 + k*pas: its position is a whole number. */
  predicate OnBoundary(d: real, pas: real)
    requires pas > 0.0
  {
    Position(d, pas).Floor as real == Position(d, pas)
  }

  /** Off the thresholds the two rules give the same level. */
  lemma RulesAgree(d: real, pas: real)
    requires pas > 0.0 && !OnBoundary(d, pas)
    ensures FloorLevel(d, pas) == NudgedLevel(d, pas)
  {
    FloorLevelBounds(d, pas);
    NudgedLevelBounds(d, pas);
  }

  /**
   * On the threshold pas/2 + k*pas (k >= 0) the floor rule picks level k + 1 and the
   * nudged rule level k.
   */
  lemma RulesAtBoundary(pas: real, k: nat)
    requires pas > 0.0
    ensures var d := pas / 2.0 + (k as real) * pas;
            OnBoundary(d, pas) && FloorLevel(d, pas) == k + 1 && NudgedLevel(d, pas) == k
  {
    var d := pas / 2.0 + (k as real) * pas;
    assert Position(d, pas) == k as real;
    NudgedLevelBounds(d, pas);
  }
  /** Distance 0 (the reference point itself) is in bin 0 under both rules. */
  lemma ZeroInFirstBin(rule: Rule, pas: real, n: nat)
    requires pas > 0.0
    ensures Bin(rule, 0.0, pas, n) == 0
  {
    FloorLevelBounds(0.0, pas);
    NudgedLevelBounds(0.0, pas);
  }

  /**
   * The values of `vs` whose distance (same position in `ds`) falls in bin `b`,
   * in their original order.
   */
  function Shell(rule: Rule, ds: seq<real>, vs: seq<real>, pas: real, n: nat, b: int): (r: seq<real>)
    requires |ds| == |vs| && pas > 0.0
    ensures multiset(r) <= multiset(vs)
    decreases |vs|
  {
    if |vs| == 0 then []
    else
      var k := |vs| - 1;
      assert vs == vs[..k] + [vs[k]];
      Shell(rule, ds[..k], vs[..k], pas, n, b) + (if Bin(rule, ds[k], pas, n) == b then [vs[k]] else [])
  }

  /** All n + 1 bins. */
  function Shells(rule: Rule, ds: seq<real>, vs: seq<real>, pas: real, n: nat): (r: seq<seq<real>>)
    requires |ds| == |vs| && pas > 0.0
    ensures |r| == n + 1
  {
    seq(n + 1, b requires 0 <= b <= n => Shell(rule, ds, vs, pas, n, b))
  }

  /** Classifying one more point appends it to its own bin and to no other. */
  lemma ShellsSnoc(rule: Rule, ds: seq<real>, vs: seq<real>, d: real, v: real, pas: real, n: nat)
    requires |ds| == |vs| && pas > 0.0 && d >= 0.0
    ensures var b := Bin(rule, d, pas, n);
            0 <= b <= n &&
            Shells(rule, ds + [d], vs + [v], pas, n)
              == Shells(rule, ds, vs, pas, n)[b := Shells(rule, ds, vs, pas, n)[b] + [v]]
  {
    assert (ds + [d])[..|ds|] == ds;
    assert (vs + [v])[..|vs|] == vs;
    var b := Bin(rule, d, pas, n);
    var old_ := Shells(rule, ds, vs, pas, n);
    var new_ := Shells(rule, ds + [d], vs + [v], pas, n);
    forall c | 0 <= c <= n
      ensures new_[c] == old_[b := old_[b] + [v]][c]
    {
      assert new_[c] == Shell(rule, ds, vs, pas, n, c) + (if b == c then [v] else []);
    }
  }

  /** Every value of the bins, with multiplicity. */
  function Gather(bins: seq<seq<real>>): multiset<real>
    decreases |bins|
  {
    if |bins| == 0 then multiset{} else Gather(bins[..|bins| - 1]) + multiset(bins[|bins| - 1])
  }

  /** Adding one value to bin b adds it once to what the bins hold. */
  lemma {:induction false} GatherUpdate(bins: seq<seq<real>>, b: nat, v: real)
    requires b < |bins|
    ensures Gather(bins[b := bins[b] + [v]]) == Gather(bins) + multiset{v}
    decreases |bins|
  {
    var bins' := bins[b := bins[b] + [v]];
    var k := |bins| - 1;
    assert Gather(bins') == Gather(bins'[..k]) + multiset(bins'[k]);
    assert Gather(bins) == Gather(bins[..k]) + multiset(bins[k]);
    if b < k {
      assert bins'[..k] == bins[..k][b := bins[b] + [v]];
      assert bins'[k] == bins[k];
      GatherUpdate(bins[..k], b, v);
    } else {
      assert bins'[..k] == bins[..k];
      assert multiset(bins'[k]) == multiset(bins[k]) + multiset{v};
    }
  }

  /**
   * The bins partition the points: together they hold every value exactly as often
   * as the traversal visits it, so their total size is the number of points.
   */
  lemma {:induction false} ShellsPartition(rule: Rule, ds: seq<real>, vs: seq<real>, pas: real, n: nat)
    requires |ds| == |vs| && pas > 0.0
    requires forall i :: 0 <= i < |ds| ==> ds[i] >= 0.0
    ensures Gather(Shells(rule, ds, vs, pas, n)) == multiset(vs)
    decreases |vs|
  {
    if |vs| == 0 {
      var empty := Shells(rule, ds, vs, pas, n);
      assert forall b :: 0 <= b <= n ==> empty[b] == [];
      GatherEmpty(empty);
    } else {
      var k := |vs| - 1;
      ShellsPartition(rule, ds[..k], vs[..k], pas, n);
      ShellsSnoc(rule, ds[..k], vs[..k], ds[k], vs[k], pas, n);
      assert ds[..k] + [ds[k]] == ds;
      assert vs[..k] + [vs[k]] == vs;
      GatherUpdate(Shells(rule, ds[..k], vs[..k], pas, n), Bin(rule, ds[k], pas, n), vs[k]);
    }
  }

  lemma {:induction false} GatherEmpty(bins: seq<seq<real>>)
    requires forall b :: 0 <= b < |bins| ==> bins[b] == []
    ensures Gather(bins) == multiset{}
    decreases |bins|
  {
    if |bins| > 0 {
      GatherEmpty(bins[..|bins| - 1]);
    }
  }

  /** When no distance is on a threshold, the two classifiers return the same bins. */
  lemma {:induction false} ShellsAgree(ds: seq<real>, vs: seq<real>, pas: real, n: nat)
    requires |ds| == |vs| && pas > 0.0
    requires forall i :: 0 <= i < |ds| ==> !OnBoundary(ds[i], pas)
    ensures Shells(FloorRule, ds, vs, pas, n) == Shells(NudgedRule, ds, vs, pas, n)
    decreases |vs|
  {
    if |vs| > 0 {
      var k := |vs| - 1;
      ShellsAgree(ds[..k], vs[..k], pas, n);
      RulesAgree(ds[k], pas);
      forall b | 0 <= b <= n
        ensures Shell(FloorRule, ds, vs, pas, n, b) == Shell(NudgedRule, ds, vs, pas, n, b)
      {
        assert Shell(FloorRule, ds[..k], vs[..k], pas, n, b) == Shells(FloorRule, ds[..k], vs[..k], pas, n)[b];
        assert Shell(NudgedRule, ds[..k], vs[..k], pas, n, b) == Shells(NudgedRule, ds[..k], vs[..k], pas, n)[b];
      }
    }
  }

  /** Distances that are all >= 0 stay so once flattened. */
  lemma {:induction false} FlattenNonNegative(m: Matrix)
    requires forall i, j :: 0 <= i < |m| && 0 <= j < |m[i]| ==> m[i][j] >= 0.0
    ensures forall k :: 0 <= k < |Flatten(m)| ==> Flatten(m)[k] >= 0.0
    decreases |m|
  {
    if |m| > 0 {
      FlattenNonNegative(m[..|m| - 1]);
    }
  }

  /**
   * The inner loop of both classifiers: the points of one grid row, in order, each
   * appended to the bin of its distance.
   */
  method ClassifyRow(rule: Rule, row: seq<real>, rowX: seq<real>, rowY: seq<real>, pas: real, n: nat,
                     binsX: seq<seq<real>>, binsY: seq<seq<real>>,
                     ghost seenD: seq<real>, ghost seenX: seq<real>, ghost seenY: seq<real>)
    returns (binsX': seq<seq<real>>, binsY': seq<seq<real>>)
    requires pas > 0.0 && |row| == |rowX| == |rowY| && |seenD| == |seenX| == |seenY|
    requires forall j :: 0 <= j < |row| ==> row[j] >= 0.0
    requires binsX == Shells(rule, seenD, seenX, pas, n) && binsY == Shells(rule, seenD, seenY, pas, n)
    ensures binsX' == Shells(rule, seenD + row, seenX + rowX, pas, n)
    ensures binsY' == Shells(rule, seenD + row, seenY + rowY, pas, n)
  {
    binsX', binsY' := binsX, binsY;
    assert seenD + row[..0] == seenD && seenX + rowX[..0] == seenX && seenY + rowY[..0] == seenY;
    for j := 0 to |row|
      invariant binsX' == Shells(rule, seenD + row[..j], seenX + rowX[..j], pas, n)
      invariant binsY' == Shells(rule, seenD + row[..j], seenY + rowY[..j], pas, n)
    {
      var b := Bin(rule, row[j], pas, n);
      ShellsSnoc(rule, seenD + row[..j], seenX + rowX[..j], row[j], rowX[j], pas, n);
      ShellsSnoc(rule, seenD + row[..j], seenY + rowY[..j], row[j], rowY[j], pas, n);
      binsX' := binsX'[b := binsX'[b] + [rowX[j]]];
      binsY' := binsY'[b := binsY'[b] + [rowY[j]]];
      assert seenD + row[..j + 1] == seenD + row[..j] + [row[j]];
      assert seenX + rowX[..j + 1] == seenX + rowX[..j] + [rowX[j]];
      assert seenY + rowY[..j + 1] == seenY + rowY[..j] + [rowY[j]];
    }
    assert row[..|row|] == row && rowX[..|rowX|] == rowX && rowY[..|rowY|] == rowY;
  }

  /**
   * Both classifiers: for every grid point in row-major order, compute its level
   * under `rule` and append its x and y to that bin (bin n for levels >= n). The
   * bins partition the points.
   */
  method Classify(rule: Rule, dis: Matrix, xs: Matrix, ys: Matrix, pas: real, n: nat)
    returns (binsX: seq<seq<real>>, binsY: seq<seq<real>>)
    requires pas > 0.0
    requires SameShape(dis, xs) && SameShape(dis, ys)
    requires forall i, j :: 0 <= i < |dis| && 0 <= j < |dis[i]| ==> dis[i][j] >= 0.0
    ensures |Flatten(dis)| == |Flatten(xs)| == |Flatten(ys)|
    ensures binsX == Shells(rule, Flatten(dis), Flatten(xs), pas, n)
    ensures binsY == Shells(rule, Flatten(dis), Flatten(ys), pas, n)
    ensures Gather(binsX) == multiset(Flatten(xs)) && Gather(binsY) == multiset(Flatten(ys))
  {
    FlattenSameShape(dis, xs);
    FlattenSameShape(dis, ys);
    binsX := seq(n + 1, b => []);
    binsY := seq(n + 1, b => []);
    for i := 0 to |dis|
      invariant |Flatten(dis[..i])| == |Flatten(xs[..i])| == |Flatten(ys[..i])|
      invariant binsX == Shells(rule, Flatten(dis[..i]), Flatten(xs[..i]), pas, n)
      invariant binsY == Shells(rule, Flatten(dis[..i]), Flatten(ys[..i]), pas, n)
    {
      binsX, binsY := ClassifyRow(rule, dis[i], xs[i], ys[i], pas, n, binsX, binsY,
                                  Flatten(dis[..i]), Flatten(xs[..i]), Flatten(ys[..i]));
      FlattenSnoc(dis, i);
      FlattenSnoc(xs, i);
      FlattenSnoc(ys, i);
    }
    assert dis[..|dis|] == dis && xs[..|xs|] == xs && ys[..|ys|] == ys;
    FlattenNonNegative(dis);
    ShellsPartition(rule, Flatten(dis), Flatten(xs), pas, n);
    ShellsPartition(rule, Flatten(dis), Flatten(ys), pas, n);
  }
}
