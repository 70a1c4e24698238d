/**
 * Angle unwrapping (tab_angles_R and its nested helpers modulo_2pi and corrigeur).
 * Raw angles come from atan2 on the Jacobian field; here they are given arrays.
 */
module Angles {
  import opened Grid

  /** math.pi, written as the decimal Python prints for it; proofs use only PI > 0. */
  const PI: real := 3.141592653589793

  /** k whole turns. */
  function Turn(k: int): real {
    (k as real) * (2.0 * PI)
  }

  /** The least integer not below `a`. */
  function Ceil(a: real): (c: int)
    ensures c as real - 1.0 < a <= c as real
  {
    -((-a).Floor)
  }

  /** `a` and `b` denote the same direction: they differ by whole turns. */
  ghost predicate Congruent(a: real, b: real) {
    exists k: int :: a == b + Turn(k)
  }

  /**
   * What modulo_2pi computes, in closed form: a value above PI comes down by the
   * fewest turns that bring it to PI or below, a value below -PI goes up by the fewest
   * turns that bring it to -PI or above, and [-PI, PI] is left alone.
   */
  function Wrap(x: real): (y: real)
    ensures -PI <= y <= PI
  {
    if x > PI then x - Turn(Ceil((x - PI) / (2.0 * PI)))
    else if x < -PI then x + Turn(Ceil((-PI - x) / (2.0 * PI)))
    else x
  }

  /**
   * modulo_2pi: subtract 2*PI while above PI, then add 2*PI while below -PI. The
   * result lies in [-PI, PI]; values above PI land in (-PI, PI], values below -PI in
   * [-PI, PI), and values already in [-PI, PI] (the ends included, the loop tests
   * being strict) come back unchanged.
   */
  method WrapAngle(x: real) returns (y: real)
    ensures y == Wrap(x)
    ensures -PI <= y <= PI
    ensures x > PI ==> -PI < y
    ensures x < -PI ==> y < PI
    ensures -PI <= x <= PI ==> y == x
  {
    y := x;
    ghost var i: int := 0;
    ghost var m := if x > PI then Ceil((x - PI) / (2.0 * PI)) else 0;
    while y > PI
      invariant y == x - Turn(i)
      invariant 0 <= i <= m
      invariant i > 0 ==> x > PI
      decreases m - i
    {
      y := y - 2.0 * PI;
      i := i + 1;
    }
    assert x > PI ==> i == m;
    ghost var j: int := 0;
    ghost var m' := if x < -PI then Ceil((-PI - x) / (2.0 * PI)) else 0;
    while y < -PI
      invariant y == x - Turn(i) + Turn(j)
      invariant 0 <= j <= m'
      invariant j > 0 ==> x < -PI && i == 0
      decreases m' - j
    {
      y := y + 2.0 * PI;
      j := j + 1;
    }
  }

  /** The wrapped value denotes the same direction as its input. */
  lemma WrapCongruent(x: real)
    ensures Congruent(Wrap(x), x)
  {
    if x > PI {
      var k := -Ceil((x - PI) / (2.0 * PI));
      assert Wrap(x) == x + Turn(k);
    } else if x < -PI {
      var k := Ceil((-PI - x) / (2.0 * PI));
      assert Wrap(x) == x + Turn(k);
    } else {
      assert Wrap(x) == x + Turn(0);
    }
  }

  /** Two congruent angles, one in [-PI, PI] and the other in (-PI, PI), are equal. */
  lemma CongruentInWindow(a: real, b: real)
    requires Congruent(a, b)
    requires -PI <= a <= PI && -PI < b < PI
    ensures a == b
  {
    var k: int :| a == b + Turn(k);
  }

  /** A direction strictly inside (-PI, PI) is the wrap of every value that denotes it. */
  lemma WrapRecoversDirection(x: real, a: real)
    requires Congruent(x, a) && -PI < a < PI
    ensures Wrap(x) == a
  {
    WrapCongruent(x);
    var k: int :| Wrap(x) == x + Turn(k);
    var l: int :| x == a + Turn(l);
    assert Wrap(x) == a + Turn(k + l);
    CongruentInWindow(Wrap(x), a);
  }

  /**
   * corrigeur on one row: the first angle is kept and every later one becomes
   * the previous corrected angle plus the wrap of the raw difference.
   */
  function UnwrapRow(row: seq<real>): (r: seq<real>)
    requires |row| > 0
    ensures |r| == |row| && r[0] == row[0]
    decreases |row|
  {
    if |row| == 1 then [row[0]]
    else
      var p := UnwrapRow(row[..|row| - 1]);
      p + [p[|p| - 1] + Wrap(row[|row| - 1] - p[|p| - 1])]
  }

  /** Consecutive unwrapped angles never jump by more than PI. */
  lemma {:induction false} UnwrapRowContinuous(row: seq<real>, j: nat)
    requires 0 < j < |row|
    ensures -PI <= UnwrapRow(row)[j] - UnwrapRow(row)[j - 1] <= PI
    decreases |row|
  {
    if j < |row| - 1 {
      UnwrapRowContinuous(row[..|row| - 1], j);
    }
  }

  /** Each unwrapped angle denotes the same direction as the raw angle at its position. */
  lemma {:induction false} UnwrapRowCongruent(row: seq<real>, j: nat)
    requires j < |row|
    ensures Congruent(UnwrapRow(row)[j], row[j])
    decreases |row|
  {
    var r := UnwrapRow(row);
    if j == 0 {
      assert r[0] == row[0] + Turn(0);
    } else if j < |row| - 1 {
      UnwrapRowCongruent(row[..|row| - 1], j);
    } else {
      var p := r[j - 1];
      WrapCongruent(row[j] - p);
      var k: int :| Wrap(row[j] - p) == row[j] - p + Turn(k);
      assert r[j] == row[j] + Turn(k);
    }
  }

  /** Wrapping an unwrapped angle gives back a raw angle that lies strictly inside (-PI, PI). */
  lemma UnwrapRowRecoversRaw(row: seq<real>, j: nat)
    requires j < |row| && -PI < row[j] < PI
    ensures Wrap(UnwrapRow(row)[j]) == row[j]
  {
    UnwrapRowCongruent(row, j);
    WrapRecoversDirection(UnwrapRow(row)[j], row[j]);
  }

  /** A row that already has no jump above PI is left as it is. */
  lemma {:induction false} UnwrapRowKeepsContinuous(row: seq<real>)
    requires |row| > 0
    requires forall j :: 0 < j < |row| ==> -PI <= row[j] - row[j - 1] <= PI
    ensures UnwrapRow(row) == row
    decreases |row|
  {
    if |row| > 1 {
      var q := row[..|row| - 1];
      UnwrapRowKeepsContinuous(q);
    }
  }

  /** Unwrapping is idempotent. */
  lemma UnwrapRowIdempotent(row: seq<real>)
    requires |row| > 0
    ensures UnwrapRow(UnwrapRow(row)) == UnwrapRow(row)
  {
    var r := UnwrapRow(row);
    forall j | 0 < j < |r|
      ensures -PI <= r[j] - r[j - 1] <= PI
    {
      UnwrapRowContinuous(row, j);
    }
    UnwrapRowKeepsContinuous(r);
  }

  /** The inner loop of corrigeur: rebuild one row from its first angle onwards. */
  method UnwrapLine(line: seq<real>) returns (lineR: seq<real>)
    requires |line| > 0
    ensures lineR == UnwrapRow(line)
  {
    lineR := [line[0]];
    for j := 1 to |line|
      invariant lineR == UnwrapRow(line[..j])
    {
      assert line[..j + 1][..j] == line[..j];
      var prec := lineR[|lineR| - 1];
      var w := WrapAngle(line[j] - prec);
      lineR := lineR + [prec + w];
    }
    assert line[..|line|] == line;
  }

  /** corrigeur: unwrap every row of an array whose rows are non-empty. */
  method UnwrapRows(tab: Matrix) returns (res: Matrix)
    requires forall i :: 0 <= i < |tab| ==> |tab[i]| > 0
    ensures SameShape(res, tab)
    ensures forall i :: 0 <= i < |tab| ==> res[i] == UnwrapRow(tab[i])
  {
    res := [];
    for i := 0 to |tab|
      invariant |res| == i
      invariant forall k :: 0 <= k < i ==> res[k] == UnwrapRow(tab[k])
    {
      var lineR := UnwrapLine(tab[i]);
      res := res + [lineR];
    }
  }

  /** The two unwrapped angle channels of tab_angles_R. */
  datatype Field = Field(along: Matrix, across: Matrix)

  /**
   * Channel 0 unwraps the first raw array row by row; channel 1 unwraps the
   * transpose of the second raw array (so along its columns) and subtracts PI/2.
   */
  function AngleField(raw0: Matrix, raw1: Matrix, n: nat): (a: Field)
    requires IsMatrix(raw0, n, n) && IsMatrix(raw1, n, n)
    ensures IsMatrix(a.along, n, n) && IsMatrix(a.across, n, n)
  {
    var t := Transpose(raw1, n, n);
    Field(seq(n, i requires 0 <= i < n => UnwrapRow(raw0[i])),
          Offset(seq(n, i requires 0 <= i < n => UnwrapRow(t[i])), -PI / 2.0))
  }

  /** The array part of tab_angles_R, from the two raw angle arrays onwards. */
  method BuildAngleField(raw0: Matrix, raw1: Matrix, n: nat) returns (a: Field)
    requires IsMatrix(raw0, n, n) && IsMatrix(raw1, n, n)
    ensures a == AngleField(raw0, raw1, n)
  {
    var x := UnwrapRows(raw0);
    var y := UnwrapRows(Transpose(raw1, n, n));
    a := Field(x, Offset(y, -PI / 2.0));
  }

  /**
   * Channel 0 is continuous along every row and keeps the direction of the first
   * raw array at the same position.
   */
  lemma AlongRows(raw0: Matrix, raw1: Matrix, n: nat, r: nat, c: nat)
    requires IsMatrix(raw0, n, n) && IsMatrix(raw1, n, n) && r < n && c < n
    ensures Congruent(AngleField(raw0, raw1, n).along[r][c], raw0[r][c])
    ensures c > 0 ==> -PI <= AngleField(raw0, raw1, n).along[r][c] - AngleField(raw0, raw1, n).along[r][c - 1] <= PI
  {
    UnwrapRowCongruent(raw0[r], c);
    if c > 0 {
      UnwrapRowContinuous(raw0[r], c);
    }
  }

  /**
   * Channel 1 is indexed [column][row] of the second raw array: entry [c][r] plus
   * PI/2 keeps the direction of raw1[r][c], and it is continuous down each column
   * of raw1.
   */
  lemma AcrossColumns(raw0: Matrix, raw1: Matrix, n: nat, c: nat, r: nat)
    requires IsMatrix(raw0, n, n) && IsMatrix(raw1, n, n) && r < n && c < n
    ensures Congruent(AngleField(raw0, raw1, n).across[c][r] + PI / 2.0, raw1[r][c])
    ensures r > 0 ==> -PI <= AngleField(raw0, raw1, n).across[c][r] - AngleField(raw0, raw1, n).across[c][r - 1] <= PI
  {
    var t := Transpose(raw1, n, n);
    assert t[c][r] == raw1[r][c];
    UnwrapRowCongruent(t[c], r);
    if r > 0 {
      UnwrapRowContinuous(t[c], r);
    }
  }
}
