# Diffeomorphism sampler: angle fields, distance shells and cell lookup

A model of the numeric helpers of the class `fonc_diff_infini` (carre_class.py), which
samples a smooth map f of the plane over the square [t0, t1]^2 and studies the directions
into which it sends the two coordinate axes. All arithmetic is exact (`real`); PI is the
constant 3.141592653589793 (the shortest decimal that prints as `math.pi`), and the proofs
only use that it is positive.

- `Grid`: the sampling lattice (`numpy.linspace`, `numpy.meshgrid`), transposition,
  elementwise maps and row-major flattening of real arrays.
- `Angles`: `modulo_2pi` (two while loops, as a method proved against a closed form),
  `corrigeur` (row-by-row phase unwrapping, as a method proved against a recursive
  function) and the two angle channels that `tab_angles_R` assembles.
- `Shells`: `_classifier_tab` and `_classifier_points_cles`, which put grid points into
  n + 1 distance shells; one loop, parameterised by the level rule of each.
- `Interp`: `_find_sim_points` (enclosing cell and offsets; below t0 its indices are
  negative) and `_angle_moyen` (bilinear blend of the four corner angles, whose reads
  follow numpy's negative indexing).
- `Inverse`: `ajustement`, the nearest-preimage scan nested in `tab_inverse`.
- `Diffeo`: the object itself, a class whose four one-entry caches (`plan`, `tab_f`,
  `tab_df`, `tab_angles_R`) are fields that its methods update in place. Every cache is
  keyed by (t0, t1, taille), and each method keeps the cache it owns coherent as long as
  no computation fails between writing a key and writing its value (see "## Left out").

The map f, its Jacobian df and `arctan2` are function-valued constants of the class:
the symbolic side (sympy expressions, `lambdify`) is not modelled.

## Model

| member | source | states |
|---|---|---|
| Grid.Linspace | carre_class.py:63 | `numpy.linspace(t0, t1, taille)` has exactly taille samples (their values: `Grid.LinspaceAt` and `Grid.LinspaceEvenlySpaced`) |
| Grid.LinspaceAt | carre_class.py:63 | sample i is t0 + i * (t1 - t0) / (taille - 1) |
| Grid.LinspaceEvenlySpaced | carre_class.py:63 | the first sample is t0, the last t1, and consecutive samples are one step apart |
| Grid.LinspaceIncreasing | carre_class.py:63 | for t0 < t1 the samples strictly increase |
| Grid.Meshgrid | carre_class.py:63 | `meshgrid(axis, axis)`: entry [r][c] of the first array is axis[c] and of the second axis[r] |
| Grid.Lattice | carre_class.py:63 | `meshgrid(linspace(t0, t1, taille), linspace(t0, t1, taille))` gives two taille x taille arrays |
| Grid.Step | carre_class.py:426 | the lattice spacing `(t1 - t0) / (taille - 1)`, defined for every taille but 1; what it measures is `Grid.StepSpansAxis` |
| Grid.StepSpansAxis | carre_class.py:426 | taille - 1 steps `(t1 - t0) / (taille - 1)` span [t0, t1]; for taille >= 2 the step is positive exactly when t0 < t1 and zero exactly when t0 = t1 |
| Grid.LatticeNode | carre_class.py:63 | node [r][c] of the plane is (t0 + c * step, t0 + r * step), and its edges lie on t0 and t1 |
| Grid.Transpose | carre_class.py:244 | `.T` of a rows x cols array is cols x rows with entry [i][j] = m[j][i] |
| Grid.Offset | carre_class.py:244 | subtracting a constant changes every entry by that constant and keeps the shape |
| Grid.Zip | carre_class.py:222-223 | an elementwise function of two arrays of the same shape, entry by entry |
| Grid.FlattenSnoc | carre_class.py:334-335 | row-major traversal of the first i + 1 rows is that of the first i rows followed by row i |
| Grid.FlattenSameShape | carre_class.py:334-335 | arrays of the same shape flatten to sequences of the same length |
| Grid.Flatten | carre_class.py:333-334 | the entries of an array in the order of the nested `for i`/`for j` loops; that order is `Grid.FlattenRowMajor` |
| Grid.FlattenLength | carre_class.py:333-334 | the nested `for i`/`for j` traversal of a rows x cols array visits rows * cols entries |
| Grid.FlattenRowMajor | carre_class.py:333-334 | the traversal is row-major: entry [i][j] is visited at position i * cols + j |
| Angles.Ceil | carre_class.py:225-231 | the least integer not below its argument |
| Angles.Wrap | carre_class.py:225-231 | the reduced angle lies in [-PI, PI] |
| Angles.WrapAngle | carre_class.py:225-231 | `modulo_2pi` terminates with the closed form `Wrap(x)`, in [-PI, PI]; an input already in [-PI, PI] (endpoints included) comes back unchanged; an input above PI never ends on -PI and one below -PI never ends on PI |
| Angles.WrapCongruent | carre_class.py:225-231 | the reduced angle differs from the input by a whole number of turns 2*PI |
| Angles.CongruentInWindow | carre_class.py:225-231 | two congruent angles, one in [-PI, PI] and one in (-PI, PI), are equal |
| Angles.WrapRecoversDirection | carre_class.py:225-231 | reducing any angle congruent to a direction in (-PI, PI) gives that direction |
| Angles.UnwrapRow | carre_class.py:233-241 | the corrected row has the input's length and first element |
| Angles.UnwrapRowContinuous | carre_class.py:236-239 | consecutive corrected entries differ by at most PI |
| Angles.UnwrapRowCongruent | carre_class.py:236-239 | every corrected entry differs from the raw entry at the same place by whole turns |
| Angles.UnwrapRowRecoversRaw | carre_class.py:233-241 | reducing a corrected entry gives back a raw angle in (-PI, PI) |
| Angles.UnwrapRowKeepsContinuous | carre_class.py:233-241 | a row that never jumps by more than PI is left unchanged |
| Angles.UnwrapRowIdempotent | carre_class.py:233-241 | correcting a corrected row changes nothing |
| Angles.UnwrapLine | carre_class.py:235-240 | the inner loop of `corrigeur` produces the corrected row |
| Angles.UnwrapRows | carre_class.py:233-241 | `corrigeur` produces, row by row, the corrected row |
| Angles.AngleField | carre_class.py:243-247 | both channels of `tab_angles_R` are taille x taille |
| Angles.BuildAngleField | carre_class.py:243-247 | channel 0 is the corrected raw rows; channel 1 is the corrected rows of the transposed raw array minus PI/2 |
| Angles.AlongRows | carre_class.py:243 | channel 0 is congruent to the raw angle at every node and moves by at most PI along a row |
| Angles.AcrossColumns | carre_class.py:244 | channel 1 at [c][r], plus PI/2, is congruent to raw[r][c] and moves by at most PI as r grows |
| Shells.FloorLevelBounds | carre_class.py:332-335 | the level `(d - pas/2) // pas + 1` is the l with pas/2 + (l-1)*pas <= d < pas/2 + l*pas (half-open shells) |
| Shells.NudgedLevelBounds | carre_class.py:347-354 | after the nudges, the level is the l with pas/2 + (l-1)*pas < d <= pas/2 + l*pas, non-negative for d >= 0 |
| Shells.RulesAgree | carre_class.py:332-354 | off the shell boundaries both classifiers give the same level |
| Shells.RulesAtBoundary | carre_class.py:332-354 | at d = pas/2 + k*pas the floor rule gives k + 1 and the nudged rule k |
| Shells.ZeroInFirstBin | carre_class.py:344-361 | a point at distance 0 lands in bin 0 under both rules |
| Shells.FloorLevel | carre_class.py:332 | the floor rule's level of a non-negative distance is non-negative |
| Shells.NudgedLevel | carre_class.py:347-354 | the nudged level never exceeds `d // pas + 1`: the upward nudge never fires |
| Shells.Bin | carre_class.py:336-341 | for d >= 0 the bin index lies in 0..n, levels at or past n going to the catch-all bin n |
| Shells.Shell | carre_class.py:330-342 | a shell holds only points of the grid, each at most as often as it occurs there |
| Shells.Shells | carre_class.py:330-331 | there are exactly n + 1 bins |
| Shells.ShellsSnoc | carre_class.py:336-342 | visiting one more point appends it to the end of exactly its own bin |
| Shells.GatherUpdate | carre_class.py:336-342 | appending a point to one bin adds exactly that point to the union of the bins |
| Shells.ShellsPartition | carre_class.py:330-342 | the bins together hold every grid point exactly once (as a multiset) |
| Shells.GatherEmpty | carre_class.py:330-331 | the freshly made empty bins hold nothing |
| Shells.ShellsAgree | carre_class.py:317-361 | when no distance sits on a boundary, the two classifiers give identical bins |
| Shells.FlattenNonNegative | carre_class.py:334-335 | row-major traversal of non-negative distances meets only non-negative distances |
| Shells.ClassifyRow | carre_class.py:336-342 | the inner loop over one row adds that row's points to the bins, in order |
| Shells.Classify | carre_class.py:317-361 | both classifiers return, in x and y, the n + 1 shells of the grid points in row-major order, together a partition of the points |
| Interp.LocateAxis | carre_class.py:426-436 | k0 and k1 never exceed taille - 1, k1 is k0 + 1 except at the capped top, t0 + (k0 + t) * pas == x, and, for either sign of pas, the offset is in [0, 1) unless k0 was capped at taille - 1 (then it is >= 1) |
| Interp.FindCell | carre_class.py:425-437 | the corners come back as (kx0,ky0), (kx1,ky0), (kx0,ky1), (kx1,ky1), at most one apart and at most taille - 1, the offsets reconstruct (x, y), and each offset is in [0, 1) unless its index was capped (t1 < t0 included) |
| Interp.LocateAxisInside | carre_class.py:426-431 | for v in [t0, t1] the lower index lies in [0, taille - 1] and the offset in [0, 1); v = t1 gives the capped cell with offset 0 |
| Interp.FindCellInside | carre_class.py:425-437 | inside the square the cell's indices are in range and both offsets in [0, 1) |
| Interp.LocateAxisAtStep | carre_class.py:426-430 | a point exactly i steps past t0, for a lattice index i, is located at index i with offset 0 |
| Interp.LocateAxisAtSample | carre_class.py:426-430 | a sample point of the axis is located at its own index with offset 0 |
| Interp.FindCellAtNode | carre_class.py:425-437 | lattice node [r][c] is found at corner (c, r) with t = s = 0 |
| Interp.Read | carre_class.py:440-443 | numpy indexing: a non-negative index pair reads that entry |
| Interp.ReadFromEnd | carre_class.py:440-443 | an index i - n (negative) reads the same entry as i, in either coordinate or both |
| Interp.Min4 | carre_class.py:444 | a lower bound of the four corner values |
| Interp.Max4 | carre_class.py:444 | an upper bound of the four corner values |
| Interp.LerpBetween | carre_class.py:444 | interpolating two values in [lo, hi] with a weight in [0, 1] stays in [lo, hi] |
| Interp.Mix | carre_class.py:444 | the weights (1-t)(1-s), t(1-s), (1-t)s, ts sum to 1; t = s = 0 gives the p00 value and likewise at the other corners; equal corners give their value |
| Interp.MixBounded | carre_class.py:444 | for t, s in [0, 1] the blend lies between the smallest and the largest corner value |
| Interp.Blend | carre_class.py:439-445 | `_angle_moyen` as written: at t = s = 0 it returns channel 0 at [p00[0]][p00[1]] and channel 1 at [p00[1]][p00[0]], and likewise at t = s = 1 for p11 |
| Interp.BlendAtNodeMirrored | carre_class.py:439-445 | `_angle_moyen` as written, at lattice node [r][c], returns the angles stored for node [c][r] |
| Interp.BlendMirroredCounterexample | carre_class.py:439-445 | on a concrete 2 x 2 field, the blend at node [0][1] differs from that node's angles |
| Interp.BlendAt | carre_class.py:439-445 | the corrected blend: at t = s = 0 it returns channel 0 at [p00[1]][p00[0]] and channel 1 at [p00[0]][p00[1]], the angles of the node p00, and likewise for p11 |
| Interp.BlendAtExactAtNodes | carre_class.py:439-445 | the corrected blend returns, at every lattice node, that node's own pair of angles |
| Inverse.Dist2 | carre_class.py:383-384 | the squared distance from f(x_ori, y_ori) to the target is 0 when the point maps exactly onto the target |
| Inverse.Dist2NonNegative | carre_class.py:384 | a squared image distance is never negative |
| Inverse.Dists | carre_class.py:383-384 | one squared image distance per point, in order |
| Inverse.DistsSnoc | carre_class.py:383-384 | one more point appends its distance |
| Inverse.FirstMin | carre_class.py:385-388 | the chosen position has the smallest distance, and every earlier position is strictly farther (the first minimum wins ties) |
| Inverse.Closest | carre_class.py:385-386 | the running `dis` after a non-empty scan is the distance of the current candidate `(val_x, val_y)` |
| Inverse.Nearest | carre_class.py:385-388 | there is a candidate exactly when some point was scanned |
| Inverse.NearestIsFirstClosest | carre_class.py:385-388 | the candidate is a scanned point whose image is closest, and no earlier point is as close |
| Inverse.NearestOnGrid | carre_class.py:379-388 | over a grid, there is a candidate exactly when the grid has a point |
| Inverse.NearestSnoc | carre_class.py:385-388 | scanning one more point replaces the candidate exactly when its distance is strictly smaller, or when there was none |
| Inverse.Keep | carre_class.py:389-391 | the kept positions are positions of the row |
| Inverse.KeepExact | carre_class.py:389-391 | the kept positions are exactly those with d >= pas^2/4, each once, in increasing order, so there are no more of them than points |
| Inverse.Pick | carre_class.py:389-391 | the kept points are the row's points at the kept positions, in order |
| Inverse.Far | carre_class.py:389-391 | the `tempx`/`tempy` list of a row has at most as many entries as the row |
| Inverse.FarKeepsFarPoints | carre_class.py:389-391 | the far points of a row are no more than the row's points, and each is a row point whose image is at least pas^2/4 (squared) from the target |
| Inverse.FarSnoc | carre_class.py:389-391 | one more point is appended to the kept points exactly when it is far |
| Inverse.RowNearestStep | carre_class.py:382-388 | one pass of the inner loop replaces the candidate and `dis` only on a strictly smaller distance (or when there is none), and keeps them the first closest point and its distance for one more point |
| Inverse.RowFarStep | carre_class.py:389-391 | one pass of the inner loop appends the point to `tempx`/`tempy` exactly when it is far, which keeps both lists the row's far points so far |
| Inverse.KeptStep | carre_class.py:389-391 | the same step for one coordinate list |
| Inverse.ScanRow | carre_class.py:380-393 | the inner loop updates the candidate and its distance and returns the row's far points |
| Inverse.FarRows | carre_class.py:392-394 | one list of far points per row, each the far points of that row |
| Inverse.FarRowsSnoc | carre_class.py:392-393 | finishing one more row appends that row's far points |
| Inverse.ScannedStep | carre_class.py:378-393 | one pass of the outer loop extends the scanned state to one more row |
| Inverse.NearestPreimage | carre_class.py:374-394 | `ajustement` returns the first point in row-major order whose image is closest to the target (None for an empty grid), and per row exactly its far points in order |
| Diffeo.PlanOf | carre_class.py:63 | the sampled plane is taille x taille in both coordinates |
| Diffeo.ImageOf | carre_class.py:72 | the image plane holds f of every sample point, at the same place |
| Diffeo.JacobianOf | carre_class.py:156 | the four Jacobian arrays hold df of every sample point, at the same place |
| Diffeo.RawAngles | carre_class.py:222-223 | channel 0 is atan2(c, a) and channel 1 atan2(d, b) at every node |
| Diffeo.Map.TabFOf | carre_class.py:72-73 | the image arrays of a key are taille x taille |
| Diffeo.Map.TabFAtNode | carre_class.py:63-73 | entry [r][c] of the image arrays is f at the sample point (t0 + c * step, t0 + r * step) |
| Diffeo.Map.TabDfOf | carre_class.py:156 | the Jacobian arrays of a key are taille x taille |
| Diffeo.Map.AnglesOf | carre_class.py:221-247 | both angle channels of a key are taille x taille |
| Diffeo.Map.AnglesOfDirections | carre_class.py:221-247 | channel 0 at [r][c] is congruent to atan2(c, a) of the Jacobian there and moves by at most PI along the row; channel 1 at [c][r], plus PI/2, is congruent to atan2(d, b) and moves by at most PI as r grows |
| Diffeo.Map.constructor | carre_class.py:19-30 | all four caches start empty and coherent |
| Diffeo.Map.Plan | carre_class.py:48-65 | a hit returns the stored plane; otherwise the key is written and the freshly sampled plane stored; either way the result is the plane of the key and only `plan` changes |
| Diffeo.Map.TabF | carre_class.py:67-75 | as `Plan` for the image of the plane, the key being rewritten on every miss; a hit changes nothing, a miss leaves `plan` holding the plane of the key; `tabDf` and `angles` are untouched |
| Diffeo.Map.TabDf | carre_class.py:135-158 | as `Plan` for the Jacobian arrays; a hit leaves `plan` alone, a miss leaves it holding the plane of the key; `tabF` and `angles` are untouched |
| Diffeo.Map.TabAnglesR | carre_class.py:214-248 | as `Plan` for the unwrapped angle field of the key; a hit leaves `plan` and `tabDf` alone; a miss leaves `tabDf` holding the Jacobian arrays of the key, and `plan` alone when `tab_df` hits and holding the plane of the key when it misses too; `tabF` is untouched |

## Left out

- Symbolic differentiation and compilation (`df_sym`, `df_num`, `lambdify`, `sym`, `num`): f, df and `arctan2` are function-valued constants of `Diffeo.Map`; the lazy caching of `df_num` is not modelled.
- Plotting and animation (`draw`, `draw_df`, `draw_all`, `draw_angles_ligne`, `play_angles` and the plotting in `trace`): user interface only.
- The `trace` integration loop: it needs cos and sin and has no termination bound; only the two lookups it calls (`_find_sim_points`, `_angle_moyen`) are modelled.
- `_distance`: it takes square roots of floats; the classifiers receive the distances as a given non-negative real array.
- The body of `tab_inverse` around `ajustement`: it is unfinished (a `for` with no body) and refers to a global object; only `ajustement` is modelled, with `pas` as a parameter.
- The example maps and the script at the end of the file (`f_ex`, `g_ex2`, `r_ex2`, `f_ex2`).
- Floating point: every quantity is an exact real, so rounding (of `//`, of the `linspace` steps, of the repeated ±2*PI in `modulo_2pi`) is not modelled; PI is the decimal 3.141592653589793, which is the shortest repr of the double `math.pi`, not the value of that double nor the real number pi.
- Shells.Classify: requires pas > 0 and non-negative distances; a negative level, which Python would wrap round to a bin from the end, is not modelled.
- Interp.FindCell: `_find_sim_points` clamps the cell only from above; a point below t0 gives negative indices, which the model keeps and which `Interp.Read` interprets as numpy does (counting from the end). The call is undefined for taille = 1 or t0 = t1 (division by zero), which its precondition excludes. The corners are only ever clamped from above, and `Interp.CornersIn` requires every index to be at least -taille: below that numpy raises IndexError at carre_class.py:440-443, which the model does not represent.
- Diffeo.Map.Plan: the cached numpy arrays are returned by reference in the source; the model returns values, so aliasing between a cached array and a caller's copy is not modelled.
- The docstring of `tab_df` gives a different layout of the Jacobian entries; the model follows the code, which keeps the matrix [[a, b], [c, d]] of partial derivatives as `lambdify` returns it.
- Diffeo.Map.Plan, Diffeo.Map.TabF, Diffeo.Map.TabDf, Diffeo.Map.TabAnglesR: the source writes a cache's key (carre_class.py:62, 71, 151, 219) before computing its value (64, 74, 157, 247). If that computation raises (for example `numpy.linspace` with a negative taille), the new key stays paired with the value of the old key, and a later call with the new key returns that stale value. The model has no exceptions: every computation succeeds, so it proves coherence only for runs without such a failure.
- Diffeo.Map.TabDfOf: `lambdify` returns a constant entry of the Jacobian as a scalar, not an array (the identity component of `f_ex`, carre_class.py:491-494, gives the constants 1 and 0), so `_df_num(axe_x, axe_y)` at carre_class.py:157 is then not four taille x taille arrays, and `arctan2` and `corrigeur` (222-223, 235) would then work on scalars or fail. The model takes df pointwise, so its shape guarantee holds only when every entry depends on the point.
- `UnwrapRow` and `Angles.UnwrapRows` require non-empty rows, as `ligne[0]` does; a taille of 0 gives no rows at all.

## Findings

| source | as written | input that shows it | evidently intended | confidence | as-written member | corrected member |
|---|---|---|---|---|---|---|
| carre_class.py:439-445 | channel 0 (laid out [y][x] by `meshgrid`) is read at [kx][ky] and channel 1 (laid out [x][y] by the transpose) at [ky][kx], so both are read at the node mirrored across the diagonal | the field with channel 0 = [[0, 0], [1, 1]] and channel 1 = [[0, 1], [0, 1]] on the 2 x 2 lattice of [-1, 1]^2, at node [0][1], the point (1, -1): the blend gives (1, 1) while that node holds (0, 0) | read channel 0 at [ky][kx] and channel 1 at [kx][ky], so the blend at a node is that node's angles | medium, not executed | Interp.BlendAtNodeMirrored, Interp.BlendMirroredCounterexample | Interp.BlendAt, Interp.BlendAtExactAtNodes |
