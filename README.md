# Distance-based decoders: a verified model of their own logic

`mahal_decoders.py` decodes an orientation (`dist_theta_kfold`,
`dist_theta_kfold_ct`) or a nominal condition (`dist_nominal_kfold`,
`dist_nominal_kfold_ct`) from multichannel data. It does this with
cross-validated Mahalanobis distances between the test trials and class
templates built from the training trials. This project models the parts of
the module that are its own logic rather than calls into numpy, scipy or
sklearn:

- the diagonal-target shrinkage covariance `covdiag` (Ledoit and Wolf, 2004);
- the basis-set smoothing of the bin templates `basis_set_fun`;
- the bookkeeping around the distances:
  - binning orientations to their nearest grid angle;
  - building the offset grids and merging them in Fortran order;
  - balanced and unbalanced class templates, and the covariance data;
  - the repetition slot `irep` each split writes, and the mean over repetitions;
  - centring over bins, `dec_cos`, and the per-trial `np.roll` reordering;
  - the condition encoding;
  - the nominal prediction, accuracy and distance margin.

Numbers are Dafny `real`. The transcendental and library pieces are
parameters: the circular distance `circ_dist`, the kernel `cosfun`, the
distance function behind `cdist`, the cosines of `dec_cos`, the splits of
`RepeatedStratifiedKFold` and the indices `random.sample` returns. Python's
exceptions and numpy's NaN results in the modelled operations are modelled as
`Result` values, and the `Outcomes` module names each error. The exceptions
`circ_dist` raises inside itself are not; "## Left out" lists them.

Modules, one per file:

- `Numeric`: sums, means, column means, demeaning.
- `Reshape`: C- and Fortran-order flattening.
- `Binning`: argmin, nearest bin, bincount, count_min.
- `AngularGrid`: default grid, bin width, offset grids, `shift_to`.
- `Shrinkage`: `covdiag`.
- `BasisSet`: `basis_set_fun`.
- `Templates`: class templates and covariance data of one training fold.
- `Folds`: repetition slots and the mean over repetitions.
- `CircularPost`: centring, merge, `dec_cos`, roll reordering.
- `Nominal`: encoding, prediction, accuracy, margin.

## Model

| member | source | states |
|---|---|---|
| `Numeric.DemeanedColumnSum` | mahal_decoders.py:41 | after `x - np.mean(x, axis=0)` every column sums to zero |
| `Numeric.DemeanIdempotent` | mahal_decoders.py:41 | demeaning already demeaned data changes nothing |
| `Shrinkage.CovDiag` | mahal_decoders.py:28-59 | the estimator exists exactly when the data has at least two rows and two columns; with one row or one column `np.cov` gives a 0-d array and `np.diag` raises (`NotAMatrix`); otherwise, with no rows or no columns, `1/n/t**2` or `1/n` divides by zero; the result is n x n |
| `Shrinkage.Clip` | mahal_decoders.py:56 | the intensity lies in [0, 1]; it equals `r2/d` whenever that ratio lies in [0, 1], is 1 when the ratio is above 1 and 0 when it is below 0; with `d = 0` Python's `min`/`max` over inf or nan give 1 exactly when `r2 >= 0`, and 0 when `r2 < 0` |
| `Shrinkage.Intensity` | mahal_decoders.py:50-56 | the shrinkage intensity computed from the data always lies in [0, 1] |
| `Shrinkage.CovDiagFormula` | mahal_decoders.py:40-57 | the same blend written with the biased covariances of the raw columns |
| `Shrinkage.CovDiagDiagonal` | mahal_decoders.py:44-57 | every diagonal entry of the result is the biased variance of that column |
| `Shrinkage.CovDiagSymmetric` | mahal_decoders.py:44-57 | the result is symmetric |
| `Shrinkage.CovDiagPSD` | mahal_decoders.py:40-57 | the estimate is positive semi-definite: `v^T sigma v >= 0` for every vector v |
| `Shrinkage.SampleCovPSD` | mahal_decoders.py:44 | the biased sample covariance is positive semi-definite (it is `x^T x / t` of the demeaned data) |
| `Shrinkage.SampleCovVariances` | mahal_decoders.py:44 | the variances on its diagonal are non-negative |
| `Shrinkage.GramPSD` | mahal_decoders.py:44 | `x^T x` is positive semi-definite, each row adding an outer product |
| `Shrinkage.QuadOuter` | mahal_decoders.py:44 | the quadratic form of an outer product `r r^T` is the square of `v . r` |
| `Shrinkage.QuadCombine` | mahal_decoders.py:57 | the quadratic form of `x*a + y*b` is `x` times that of a plus `y` times that of b |
| `Shrinkage.PriorPSD` | mahal_decoders.py:47-48 | the diagonal prior of a matrix with a non-negative diagonal is positive semi-definite |
| `Shrinkage.BlendPSD` | mahal_decoders.py:57 | blending two positive semi-definite matrices with a weight in [0, 1] gives one |
| `Shrinkage.SampleCov` | mahal_decoders.py:44 | `np.cov(x, rowvar=False, bias=True)` is n x n; its entries are stated by `Shrinkage.SampleCovEntries` |
| `Shrinkage.SampleCovEntries` | mahal_decoders.py:40-44 | `np.cov(x, rowvar=False, bias=True)` of the demeaned data has, at (i, j), the mean product of the deviations of columns i and j |
| `Shrinkage.SampleCovSymmetric` | mahal_decoders.py:44 | the sample covariance is symmetric |
| `Shrinkage.BlendDiagonal` | mahal_decoders.py:47-57 | blending with the diagonal prior keeps the diagonal, whatever the intensity |
| `Shrinkage.BlendOffDiagonal` | mahal_decoders.py:47-57 | every off-diagonal entry is `(1 - shrinkage)` times the sample covariance |
| `Shrinkage.BlendSymmetric` | mahal_decoders.py:57 | blending a symmetric sample with its diagonal stays symmetric |
| `Shrinkage.OffDiagonalSquares` | mahal_decoders.py:51 | the squared entries of `sample - prior` are non-negative, and zero exactly on the diagonal and at zero covariances |
| `Shrinkage.DZeroIffDiagonal` | mahal_decoders.py:51 | `d = 0` exactly when every off-diagonal sample covariance is zero |
| `Shrinkage.DegenerateIsDiagonal` | mahal_decoders.py:47-51 | with `d = 0` the prior equals the sample covariance |
| `Shrinkage.BlendSame` | mahal_decoders.py:57 | blending a matrix with itself gives it back, whatever the intensity |
| `Shrinkage.DegenerateSample` | mahal_decoders.py:51-57 | with `d = 0` (where `r2/d` is not a number) the estimator is the sample covariance, so the division's outcome does not matter |
| `BasisSet.BasisSetFun` | mahal_decoders.py:69-82 | the loop writes to every bin `ci` the kernel-weighted mean of all bin templates, with the kernel centred on `u_theta[ci]` and the default smoothness `bins - 1`; the kernel sum it divides by is positive |
| `BasisSet.KernelTotal` | mahal_decoders.py:77-80 | the kernel of any bin has a positive sum, so the division at line 80 is defined |
| `BasisSet.SmoothedBounds` | mahal_decoders.py:80 | every smoothed value lies between the smallest and the largest template value of that feature |
| `BasisSet.WeightedMeanBounds` | mahal_decoders.py:80 | a non-negatively weighted mean with a positive weight sum lies within the range of its terms |
| `BasisSet.SmoothedConstant` | mahal_decoders.py:80 | when every bin template is the same vector, smoothing returns that vector |
| `Binning.ArgMin` | mahal_decoders.py:145 | `np.argmin` returns the first index of a minimum |
| `Binning.FirstMinUnique` | mahal_decoders.py:145 | there is exactly one first minimum |
| `Binning.NearestBinsAreNearest` | mahal_decoders.py:145 | each orientation's bin is at least as near (in absolute circular distance) as every other grid angle, and strictly nearer than every earlier one |
| `Binning.NearestBins` | mahal_decoders.py:145 | every trial's code is a grid index and the first minimum of its absolute circular distances to the grid |
| `Binning.OnSeparatedGridAngle` | mahal_decoders.py:145 | on a grid whose points are pairwise at non-zero circular distance, an angle equal to grid point j is binned at j |
| `Binning.OnGridAngle` | mahal_decoders.py:145 | an orientation that lies on the grid is assigned a bin at circular distance zero, no later than its own position |
| `Binning.BinCount` | mahal_decoders.py:172 | `np.bincount`: one count per label 0..max, each the label's multiplicity; empty for no labels |
| `Binning.CountMin` | mahal_decoders.py:172 | `count_min` is at most every count in the bincount and equals one of them; no labels is an error (`min` of an empty sequence) |
| `Binning.CountMinPositive` | mahal_decoders.py:172 | `count_min > 0` exactly when every label from 0 to the largest occurs |
| `AngularGrid.DefaultAngspace` | mahal_decoders.py:96 | the default grid has 16 bins |
| `AngularGrid.BinWidth` | mahal_decoders.py:101 | `np.diff(angspace)[0]` is the step from the first grid angle to the second; a grid of fewer than two angles has none |
| `AngularGrid.BuildAngspaces` | mahal_decoders.py:125-130 | row `ans` of `angspaces` is the grid shifted by `ans*bin_width/ang_steps` |
| `AngularGrid.FullGridIndex` | mahal_decoders.py:132 | `angspace_full[ans + b*ang_steps]` is `angspace[b] + ans*bin_width/ang_steps` |
| `AngularGrid.FullGridEvenlySpaced` | mahal_decoders.py:125-132 | merging the offset grids of an evenly spaced grid gives an evenly spaced grid with step `bin_width/ang_steps` |
| `AngularGrid.ShiftTo` | mahal_decoders.py:244 | `shift_to` is the first index of angle 0 in `angspace_full`; without one `np.where(...)[0][0]` fails |
| `AngularGrid.DefaultShiftTo` | mahal_decoders.py:244 | on the default grid, for every `ang_steps`, angle 0 sits at index `8*ang_steps` |
| `Reshape.FlattenFIndex` | mahal_decoders.py:132 | Fortran-order flattening puts entry (a, b) at index `a + b*rows` |
| `Reshape.SumFlattenF` | mahal_decoders.py:225 | Fortran-order flattening keeps the total |
| `Reshape.FlattenCIndex` | mahal_decoders.py:380 | C-order flattening puts entry (b, a) at index `b*cols + a` |
| `Reshape.UnflattenFlatten` | mahal_decoders.py:405 | reshaping a C-order flattening back to its shape restores the array |
| `Reshape.FlattenUnflatten` | mahal_decoders.py:405 | C-order flattening of a reshaped vector gives the vector back |
| `Templates.Members` | mahal_decoders.py:174 | the mask `keys == key` selects exactly the trials with that key, in trial order |
| `Templates.MembersCount` | mahal_decoders.py:172 | a class has as many trials as its entry in the bincount |
| `Templates.MembersByAngle` | mahal_decoders.py:174 | selecting by bin angle (`y_train == angspace_temp[c]`) picks the same trials as selecting by bin code `c`, when the grid angles are distinct |
| `Templates.CountMinWithinClasses` | mahal_decoders.py:172 | `count_min` never exceeds the size of any class up to the largest label |
| `Templates.BalancedTemplates` | mahal_decoders.py:171-181 | each class template is the mean of the `count_min` drawn trials; the covariance data is the appended class blocks (residuals with `residual_cov`) or all training trials; an empty bincount, a sample larger than its class or an empty draw fails at the first such class |
| `Templates.BalancedTemplateIsMeanOfDistinct` | mahal_decoders.py:172-176 | a balanced template is the mean of exactly `count_min` distinct training trials, all of that class |
| `Templates.UnbalancedTemplates` | mahal_decoders.py:182-184 | each class template is the mean of all of the class's training trials; the covariance data is all training trials, or empty with `balanced_cov`; the first empty class fails with `EmptyClass` |
| `Templates.CovBlocksStep` | mahal_decoders.py:179-181 | `np.append` adds class c's block after the blocks of the earlier classes |
| `Templates.CovBlocksSize` | mahal_decoders.py:177-181 | balanced covariance data has `classes * count_min` rows |
| `Templates.ResidualCovCentred` | mahal_decoders.py:178-179 | every column of the residual covariance data sums to zero |
| `Folds.RepBelow` | mahal_decoders.py:165 | `irep = floor(split_counter/n_folds)` stays below `n_reps` |
| `Folds.FillRepetitions` | mahal_decoders.py:159-212 | after the split loop, slot (trial, irep) holds what the last split of repetition irep with that trial among its test trials wrote, or NaN if none did |
| `Folds.EverySlotWritten` | mahal_decoders.py:159-212 | when each repetition's folds partition the trials, a test trial's slot holds the distances from its own split |
| `Folds.NoSlotUnwritten` | mahal_decoders.py:222 | when each repetition's folds partition the trials, no slot is left NaN |
| `Folds.RepMean` | mahal_decoders.py:222 | the mean over repetitions is defined exactly when there is a repetition and every slot was written |
| `Folds.RepMeanBounds` | mahal_decoders.py:222 | the repetition mean lies within the range of the repetitions' values |
| `Folds.RepMeanConstant` | mahal_decoders.py:536 | repetitions that agree average to their common value |
| `Folds.FilledTrialsAverage` | mahal_decoders.py:536 | with valid splits every trial's repetition mean is defined |
| `Folds.CrossTemporalPairing` | mahal_decoders.py:379-405 | after the moveaxis, C-order reshape, `cdist` and reshape back, entry (c, j, t) is the distance between template c and test trial j at time t |
| `CircularPost.Centre` | mahal_decoders.py:224 | `v - np.mean(v)` keeps the length; its meaning is stated by `CircularPost.CentreSumsToZero` and `CircularPost.CentreIdempotent` |
| `CircularPost.Merge` | mahal_decoders.py:225 | the Fortran-order merge of an `ang_steps x bins` matrix has `ang_steps*bins` entries; where each one goes is stated by `CircularPost.MergeAligned` |
| `CircularPost.CentreShift` | mahal_decoders.py:224 | centring removes a constant added to every entry |
| `CircularPost.CentredFlatShift` | mahal_decoders.py:224-226 | the twice-centred merged distances do not change when a constant is added to the distances |
| `CircularPost.CentreSumsToZero` | mahal_decoders.py:224 | a centred vector sums to zero |
| `CircularPost.CentreZeroSum` | mahal_decoders.py:226 | centring a vector that sums to zero changes nothing |
| `CircularPost.CentreIdempotent` | mahal_decoders.py:224-226 | centring twice is centring once |
| `CircularPost.CentredOverBins` | mahal_decoders.py:224 | after centring over the bin axis, every offset's values across bins sum to zero |
| `CircularPost.SecondCentringNoOp` | mahal_decoders.py:224-226 | the merged, centred distances sum to zero, so the second centring of `distances_flat` changes nothing |
| `CircularPost.MergeAligned` | mahal_decoders.py:225 | the Fortran-order merge of the distances (line 225) and of the grids (line 132) send (offset a, bin b) to the same index `a + b*ang_steps`, so row k of `distances_flat` belongs to `angspace_full[k]` |
| `CircularPost.DecCos` | mahal_decoders.py:227 | with uniform cosine weights, a centred profile gives `dec_cos = 0`: the statistic only responds to weights that vary across the bins |
| `CircularPost.DecCosShift` | mahal_decoders.py:224-227 | `dec_cos`, with the cosines of the circular distances from `angspace_full` to the orientation, is unchanged when a constant is added to a trial's distances |
| `CircularPost.DecCosBounded` | mahal_decoders.py:227 | with cosines in [-1, 1], `dec_cos` is no larger in size than a bound on the distances |
| `CircularPost.DecCosScale` | mahal_decoders.py:227 | `dec_cos` scales with the distances |
| `CircularPost.Roll` | mahal_decoders.py:246 | `np.roll` keeps the length; where each entry goes is stated by `CircularPost.RollMoves`, `CircularPost.RollSlices` and `CircularPost.RollPermutation` |
| `CircularPost.RollSlices` | mahal_decoders.py:246 | rolling by s is the last `s mod n` entries followed by the rest, as `np.roll` defines it |
| `CircularPost.RollPermutation` | mahal_decoders.py:246 | a roll is a permutation of the column |
| `CircularPost.RollInverse` | mahal_decoders.py:246 | rolling by -s undoes rolling by s |
| `CircularPost.RollMoves` | mahal_decoders.py:246 | a roll by s moves entry k to position `(k + s) mod n` |
| `CircularPost.RollOwnBin` | mahal_decoders.py:244-246 | rolling by `shift_to - own` puts entry `own` at index `shift_to` |
| `CircularPost.Reorder` | mahal_decoders.py:242-246 | each trial's column of `distances_ordered` is its column of `distances_flat` rolled by `shift_to - own_bin` |
| `CircularPost.ReorderedOwnBin` | mahal_decoders.py:244-246 | in `distances_ordered` each trial's own-bin distance sits at `shift_to`, the position of angle 0 |
| `CircularPost.OwnBin` | mahal_decoders.py:236-240 | a trial's own bin is the first combined bin at the smallest absolute circular distance from its binned angle |
| `CircularPost.OwnBinsAreNearestBins` | mahal_decoders.py:231-240 | on a merged grid whose points are pairwise at non-zero circular distance, `theta_bin_dists_min_ind` equals the bins `temp` the orientations were assigned to |
| `CircularPost.ReorderedNearestBin` | mahal_decoders.py:231-246 | in `distances_ordered`, each trial's entry at `shift_to` is its distance to the bin nearest its own orientation |
| `CircularPost.OwnBinAtZeroDistance` | mahal_decoders.py:231-240 | the own-bin index found for a trial whose bin angle is on the merged grid is at circular distance zero from it, and no later than that angle's position |
| `Nominal.Unique` | mahal_decoders.py:450 | `np.unique` is strictly increasing and holds exactly the input's values |
| `Nominal.SortedUnique` | mahal_decoders.py:450 | two strictly increasing vectors with the same values are equal, so `np.unique` has a single possible result |
| `Nominal.EncodeConditions` | mahal_decoders.py:450-457 | every trial's code is the position of its condition in the sorted unique conditions, and afterwards `u_conds` is `0..k-1` |
| `Nominal.CodesCoverRange` | mahal_decoders.py:457 | codes that name every condition by its rank take exactly the values `0..k-1` |
| `Nominal.EncodingKeepsOrder` | mahal_decoders.py:453-456 | a smaller condition gets a smaller code and equal conditions get the same code |
| `Nominal.Predict` | mahal_decoders.py:538 | `pred_cond` is a condition whose distance is minimal, and no earlier condition is as near |
| `Nominal.HitIffNearest` | mahal_decoders.py:538-540 | a trial counts as correct exactly when its own template is nearest and no earlier template is as near |
| `Nominal.Others` | mahal_decoders.py:545 | `np.setdiff1d(u_conds, cond)` keeps the other conditions in order |
| `Nominal.Margin` | mahal_decoders.py:542-547 | the margin is defined exactly when there are at least two conditions (otherwise it is the mean of nothing) |
| `Nominal.HitMarginNonNegative` | mahal_decoders.py:538-547 | a correctly decoded trial has a margin of at least zero |
| `Nominal.NegativeMarginIsMiss` | mahal_decoders.py:538-547 | a negative margin means the trial was decoded wrongly |
| `Nominal.DistanceDifference` | mahal_decoders.py:542-547 | the loop over conditions gives every trial the mean distance to the other conditions minus the distance to its own |

## Left out

- `circ_dist` (mahal_decoders.py:9-26) and `cosfun` (mahal_decoders.py:61-67) use complex exponentials, angles, cosines and powers. They are function parameters, and so is the cosine of `dec_cos`. `cosfun` is assumed only to be non-negative and positive at its own centre, for the non-negative powers `bins - 1` it is called with. The range of `circ_dist` is not modelled. The lemmas about the own bin assume only that `circ_dist(x, x) = 0` and that distinct points of the merged grid are at non-zero circular distance.
- The whitened-PCA and direct Mahalanobis distances (`eigh`, `argsort`, `sqrt`, `inv`, `cdist`) are library linear algebra. Each split's distances are an input, and the `cdist` pairing is an abstract distance function.
- `RepeatedStratifiedKFold` is a library call. Its splits are an input. The partition property (each repetition's test folds cover every trial exactly once) is a precondition of the lemmas that need it. Stratification is not modelled.
- `random.sample` is nondeterministic. The indices it returns are an input, required to be `count_min` distinct indices into the class.
- The progress bar (`ChargingBar`) is console output and is left out.
- Dead code is left out: the commented-out `mahalTune_func` (mahal_decoders.py:664-713), the unused `cov_metric` flag (mahal_decoders.py:284-285) and the unused `angspace_dist` (mahal_decoders.py:339-341).
- The cross-temporal `dec_cos` (mahal_decoders.py:330-337, 415) is left out. There `theta_dists2` is replaced by an array of a different shape, so the product at line 415 does not line up with `distances_flat`.
- The comparison `np.array_equal(angspace, np.unique(theta))` (mahal_decoders.py:98) compares floating-point grids. It only forces `ang_steps = 1`, so the model takes `ang_steps` as given.
- Time is not a separate axis. A trial's channels and time points form one feature vector, and the per-time-point loops are folded into it. The cross-temporal reshape is modelled on its own (`Folds.CrossTemporalPairing`). The sizing of `m_temp` by the test data's `ntps` rather than `ntps_trn` is not modelled.
- Conditions are integers. The source accepts any values `np.unique` can sort.
- `Shrinkage.Intensity`: the Ledoit-Wolf `r2 >= 0` is not proved, so the model does not show that the intensity is 1 when `d = 0`. `Shrinkage.DegenerateSample` shows that the intensity does not matter in that case.
- `Templates.UnbalancedTemplates`: for a class with no training trials the source writes a NaN template and carries on. The model reports the first such class as an error and leaves the later templates unwritten.
- `Templates.BalancedTemplates`: with `count_min = 0` the source writes NaN templates and carries on. The model reports the first such class as an error. A sample larger than its class raises in the source as in the model.
- `Folds.RepMean`: a NaN slot makes the source's mean NaN for that trial only. The model reports the trial's mean as an error instead of a NaN value.
- `CircularPost.ReorderedOwnBin`: states where the own bin lands. The whole column's order is stated separately by `CircularPost.RollMoves` and `CircularPost.RollPermutation`.
- A single observation is not a degenerate `d = 0` case that falls back to the diagonal prior. With one row (or one column) `np.cov` returns a 0-d array and `np.diag` raises, and the model follows the source (`Shrinkage.CovDiag`).
- `Binning.NearestBins`: `circ_dist` squeezes its arguments (mahal_decoders.py:15-16), so with a single trial or a single grid angle `len()` of the 0-d array raises TypeError at mahal_decoders.py:19-20. The model bins such inputs anyway. The same holds for the all-pairs calls behind `CircularPost.OwnBins` and `CircularPost.Reorder`.
- Floating-point rounding is not modelled. Arithmetic is exact on reals.
