# dcm_psilocybin — numeric core in Dafny

This project models the numeric and control core of the dcm_psilocybin analysis
scripts. These scripts turn the output of a DCM/PEB (dynamic causal modelling,
parametric empirical Bayes) analysis of a psilocybin study into connectivity
figures and statistics. The model covers seven parts:

- **PEB posterior reshaping and heatmap preparation** (`plot_PEB_results.py`).
  - `parse_parameter_names` parses names such as `A(2,3)`.
  - The three reshapes place the flat posterior vectors `Ep`/`Pp` into an
    `n x n x cov` tensor:
    - dense (every connection present, row-major per covariate block);
    - by parameter name (constrained models);
    - a sequential fallback.
  - `plot_heatmaps` then thresholds `Ep` by `Pp` and reverts the log-scaled
    self-connections (`-exp(x)/2`). For a 'change' model it adds the derived
    covariates and the magnitude and sign masks. It reorders the ROIs on request.
- **Connectivity loading and filtering for the glass-brain plots**
  (`scripts/visualization/plot_nilearn_connectivity.py`).
  - `load_connectivity` thresholds the flat vector and reshapes it. It uses
    column-major order when the vector is dense, and the `A(i,j)` names
    otherwise. It then takes one covariate's slice.
  - `filter_connections` builds the source/target mask and applies the
    strength threshold.
  - `get_coordinates` resolves region names to coordinates, by exact and
    then by case-insensitive partial match.
- **Horizontal SVG panel combination**
  (`scripts/analysis/utilities/combine_plots.py`).
  - Dimension parsing with units, and the `viewBox` fallback.
  - The input checks.
  - The layout: total width, tallest panel, x/y offsets.
  - The line-based content extraction fallback.
- **Benjamini-Hochberg FDR correction and pairwise correlation matrices**
  (`scripts/behav_analysis/analyze_scales.py`).
- **The full pipeline runner** (`scripts/analysis/00_run_full_pipeline.py`):
  stage selection (range, category, paper mode), then sequential execution
  that records failures and may abort.
- **The DCM network figure's connection list**
  (`scripts/analysis/utilities/generate_dcm_network_figure.py`):
  `generate_all_connections`.
- **The paper-figure driver** (`scripts/analysis/08_generate_paper_figures.py`).
  - The visualization command line, with its defaults.
  - Hypothesis validation.
  - Figure generation outcomes.
  - The summary counts, and the KeyError the summary report raises for a
    recorded hypothesis without `visualization` or `output`.
  - The exit code.

Each source file is one module:

| module | file |
|---|---|
| `PebNames` | `peb_names.dfy` |
| `PebReshape` | `peb_reshape.dfy` |
| `PebHeatmap` | `peb_heatmap.dfy` |
| `NilearnLoad` | `nilearn_load.dfy` |
| `NilearnFilter` | `nilearn_filter.dfy` |
| `SvgCombine` | `svg_combine.dfy` |
| `Fdr` | `fdr.dfy` |
| `Pipeline` | `pipeline.dfy` |
| `NetworkConnections` | `network_connections.dfy` |
| `PaperFigures` | `paper_figures.dfy` |

Four support modules hold the shared pieces:

- `Wrappers`: `Option` and `Result`.
- `Text`: the Python string built-ins the scripts use.
- `Tensors`: numpy arrays as values.
- `FlatIndex`: flat-index arithmetic.

How the code is modelled:

- numpy arrays that the code mutates are Dafny arrays (`array3<real>`,
  `array2<real>`, `array<real>`), changed in place by methods. Each method is
  proved equal to a specification function on sequences, and the properties
  are proved about those functions.
- Exceptions the code raises are `Err` values of `Result`.
- Everything the scripts learn from outside (file existence, subprocess exit codes, the
  user's answers, `float(str)`, `exp`, scipy's correlation functions,
  `np.argsort`) are parameters.

Two conventions for the dense layout sit side by side in the repository, and
each is modelled as written:

- The PEB dense reshape is row-major. `Ep[start:end].reshape(roi_n, roi_n)`
  at `plot_PEB_results.py:325` uses numpy's default C order, while the
  repository's own test at
  `scripts/tests/test_validation/test_peb_constraints.py:150-152` decodes
  a flat index column-major (`row = flat_idx % n_rois`).
- The connectivity loader uses `order='F'` (column-major).
- `NilearnLoad.FortranIsTranspose` proves that the two loaders' dense
  tensors are transposes of each other in every covariate.

## Model

| member | source | states |
|---|---|---|
| PebNames.ParseParameterNames | plot_PEB_results.py:232-259 | one record per name, in order, each the parse of its name |
| PebNames.FieldEnd | plot_PEB_results.py:244 | the field group of the pattern is the longest run of `[A-Za-z0-9{},]` characters |
| PebNames.DigitEnd | plot_PEB_results.py:244 | the row and column groups are the longest runs of decimal digits |
| PebNames.FieldEndOfRun | plot_PEB_results.py:244 | any maximal run of field characters is the one the matcher finds |
| PebNames.DigitEndOfRun | plot_PEB_results.py:244 | any maximal run of digits is the one the matcher finds |
| PebNames.FormatNameRoundTrip | plot_PEB_results.py:244-254 | parsing `field(row,col)` gives back the field and both 1-based indices |
| PebNames.SingleIndexName | plot_PEB_results.py:244-254 | `field(row)` parses with a row and no column |
| PebNames.NameWithoutParen | plot_PEB_results.py:255-257 | a name without `(` falls back to a record holding the name, with no indices |
| PebNames.ParsedShape | plot_PEB_results.py:246-257 | a record with a column always has a row; a record without a row is the unparsed name |
| PebReshape.ChosenLayoutFits | plot_PEB_results.py:294-310 | the layout chosen from the vector length and the names always fits the vectors it reads |
| PebReshape.DensePlacement | plot_PEB_results.py:321-329 | entry `c*n*n + k` lands at `[k / n, k % n, c]` (row-major) |
| PebReshape.DenseFlattenRoundTrip | plot_PEB_results.py:318-331 | flattening the dense reshape gives the vector back: nothing lost or moved |
| PebReshape.FlattenDenseRoundTrip | plot_PEB_results.py:318-331 | every cube of that shape is the dense reshape of its flattening |
| PebReshape.LastHit | plot_PEB_results.py:372-381 | the last of the first `k` records that names a cell, and that no later one does |
| PebReshape.NamedPlacement | plot_PEB_results.py:369-381 | a record that alone names cell `[i,j]` puts entry `c*p + k` there for every covariate |
| PebReshape.NamedUnwrittenIsZero | plot_PEB_results.py:365-381 | a cell that no used record names stays 0, so every non-zero cell is named |
| PebReshape.RowMajorHits | plot_PEB_results.py:372-381 | among the row-major names exactly the one at `i*n + j` names cell `[i,j]` |
| PebReshape.NamedRowMajorIsDense | plot_PEB_results.py:318-383 | with the full row-major names, the by-name layout equals the dense one |
| PebReshape.SequentialFullIsDense | plot_PEB_results.py:386-418 | when every connection is present, the fallback equals the dense reshape |
| PebReshape.SequentialTailIsZero | plot_PEB_results.py:406-416 | cells at row-major position `>= len(Ep) // cov` stay 0 |
| PebReshape.PlaceDrawsFromVector | plot_PEB_results.py:262-418 | every cell of every layout is 0 or some entry of the vector |
| PebReshape.DenseDrawsFromVector | plot_PEB_results.py:318-331 | every dense cell is an entry of the vector |
| PebReshape.NamedDrawsFromVector | plot_PEB_results.py:359-383 | every by-name cell is 0 or an entry of the vector |
| PebReshape.SequentialDrawsFromVector | plot_PEB_results.py:386-418 | every fallback cell is 0 or an entry of the vector |
| PebReshape.ReshapePosteriorSimple | plot_PEB_results.py:262-310 | fails (ZeroDivisionError) exactly when there are no covariates; otherwise fresh `Ep`/`Pp` arrays holding the chosen layout of each vector |
| PebReshape.ReshapePosteriorFull | plot_PEB_results.py:313-331 | fresh arrays equal to the dense reshapes; the count returned is the one passed in |
| PebReshape.FillDense | plot_PEB_results.py:318-329 | a fresh array equal to the dense reshape |
| PebReshape.FillDenseCovariate | plot_PEB_results.py:321-329 | slice `c` is block `c` row-major; the other slices are unchanged |
| PebReshape.ReshapePosteriorConstrained | plot_PEB_results.py:334-352 | by names when present, sequential otherwise, as the layout choice says; count `n*n` |
| PebReshape.ReshapeWithParameterNames | plot_PEB_results.py:355-383 | the first `len(Ep) // cov` names place the entries; the later record wins; count `n*n` |
| PebReshape.ScatterByName | plot_PEB_results.py:365-381 | a fresh array equal to the by-name placement |
| PebReshape.ScatterCovariate | plot_PEB_results.py:370-381 | slice `c` becomes the by-name placement; other slices unchanged |
| PebReshape.ReshapeConstrainedFallback | plot_PEB_results.py:386-418 | fresh arrays equal to the sequential fill; count `n*n` |
| PebReshape.FillSequential | plot_PEB_results.py:394-416 | a fresh array equal to the sequential fill |
| PebReshape.FillSequentialCovariate | plot_PEB_results.py:397-416 | slice `c` filled row by row until the block runs out; other slices unchanged |
| PebReshape.FillSequentialRow | plot_PEB_results.py:407-414 | one row filled while the block lasts; the position advances to `min(i*n + n, p)`; nothing else changes |
| PebHeatmap.ThresholdIdempotent | plot_PEB_results.py:469-472 | thresholding twice by the same `Pp` is thresholding once |
| PebHeatmap.ThresholdAbsorbs | plot_PEB_results.py:469-472 | a stricter threshold after a looser one is the stricter one alone |
| PebHeatmap.ApplyThreshold | plot_PEB_results.py:469-472 | in place, `Ep` becomes its thresholded version |
| PebHeatmap.RevertTouchesOnlyDiagonal | plot_PEB_results.py:476-497 | off-diagonal cells never change, and nothing changes when the revert is off or the type has none |
| PebHeatmap.ChangeRevertSum | plot_PEB_results.py:476-490 | for 'change' the first diagonal is `-exp(d0)/2` and the two reverted diagonals add up to `-exp(d0 + d1)/2` |
| PebHeatmap.ThresholdedSelfConnection | plot_PEB_results.py:469-497 | for the per-covariate revert types, a self-connection zeroed by the threshold is drawn as `-exp(0)/2`, that is -0.5 |
| PebHeatmap.DiagonalOf | plot_PEB_results.py:478-479 | the copied diagonal of covariate `c` |
| PebHeatmap.RevertDiagonal | plot_PEB_results.py:476-497 | in place, `Ep` becomes its reverted version, computed from diagonals copied before any write |
| PebHeatmap.RevertChangeDiagonals | plot_PEB_results.py:476-490 | both 'change' diagonals rewritten from the original copies; off-diagonal cells unchanged |
| PebHeatmap.RevertEveryDiagonal | plot_PEB_results.py:492-497 | every covariate's diagonal rewritten; off-diagonal cells unchanged |
| PebHeatmap.RevertCovariate | plot_PEB_results.py:494-497 | covariate `c`'s diagonal becomes `-exp(d)/2`; everything else unchanged |
| PebHeatmap.ExpandedNames | plot_PEB_results.py:454-523 | fails exactly when there are no covariate names; otherwise the names followed by the two new labels |
| PebHeatmap.ExpansionKeepsCovariates | plot_PEB_results.py:500-524 | slices 0 and 1 are kept, slice 2 is their sum, slice 3 equals the change covariate |
| PebHeatmap.SignChangeIff | plot_PEB_results.py:512 | marked exactly where the baseline and the second-group mean have opposite signs |
| PebHeatmap.MagnitudeTowardZero | plot_PEB_results.py:509 | negative exactly when the second-group mean is closer to 0 than the baseline |
| PebHeatmap.ExpandChange | plot_PEB_results.py:500-527 | fresh arrays equal to the expanded cube, the magnitude matrix and the sign mask |
| PebHeatmap.MagnitudeOf | plot_PEB_results.py:509 | a fresh matrix equal to the magnitude change |
| PebHeatmap.SignMaskOf | plot_PEB_results.py:512 | a fresh matrix equal to the sign mask |
| PebHeatmap.FillExpandedSlice | plot_PEB_results.py:518-521 | slice `s` of `Ep_new` gets its value; the other slices are unchanged |
| PebHeatmap.PyIndex | plot_PEB_results.py:538-541 | Python indexing: in range after the negative wrap, or an IndexError |
| PebHeatmap.ResolveOrder | plot_PEB_results.py:530-541 | a resolved order has `n` positions, each below `n` |
| PebHeatmap.ZeroBasedOrderKept | plot_PEB_results.py:532-541 | an in-range 0-based order that contains 0 is used unchanged |
| PebHeatmap.OneBasedOrderShifted | plot_PEB_results.py:532-541 | an order whose entries all lie in `1..n` is shifted down by one |
| PebHeatmap.ReorderInverse | plot_PEB_results.py:529-541 | reordering by a permutation and then by its inverse gives the tensor back |
| PebHeatmap.OneBasedOrderSame | plot_PEB_results.py:534-535 | a permutation written 1-based resolves like the same one written 0-based |
| PebHeatmap.NegativeIndexWraps | plot_PEB_results.py:534-541 | a list with a negative entry is not shifted, and the entry counts from the end |
| PebHeatmap.ReorderRois | plot_PEB_results.py:529-541 | fails exactly when the order does not resolve; otherwise reordered names and a fresh reordered tensor |
| PebHeatmap.Gather | plot_PEB_results.py:541 | a fresh array equal to the reordered cube |
| PebHeatmap.Expanded | plot_PEB_results.py:499-527 | fails exactly when a 'change' expansion has no covariate names; a result is a cube of its covariate count |
| PebHeatmap.HeatmapErrors | plot_PEB_results.py:445-541 | which exception is raised, and when: ZeroDivisionError with no covariates, a missing-names error on a 'change' expansion without names, else exactly a bad `roi_reorder` |
| PebHeatmap.DefaultsKeepRoiOrder | plot_PEB_results.py:460-541 | with default parameters on a non-'change' model the call succeeds, keeping the ROI names, covariate count and names |
| PebHeatmap.SubThresholdConnectionIsZero | plot_PEB_results.py:469-497 | a connection below the probability threshold is drawn as 0, unless it is a self-connection the revert rewrites |
| PebHeatmap.PrepareTensor | plot_PEB_results.py:463-497 | fresh arrays holding the prepared tensor, or the reshape's error |
| PebHeatmap.FilterTensor | plot_PEB_results.py:469-497 | in place: the threshold, then the diagonal revert |
| PebHeatmap.ExpandStep | plot_PEB_results.py:499-527 | the arrays after the expansion match `Expanded` |
| PebHeatmap.ReorderStep | plot_PEB_results.py:529-541 | the arrays after the reorder match the reorder of the expanded tensor, or its error |
| PebHeatmap.PlotHeatmapsNumeric | plot_PEB_results.py:445-541 | fails exactly as `HeatmapSpec` does; otherwise its arrays hold what `HeatmapSpec` describes |
| NilearnLoad.ThresholdedVector | scripts/visualization/plot_nilearn_connectivity.py:177-179 | each entry is zeroed exactly when its probability is below the threshold |
| NilearnLoad.ThresholdVector | scripts/visualization/plot_nilearn_connectivity.py:177-179 | in place, the vector becomes its thresholded version |
| NilearnLoad.FortranPlacement | scripts/visualization/plot_nilearn_connectivity.py:188 | entry `k` lands at `[k % n, (k / n) % n, k / n^2]` |
| NilearnLoad.FortranIsTranspose | scripts/visualization/plot_nilearn_connectivity.py:188 | the column-major cube is the row-major one with target and source swapped |
| NilearnLoad.ThresholdThenReshape | scripts/visualization/plot_nilearn_connectivity.py:177-188 | thresholding the vector and then reshaping equals reshaping both and thresholding the cube |
| NilearnLoad.FillFortran | scripts/visualization/plot_nilearn_connectivity.py:188 | a fresh array equal to the column-major reshape |
| NilearnLoad.CellOfRange | scripts/visualization/plot_nilearn_connectivity.py:199-203 | which 1-based indices land in range, and where they land |
| NilearnLoad.FirstErrorSticks | scripts/visualization/plot_nilearn_connectivity.py:196-203 | once a name raises, every longer prefix raises the same error |
| NilearnLoad.NoErrorAllResolve | scripts/visualization/plot_nilearn_connectivity.py:196-203 | when no name raises, every name resolves |
| NilearnLoad.Targets | scripts/visualization/plot_nilearn_connectivity.py:196-203 | each name's target, as the name resolves on its own |
| NilearnLoad.LastWriter | scripts/visualization/plot_nilearn_connectivity.py:196-203 | the last name that writes a cell, and no later name writes it |
| NilearnLoad.LastResolvedWriter | scripts/visualization/plot_nilearn_connectivity.py:196-203 | the value a cell keeps is the last writer's |
| NilearnLoad.NamedPlacement | scripts/visualization/plot_nilearn_connectivity.py:201-203 | a cell written by name `p` and by no later name holds `Ep[p + c*len(Pnames)]` |
| NilearnLoad.UnwrittenCellIsZero | scripts/visualization/plot_nilearn_connectivity.py:194-203 | a cell no name writes stays 0 |
| NilearnLoad.FieldsOfName | scripts/visualization/plot_nilearn_connectivity.py:198 | the fields of `A(r,c)` are `[r, c]` |
| NilearnLoad.WellFormedNameTarget | scripts/visualization/plot_nilearn_connectivity.py:196-203 | `A(i,j)` with `1 <= i, j <= n` writes `[i-1, j-1]` |
| NilearnLoad.ZeroRowWraps | scripts/visualization/plot_nilearn_connectivity.py:199-203 | `A(0,j)` is not rejected: it writes the last row |
| NilearnLoad.SingleIndexRaises | scripts/visualization/plot_nilearn_connectivity.py:198-200 | `A(i)` raises IndexError |
| NilearnLoad.CovariateSlot | scripts/visualization/plot_nilearn_connectivity.py:205-209 | an index past the last covariate falls back to 0 |
| NilearnLoad.CovariateSlotCases | scripts/visualization/plot_nilearn_connectivity.py:205-209 | in range it is kept, past the end it is 0, a negative one counts from the end, too negative is IndexError |
| NilearnLoad.DenseLoadCell | scripts/visualization/plot_nilearn_connectivity.py:177-209 | a dense vector loads without the names, cell `[a,b]` being entry `a + b n + c n^2` after the threshold |
| NilearnLoad.SliceOf | scripts/visualization/plot_nilearn_connectivity.py:188-209 | a fresh matrix equal to the slice of the column-major reshape |
| NilearnLoad.WriteName | scripts/visualization/plot_nilearn_connectivity.py:201-203 | one name's write to every covariate; nothing else changes |
| NilearnLoad.ScatterNames | scripts/visualization/plot_nilearn_connectivity.py:190-203 | the first error, or an array equal to the by-name placement |
| NilearnLoad.ReshapeVector | scripts/visualization/plot_nilearn_connectivity.py:181-203 | fails as `LoadCube` does; otherwise a fresh array equal to its cube |
| NilearnLoad.LoadConnectivity | scripts/visualization/plot_nilearn_connectivity.py:174-214 | IndexError when `Pp` and `Ep` differ in length; otherwise fails as `LoadSpec` does, or returns a fresh matrix equal to its slice, with the names |
| NilearnFilter.AnyRegionIn | scripts/visualization/plot_nilearn_connectivity.py:253-254 | true exactly when some listed region is a substring of the name |
| NilearnFilter.SelectIndices | scripts/visualization/plot_nilearn_connectivity.py:252-262 | the selected indices, increasing, and exactly those that match (all of them for an empty list) |
| NilearnFilter.OutgoingIsIncoming | scripts/visualization/plot_nilearn_connectivity.py:267-277 | 'outgoing' and 'incoming' give the same result |
| NilearnFilter.MaskShape | scripts/visualization/plot_nilearn_connectivity.py:264-290 | no self-connection is kept, and the 'bidirectional' mask is symmetric |
| NilearnFilter.FilteredCells | scripts/visualization/plot_nilearn_connectivity.py:292-295 | every output cell is its input or 0, and a non-zero cell reaches the threshold; a masked-out cell is 0; a kept cell reaching the threshold keeps its value |
| NilearnFilter.UnknownKindKeepsNothing | scripts/visualization/plot_nilearn_connectivity.py:264-292 | an unknown connection type keeps nothing |
| NilearnFilter.NoSelectionKeepsOffDiagonal | scripts/visualization/plot_nilearn_connectivity.py:252-277 | with no region lists, 'outgoing' keeps every connection between distinct regions |
| NilearnFilter.MarkDirected | scripts/visualization/plot_nilearn_connectivity.py:267-277 | `mask[tgt, src]` set for each listed pair with `src != tgt`; nothing else changes |
| NilearnFilter.MarkCross | scripts/visualization/plot_nilearn_connectivity.py:280-290 | row and column `x` set except the diagonal; nothing else changes |
| NilearnFilter.MarkTouching | scripts/visualization/plot_nilearn_connectivity.py:279-290 | every connection touching a listed index is set; nothing else changes |
| NilearnFilter.BuildMask | scripts/visualization/plot_nilearn_connectivity.py:264-290 | a fresh mask equal to the specification's keep predicate |
| NilearnFilter.FilterRow | scripts/visualization/plot_nilearn_connectivity.py:292-295 | one row filtered; other rows unchanged |
| NilearnFilter.FilterConnections | scripts/visualization/plot_nilearn_connectivity.py:216-295 | a fresh matrix equal to `Filtered`; the input is not modified |
| NilearnFilter.FindExact | scripts/visualization/plot_nilearn_connectivity.py:98-99 | the entry whose key is the name, if any |
| NilearnFilter.FindPartial | scripts/visualization/plot_nilearn_connectivity.py:101-108 | the first entry, in map order, whose lower-cased key contains or is contained in the lower-cased name |
| NilearnFilter.ExactLabelWins | scripts/visualization/plot_nilearn_connectivity.py:96-112 | an exact key wins over every partial match |
| NilearnFilter.PartialFallback | scripts/visualization/plot_nilearn_connectivity.py:100-112 | without an exact key: the first partial match, else the origin |
| NilearnFilter.UnknownNameIsOrigin | scripts/visualization/plot_nilearn_connectivity.py:110-112 | a name matching nothing maps to `[0, 0, 0]` |
| NilearnFilter.LookupIgnoresCase | scripts/visualization/plot_nilearn_connectivity.py:104 | names differing only in letter case, without an exact key, get the same coordinate |
| NilearnFilter.GetCoordinates | scripts/visualization/plot_nilearn_connectivity.py:79-117 | one coordinate per name, each as the lookup specifies |
| SvgCombine.UnitSuffix | scripts/analysis/utilities/combine_plots.py:114-127 | a dimension ending in a unit is its number times that unit's factor |
| SvgCombine.NoUnitSuffix | scripts/analysis/utilities/combine_plots.py:129-133 | a dimension with no unit is read whole, and an unreadable one is 0 |
| SvgCombine.ViewBoxSize | scripts/analysis/utilities/combine_plots.py:86-88 | a size is read only from exactly four whitespace-separated fields |
| SvgCombine.DimensionSources | scripts/analysis/utilities/combine_plots.py:72-95 | the size comes from the attributes when both are positive, else from the `viewBox`, else it is an error |
| SvgCombine.MissingAttributesNeedViewBox | scripts/analysis/utilities/combine_plots.py:77-90 | a root with neither attribute needs a `viewBox` |
| SvgCombine.Max | scripts/analysis/utilities/combine_plots.py:180 | the maximum is in the list and bounds every element |
| SvgCombine.XOffsetStep | scripts/analysis/utilities/combine_plots.py:227-247 | each panel starts `spacing` after the previous one ends |
| SvgCombine.LastPanelEnds | scripts/analysis/utilities/combine_plots.py:179-247 | the last panel ends at the total width |
| SvgCombine.YOffsetBounds | scripts/analysis/utilities/combine_plots.py:230-235 | a panel no taller than the tallest lies within the combined height, for every alignment |
| SvgCombine.PlacePanels | scripts/analysis/utilities/combine_plots.py:227-247 | the accumulating loop computes `Placements` |
| SvgCombine.FirstMissing | scripts/analysis/utilities/combine_plots.py:161-163 | the first input that is not a file, and every earlier one is a file |
| SvgCombine.FirstBadSize | scripts/analysis/utilities/combine_plots.py:166-168 | the first size that cannot be read, and every earlier one can |
| SvgCombine.ChecksBeforeReading | scripts/analysis/utilities/combine_plots.py:157-163 | too few inputs or a missing file is an error whatever the files hold, and too few inputs is reported first |
| SvgCombine.CombinedLayout | scripts/analysis/utilities/combine_plots.py:157-247 | one panel per input, side by side `spacing` apart, the last ending at the total width, each within the height |
| SvgCombine.FindMissing | scripts/analysis/utilities/combine_plots.py:161-163 | the loop finds `FirstMissing` |
| SvgCombine.ReadSizes | scripts/analysis/utilities/combine_plots.py:166-176 | the loop stops at the first unreadable size or returns every size |
| SvgCombine.CombineHorizontal | scripts/analysis/utilities/combine_plots.py:135-193 | checks, sizes and layout together compute the combination specification |
| SvgCombine.ContentStart | scripts/analysis/utilities/combine_plots.py:284-288 | the line after the first opening tag, else 0 |
| SvgCombine.ContentEnd | scripts/analysis/utilities/combine_plots.py:290-294 | the last closing-tag line, else the line count |
| SvgCombine.ExtractedLines | scripts/analysis/utilities/combine_plots.py:278-297 | the kept lines, each indented by four spaces and ended by a newline |
| SvgCombine.ExtractFallback | scripts/analysis/utilities/combine_plots.py:278-297 | the index loops and the join compute the extraction specification |
| Fdr.PresentPrefix | scripts/behav_analysis/analyze_scales.py:186-188 | the non-NaN values of a prefix are a prefix of the non-NaN values |
| Fdr.PresentIndex | scripts/behav_analysis/analyze_scales.py:221-222 | where a non-NaN entry sits among the non-NaN values |
| Tensors.Indexed | scripts/behav_analysis/analyze_scales.py:196 | `p[order]`, and the reordered ROI names: position `k` holds entry `idx[k]` |
| Fdr.LastBelow | scripts/behav_analysis/analyze_scales.py:199-203 | the last sorted position at or below its threshold, and none after it |
| Fdr.SuffixMin | scripts/behav_analysis/analyze_scales.py:215-217 | the minimum of a suffix: a member of it that bounds it |
| Fdr.Unsort | scripts/behav_analysis/analyze_scales.py:207-219 | the scatter loop computes `Unsorted` |
| Fdr.ReversedCumulativeMin | scripts/behav_analysis/analyze_scales.py:215-217 | the backward loop computes `SuffixMins` |
| Fdr.MaskAssign | scripts/behav_analysis/analyze_scales.py:221-222 | the loop computes `Masked` |
| Fdr.RejectFlags | scripts/behav_analysis/analyze_scales.py:195-208 | the loop computes `Rejected` |
| Fdr.AdjustedValues | scripts/behav_analysis/analyze_scales.py:211-219 | the loops compute `Adjusted` |
| Fdr.BhCorrection | scripts/behav_analysis/analyze_scales.py:180-224 | the significance of every cell and the adjusted p-values, as the specification functions give them |
| Fdr.PresentEmpty | scripts/behav_analysis/analyze_scales.py:189-190 | no p-value is left exactly when every entry is NaN |
| Fdr.NothingToTest | scripts/behav_analysis/analyze_scales.py:190-192 | with no p-value left, nothing is significant and nothing is adjusted |
| Fdr.RejectedAreSmallest | scripts/behav_analysis/analyze_scales.py:203-208 | sorted position `k` is rejected exactly when `k <= max_k` |
| Fdr.ThresholdGrows | scripts/behav_analysis/analyze_scales.py:198 | with non-negative `alpha` the thresholds grow along the sorted order |
| Fdr.RejectedIff | scripts/behav_analysis/analyze_scales.py:195-208 | `p[i]` is rejected exactly when it is at most the cut-off p-value |
| Fdr.IndexedMultiset | scripts/behav_analysis/analyze_scales.py:196 | `p[order]`, for an order that lists every position once, is a permutation of `p` |
| Fdr.SortedUnique | scripts/behav_analysis/analyze_scales.py:196 | any two argsorts of `p` give the same sorted p-values |
| Fdr.RejectedTieFree | scripts/behav_analysis/analyze_scales.py:195-208 | two argsorts that break ties differently give the same cut-off and reject the same p-values |
| Fdr.SignificantTieFree | scripts/behav_analysis/analyze_scales.py:186-223 | two argsorts that break ties differently mark the same cells significant |
| Fdr.RejectionMonotone | scripts/behav_analysis/analyze_scales.py:195-208 | every p-value no larger than a rejected one is rejected |
| Fdr.AdjustedIsSuffixMinimum | scripts/behav_analysis/analyze_scales.py:211-219 | the adjusted value at sorted position `k` is `min over l >= k of m/(l+1) p_(l)`, and the adjusted values do not decrease |
| Fdr.ScaledBelow | scripts/behav_analysis/analyze_scales.py:198-213 | `m/(k+1) p_(k) <= alpha` says the same as `p_(k) <= (k+1)/m alpha` |
| Fdr.AdjustedAgreesWithRejection | scripts/behav_analysis/analyze_scales.py:195-219 | `p[i]` is rejected exactly when its adjusted value is at most `alpha` |
| Fdr.SignificantIff | scripts/behav_analysis/analyze_scales.py:186-223 | a cell is significant exactly when its p-value is not NaN and at most the cut-off |
| Fdr.PairStat | scripts/behav_analysis/analyze_scales.py:124-129 | Pearson or Spearman on the two columns, or nothing for another method |
| Fdr.CorrelationsShape | scripts/behav_analysis/analyze_scales.py:116-137 | symmetric matrices, 1.0 and 0.0 on the diagonals, each pair's statistic off them; an unknown method fails exactly when there is a pair |
| Fdr.FillPairs | scripts/behav_analysis/analyze_scales.py:121-133 | row `i`'s pairs written on both sides of the diagonal; nothing else changes |
| Fdr.PairwiseCorrelations | scripts/behav_analysis/analyze_scales.py:109-137 | fails exactly when the specification does, else fresh matrices equal to it |
| Fdr.FillDiagonals | scripts/behav_analysis/analyze_scales.py:135-136 | diagonals set to 1.0 and 0.0; everything else unchanged |
| Pipeline.StagesDistinct | scripts/analysis/00_run_full_pipeline.py:33-76 | no two stages are equal, so `index(stage) + 1` is the stage's number |
| Pipeline.SliceBound | scripts/analysis/00_run_full_pipeline.py:122 | Python's normalisation of a slice bound: negative counts from the end, clamped to `[0, len]` |
| Pipeline.CategoryPick | scripts/analysis/00_run_full_pipeline.py:117-119 | increasing stage numbers, none above `n` |
| Pipeline.CategoryPickMembers | scripts/analysis/00_run_full_pipeline.py:117-119 | the stages kept are exactly those numbered in `[start, end]` of the category |
| Pipeline.SelectionModes | scripts/analysis/00_run_full_pipeline.py:108-123 | paper mode is `[2, 3, 4]` whatever else is given; a category keeps its stages in the range; otherwise the slice |
| Pipeline.CategoryDefaults | scripts/analysis/00_run_full_pipeline.py:108-119 | with the default range `nilearn` selects stages 1-2 and `peb` 3-4 |
| Pipeline.ZeroStartWraps | scripts/analysis/00_run_full_pipeline.py:122 | with no category a start of 0 becomes the slice `[-1:end]`, selecting stage 4 alone; with a category it keeps every stage up to `end` |
| Pipeline.StageJobs | scripts/analysis/00_run_full_pipeline.py:33-76 | the stage's scripts, in order, each tagged with the stage number |
| Pipeline.Command | scripts/analysis/00_run_full_pipeline.py:159-161 | the interpreter, the script path and `--paper` exactly in paper mode |
| Pipeline.FailureOf | scripts/analysis/00_run_full_pipeline.py:144-185 | a missing script is recorded as not found, otherwise by its exit code |
| Pipeline.Step | scripts/analysis/00_run_full_pipeline.py:143-187 | an aborted run is unchanged; a succeeding script changes nothing; a failing one is appended to the failures; a missing script never aborts |
| Pipeline.AbortedStays | scripts/analysis/00_run_full_pipeline.py:182-185 | once aborted, no further script runs |
| Pipeline.AbortRecorded | scripts/analysis/00_run_full_pipeline.py:171-185 | an abort always follows a recorded failure |
| Pipeline.SucceedsIff | scripts/analysis/00_run_full_pipeline.py:133-208 | the run succeeds exactly when no selected script fails |
| Pipeline.FailuresRecorded | scripts/analysis/00_run_full_pipeline.py:133-187 | a run that does not abort records exactly the failing scripts, in order |
| Pipeline.RunJob | scripts/analysis/00_run_full_pipeline.py:144-187 | one script's run is `Step` |
| Pipeline.RunFromConcat | scripts/analysis/00_run_full_pipeline.py:133-187 | running `a` then `b` is running `a + b` |
| Pipeline.RunStage | scripts/analysis/00_run_full_pipeline.py:133-187 | the scripts of one stage, in order, stopping at an abort |
| Pipeline.JobsStep | scripts/analysis/00_run_full_pipeline.py:133-144 | the jobs from position `i` are stage `nums[i]`'s, then the rest |
| Pipeline.RunStages | scripts/analysis/00_run_full_pipeline.py:133-187 | the loop over the stages computes the run of all their scripts |
| Pipeline.RunPipeline | scripts/analysis/00_run_full_pipeline.py:79-208 | `True` at once for an empty selection; otherwise the run's state, and `True` exactly when nothing failed |
| NetworkConnections.Arrow | scripts/analysis/utilities/generate_dcm_network_figure.py:86-101 | every arrow has colour `#333333`, width 3.0 and curve 0.25 |
| NetworkConnections.RowIndex | scripts/analysis/utilities/generate_dcm_network_figure.py:84-101 | row `i` is `i -> i+1, i+1 -> i, i -> i+2, ...` |
| NetworkConnections.RowMembers | scripts/analysis/utilities/generate_dcm_network_figure.py:84-101 | every arrow of row `i` joins `i` to a larger region |
| NetworkConnections.RowDistinct | scripts/analysis/utilities/generate_dcm_network_figure.py:84-101 | no arrow repeats within a row |
| NetworkConnections.RowContains | scripts/analysis/utilities/generate_dcm_network_figure.py:84-101 | row `i` holds `i -> i+1+m` and its mirror |
| NetworkConnections.PairsInClosed | scripts/analysis/utilities/generate_dcm_network_figure.py:83-101 | rows `0..i-1` hold `i(2n-i-1)/2` pairs |
| NetworkConnections.RowsLength | scripts/analysis/utilities/generate_dcm_network_figure.py:83-101 | rows `0..i-1` hold that many pairs |
| NetworkConnections.RowsMembers | scripts/analysis/utilities/generate_dcm_network_figure.py:83-101 | every arrow joins two distinct regions, the smaller below `i` |
| NetworkConnections.RowsDistinct | scripts/analysis/utilities/generate_dcm_network_figure.py:83-101 | no arrow appears twice |
| NetworkConnections.RowsPaired | scripts/analysis/utilities/generate_dcm_network_figure.py:83-101 | the arrows come in mirrored pairs whose first arrows run in lexicographic order |
| NetworkConnections.RowsComplete | scripts/analysis/utilities/generate_dcm_network_figure.py:83-101 | every arrow between distinct regions with the smaller below `i` is present |
| NetworkConnections.GenerateAllConnections | scripts/analysis/utilities/generate_dcm_network_figure.py:70-103 | the nested loops produce exactly `Connections(n)` |
| NetworkConnections.ConnectionsCorrect | scripts/analysis/utilities/generate_dcm_network_figure.py:70-103 | `n(n-1)` arrows, no self loop, every ordered pair of distinct regions exactly once, in mirrored pairs |
| NetworkConnections.TwentyConnections | scripts/analysis/utilities/generate_dcm_network_figure.py:36-42 | the five regions give 20 directed connections in 10 mirrored pairs |
| PaperFigures.PathJoin | scripts/analysis/08_generate_paper_figures.py:30-48 | an absolute second part is the result; otherwise the result starts with the first part and ends with the second |
| PaperFigures.Effective | scripts/analysis/08_generate_paper_figures.py:73-97 | the visualization's value, else the defaults' value, else the fallback |
| PaperFigures.Extend | scripts/analysis/08_generate_paper_figures.py:54-108 | one option appended, as `append` and `extend` do |
| PaperFigures.ExtendIfGiven | scripts/analysis/08_generate_paper_figures.py:59-66 | a list option appended exactly when given |
| PaperFigures.ExtendIfText | scripts/analysis/08_generate_paper_figures.py:69-102 | a text option appended exactly when given |
| PaperFigures.ExtendRegions | scripts/analysis/08_generate_paper_figures.py:58-70 | the region options appended |
| PaperFigures.ExtendStyle | scripts/analysis/08_generate_paper_figures.py:72-90 | the style options appended |
| PaperFigures.ExtendText | scripts/analysis/08_generate_paper_figures.py:92-102 | the text options appended |
| PaperFigures.BuildVisualizationCommand | scripts/analysis/08_generate_paper_figures.py:36-110 | the appends build the launcher followed by the flattened options |
| PaperFigures.ParseFlatten | scripts/analysis/08_generate_paper_figures.py:36-110 | parsing the command line gives back each flag with its values |
| PaperFigures.InOptions | scripts/analysis/08_generate_paper_figures.py:36-110 | each flag is found in the part it belongs to |
| PaperFigures.RequiredAndRegions | scripts/analysis/08_generate_paper_figures.py:47-70 | the MAT file under the data directory, the name, the output under the output directory; region options as given |
| PaperFigures.RegionLookups | scripts/analysis/08_generate_paper_figures.py:58-70 | each region option is there exactly when its value is given |
| PaperFigures.ThresholdDefaults | scripts/analysis/08_generate_paper_figures.py:72-98 | each threshold, the node size and the label come from the visualization, else the defaults, else 0.99, 0.0, '90%', 50 and 'Connection Strength (Ep)' |
| PaperFigures.StyleLookups | scripts/analysis/08_generate_paper_figures.py:72-86 | the thresholds and the node size are found with their effective values |
| PaperFigures.LabelLookup | scripts/analysis/08_generate_paper_figures.py:96-97 | the colour-bar label is always there |
| PaperFigures.ColorbarExclusive | scripts/analysis/08_generate_paper_figures.py:104-108 | exactly one of `--colorbar`/`--no-colorbar`, the first when the effective flag holds |
| PaperFigures.MissingFields | scripts/analysis/08_generate_paper_figures.py:117-121 | one error per missing required field, in order |
| PaperFigures.ValidateHypothesis | scripts/analysis/08_generate_paper_figures.py:113-133 | the appends build the validation specification |
| PaperFigures.ValidationMeaning | scripts/analysis/08_generate_paper_figures.py:113-133 | KeyError exactly when `mat_file` is missing; otherwise one error per missing required field, one for a missing MAT file, one for a missing output; no error exactly when all is present, and then the command builds |
| PaperFigures.GenerateFigure | scripts/analysis/08_generate_paper_figures.py:136-199 | a result needs `id` and `name`; `True` needs a valid hypothesis and, outside a dry run, the output file |
| PaperFigures.Assign | scripts/analysis/08_generate_paper_figures.py:373 | a present key keeps its place and takes the value; a new key goes last |
| PaperFigures.SummaryPartition | scripts/analysis/08_generate_paper_figures.py:246-251 | the successful and failed counts add to the total, and each id is in the list of its outcome |
| PaperFigures.ChosenKeeps | scripts/analysis/08_generate_paper_figures.py:343-350 | a filter fails exactly when some hypothesis has no `id`; otherwise it keeps exactly the hypotheses whose id is requested |
| PaperFigures.GenerateAll | scripts/analysis/08_generate_paper_figures.py:370-373 | the loop computes the recorded results, stopping at the first KeyError |
| PaperFigures.ResultsStops | scripts/analysis/08_generate_paper_figures.py:370-373 | once a hypothesis raises, the error is the outcome of the whole run |
| PaperFigures.ExitCodeMeaning | scripts/analysis/08_generate_paper_figures.py:389-395 | the count `main` warns about is the summary's failed count, so the exit code is 1 exactly when the summary lists a failure |
| PaperFigures.Chosen | scripts/analysis/08_generate_paper_figures.py:343-350 | every hypothesis without a filter; with one, only configured hypotheses, and success means every hypothesis has an `id` |
| PaperFigures.Listed | scripts/analysis/08_generate_paper_figures.py:352-354 | no KeyError exactly when every chosen hypothesis has an `id` and a `name`; otherwise the KeyError for one of them |
| PaperFigures.Results | scripts/analysis/08_generate_paper_figures.py:370-373 | a completed run read every hypothesis's `id` and `name`, and its keys are exactly the hypotheses' ids |
| PaperFigures.FailedCount | scripts/analysis/08_generate_paper_figures.py:389 | at most the number of results, and 0 exactly when every result is true |
| PaperFigures.ExitCode | scripts/analysis/08_generate_paper_figures.py:389-395 | 1 exactly when some result is false, 0 exactly when all are true |
| PaperFigures.FirstWithId | scripts/analysis/08_generate_paper_figures.py:257 | a found hypothesis is a configured one with that id; the only error is KeyError('id') |
| PaperFigures.FirstWithIdMeaning | scripts/analysis/08_generate_paper_figures.py:257 | KeyError('id') exactly when a hypothesis without an id comes before any match; otherwise the first hypothesis with the id, or None when no hypothesis has it |
| PaperFigures.FirstWithIdRaises | scripts/analysis/08_generate_paper_figures.py:257 | KeyError('id') exactly when a hypothesis without an id comes before any match |
| PaperFigures.FirstWithIdFound | scripts/analysis/08_generate_paper_figures.py:257 | a found hypothesis is the first one with the id |
| PaperFigures.FirstWithIdNone | scripts/analysis/08_generate_paper_figures.py:257 | None exactly when every hypothesis has an id and none matches |
| PaperFigures.FirstLookupError | scripts/analysis/08_generate_paper_figures.py:257-269 | no error exactly when every id's lookup succeeds; an error is the lookup error of one of the ids |
| PaperFigures.SummaryErrorIff | scripts/analysis/08_generate_paper_figures.py:236-269 | the summary report raises exactly when some recorded id's first hypothesis lacks `visualization` or `output`, and the error is that id's |
| PaperFigures.MainResult | scripts/analysis/08_generate_paper_figures.py:341-395 | an exit code means every chosen hypothesis ran, the report found every output, and the code is 1 exactly when some result is false |
| PaperFigures.MissingVisualizationRaises | scripts/analysis/08_generate_paper_figures.py:256-268 | a valid-looking hypothesis without `visualization` is recorded as False and the report then raises KeyError('visualization') instead of the exit code |
| Text.NatToStringRoundTrip | scripts/analysis/08_generate_paper_figures.py:84 | the digits of `str(n)` read back as `n` |
| Text.ParseIntOfNat | plot_PEB_results.py:251-252 | `int(str(n)) == n` |
| Text.LowerStr | scripts/analysis/utilities/combine_plots.py:114 | the same length, with ASCII upper-case letters lowered |
| Text.Split | scripts/visualization/plot_nilearn_connectivity.py:198 | at least one part, and no part contains the separator |
| Text.SplitJoinRoundTrip | scripts/analysis/utilities/combine_plots.py:280-296 | joining the parts of a split gives back the string |
| Text.JoinSplitRoundTrip | scripts/analysis/utilities/combine_plots.py:280-296 | splitting a join of separator-free parts gives back the parts |
| Text.SplitWhitespace | scripts/analysis/utilities/combine_plots.py:88 | every word is non-empty |
| Text.SplitWhitespaceWords | scripts/analysis/utilities/combine_plots.py:88 | every word is non-empty and holds no whitespace |
| Text.JoinSplitWhitespace | scripts/analysis/utilities/combine_plots.py:88 | splitting non-empty, whitespace-free words joined by single spaces gives the words back |
| Text.ReplaceJoin | scripts/analysis/utilities/combine_plots.py:296-297 | replacing the separator of a join re-joins the same parts with the replacement |

## Left out

- Reading `.mat` files, YAML configuration, SVG and XML parsing, and every
  write to disk are not modelled. The model starts from the values these
  produce: posterior vectors, names, attribute strings, configuration records.
  The same goes for `os.makedirs` and printing.
- Plotting is not modelled: matplotlib, nilearn's glass-brain and connectome
  drawing, colour maps, asterisk annotations, arrow geometry.
- `ROI names from GCM`, `matstruct_to_dict`, `save_all_svgs`, `run_peb_plot`,
  `plot_glass_brain`, `plot_connectome`, `draw_arrows`, `plot_dcm_network`,
  interactive file selection and every `main` except the one of
  `08_generate_paper_figures.py` are outside the core. So are the
  other behavioural-analysis functions (`load_and_prepare`, plots,
  `predictive_association`).
- Floating point is modelled as exact `real` arithmetic: NaN, infinities and
  rounding are absent.
  - A NaN p-value is `None`.
  - `exp` is an uninterpreted parameter.
  - Pearson and Spearman are parameters (`PairStat`).
  - `float(str)` is a parameter.
- `np.argsort` is a parameter: any ordering that sorts the non-NaN p-values.
  The rejection flags are proved not to depend on how ties are broken
  (`Fdr.RejectedTieFree`, `Fdr.SignificantTieFree`).
- `int()` is modelled for ASCII digits with optional sign and surrounding
  whitespace. Underscores and non-ASCII digits are not accepted.
- `.lower()` is modelled on ASCII letters only.
- PebNames.DigitEnd: the `\d+` groups of the parameter-name pattern accept
  ASCII digits only. Python's `\d` also matches other Unicode decimal digits,
  which DCM's generated names never contain.
- File existence, subprocess exit codes and the user's answers at the prompt
  are parameters. Timing and durations are left out.
- PebReshape.ReshapePosteriorSimple requires `len(Pp) == len(Ep)`, so it
  describes neither way the two can differ.
  - A longer `Pp` is accepted silently: every read of `Pp` is bounded by
    offsets computed from `len(Ep)` (plot_PEB_results.py:326, 381, 403, 411).
  - A shorter `Pp` raises a ValueError from `.reshape` on the dense path
    (plot_PEB_results.py:326). It raises an IndexError on the by-name and
    fallback paths (plot_PEB_results.py:381, 411).
- PebHeatmap.PlotHeatmapsNumeric and PebHeatmap.HeatmapErrors inherit that
  requirement from the reshape they call, so they describe neither case
  either. The threshold comparison (plot_PEB_results.py:471) is on the two
  reshaped tensors, which have the same shape.
- The AAL coordinate table is a parameter of `GetCoordinates`, given as a
  sequence of entries in the dictionary's insertion order. The literal
  table is not reproduced.
- PaperFigures flags are an enumeration standing for the literal option
  strings. `str()` of YAML values other than the defaults is a parameter,
  and YAML `null` is not modelled.
- `--summary-only` is not modelled, and neither are `generate_latex_includes`,
  `print_pipeline_overview`, `--overview`/`--quiet` and argument parsing.
- PaperFigures.GenerateFigure: `hypothesis['id']` and `hypothesis['name']`
  are read at lines 139-140, before validation. `main` reads `hyp['id']` at
  line 354. So a hypothesis lacking `id` or `name` raises KeyError rather
  than being reported as "Missing required field". The model keeps that
  order: the "missing field" errors for `id` and `name` can only be seen
  through `ValidateHypothesis` directly.
- The magnitude and sign masks of a 'change' model are computed before the
  ROI reorder and are not reordered, as in `plot_PEB_results.py:509-541`.

