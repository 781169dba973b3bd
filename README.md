# DCL_BlueBall core, modelled in Dafny

DCL_BlueBall is a set of DisCODe components that look for a blue ball in a camera
image. This project models the per-frame logic of four of them:

- **LUT** thresholds an HSV image into a binary segments image.
  It labels a pixel 255 when its hue is in a band, its saturation reaches a threshold and its value reaches a threshold.
  Every other pixel gets 0.
  `Lut.dfy` models this as a class holding the thresholds and the two output buffers.
  It has a nested row/pixel loop, proved against the specification function `Segmentation`.
- **FeatureExtraction** turns the largest blob's raw moments and fitted box into two outputs:
  - a feature vector `[_a, _b, convexity, area]`;
  - an image position `[x, y, diameter, wsp_elips]`.

  The files are `BlobGeometry.dfy` (shared geometry) and `FeatureExtraction.dfy`.
- **MS_Blueball_Decide** computes the same image position (`BlueballDecide.dfy`).
- **HypothesesEvaluation** keeps a history of flatness and area features and turns the latest of them into two evidence values.
  It writes those into the input nodes `ellipse` and `area` of a Bayesian network, and emits the posteriors P(flat = YES) and P(nonflat = YES).
  - `Evidence.dfy` holds the evidence curves.
  - `BeliefNetwork.dfy` holds the network as an abstract state: a node map with definitions and hard evidence.
    Inference is a function value.
  - `HypothesesEvaluation.dfy` holds the component as a class whose methods update its history, its evidence array and its network.

Doubles are `real`s. The C library `sqrt` is a parameter `sqrt`, and `RealMath.IsSqrt` states what is known about it: non-negative, and a square root of every non-negative number.

The source never checks its inputs. Where its double arithmetic would produce a NaN or an infinity, the model returns `Failure` with a `Fault` naming the cause:
- a zero blob mass;
- a negative radicand;
- a zero major axis;
- an empty image;
- an empty box.

Where the documented design and the code differ, the model follows the code:
- `updateNetwork` gives the ellipse node its soft prior `[p, 1-p]` in every case.
  When `p > 0.9` it also clamps the node with hard evidence, so the two are not alternatives.
- The flatness evidence is not clamped above 1: a flatness of 1.2 gives evidence 2.
- The moments are used without checking `m00`.
- `wsp_elips` is computed with the code's inner radicand `M11² + (M20−M02)²`, not the covariance-eigenvalue form the design describes. `BlobGeometry.ImagePosition` and both components' steps use the code's formula. The corrected computation is kept separately as `BlobGeometry.CorrectedImagePosition` (see "## Findings").

## Model

| member | source | states |
|---|---|---|
| BlobGeometry.CentralMoments | src/Components/FeatureExtraction/FeatureExtraction.cpp:123-125 | each central moment vanishes exactly when the raw moments meet the Cauchy-Schwarz equality: m10² = m20·m00 for M20, m01² = m02·m00 for M02, m10·m01 = m11·m00 for M11 |
| BlobGeometry.CentralMomentsTranslationInvariant | src/Components/FeatureExtraction/FeatureExtraction.cpp:123-125 | the central moments M11, M02, M20 (defined for m00 ≠ 0) are the same for a blob moved anywhere in the image |
| BlobGeometry.M7 | src/Components/MS_Blueball_Decide/MS_Blueball_Decide.cpp:126 | M7 is zero exactly when the covariance determinant M20·M02 − M11² is zero, and positive exactly when it is positive (m00⁴ > 0 for m00 ≠ 0) |
| BlobGeometry.M7TranslationInvariant | src/Components/MS_Blueball_Decide/MS_Blueball_Decide.cpp:126 | M7 = (M20·M02 − M11²)/m00⁴ does not change when the blob moves |
| BlobGeometry.WrittenDiscriminant | src/Components/FeatureExtraction/FeatureExtraction.cpp:129-130 | the inner radicand as written, M11² + (M20−M02)², is non-negative, and zero exactly for a round blob (M11 = 0 and M20 = M02) |
| BlobGeometry.EigenDiscriminant | src/Components/MS_Blueball_Decide/MS_Blueball_Decide.cpp:128-129 | the corrected inner radicand is non-negative, zero exactly for a round blob, and equals trace² − 4·det of the covariance matrix |
| BlobGeometry.AxesFrom | src/Components/MS_Blueball_Decide/MS_Blueball_Decide.cpp:128-129 | `a = sqrt(2(M20+M02+√d))` and `b = sqrt(2(M20+M02−√d))` satisfy 0 ≤ b ≤ a whenever b's radicand is ≥ 0, square to their radicands, and are equal exactly when d = 0 |
| BlobGeometry.AxesAsWritten | src/Components/FeatureExtraction/FeatureExtraction.cpp:129-130 | the source's `a` and `b` satisfy 0 ≤ b ≤ a, and a = b exactly for a round blob |
| BlobGeometry.EigenAxes | src/Components/MS_Blueball_Decide/MS_Blueball_Decide.cpp:128-129 | the corrected axes satisfy 0 ≤ b ≤ a, equal exactly for a round blob, with a²+b² = 4·trace and a²·b² = 16·det |
| BlobGeometry.LevelSegmentWrittenAxes | src/Components/FeatureExtraction/FeatureExtraction.cpp:129-130 | a horizontal line segment (M20 = 2, M02 = M11 = 0) gets minor axis b = 0 from the source's formula |
| BlobGeometry.TurnedSegmentWrittenAxes | src/Components/FeatureExtraction/FeatureExtraction.cpp:129-130 | the same segment turned 45° (M20 = M02 = M11 = 1) gets b = √2 > 0 from the source's formula |
| BlobGeometry.TurnedSegmentEigenAxes | src/Components/MS_Blueball_Decide/MS_Blueball_Decide.cpp:128-129 | the corrected formula gives the turned segment b = 0 |
| BlobGeometry.WrittenAxesDependOnRotation | src/Components/MS_Blueball_Decide/MS_Blueball_Decide.cpp:128-129 | the source's minor axis changes when a segment is rotated; the corrected one does not |
| BlobGeometry.EigenAxesOfRoundBlob | src/Components/MS_Blueball_Decide/MS_Blueball_Decide.cpp:128-130 | a blob with M11 = 0 and M20 = M02 ≥ 0 has a = b |
| BlobGeometry.Elongation | src/Components/MS_Blueball_Decide/MS_Blueball_Decide.cpp:130 | `wsp_elips = b/a` is in [0, 1] for 0 ≤ b ≤ a and a > 0, and equals 1 exactly when a = b |
| BlobGeometry.MaxPixels | src/Components/FeatureExtraction/FeatureExtraction.cpp:143 | `maxPixels` is the larger of the image's width and height |
| BlobGeometry.HalfOf | src/Components/FeatureExtraction/FeatureExtraction.cpp:166-167 | `width / 2` on an int truncates toward zero |
| BlobGeometry.Offset | src/Components/FeatureExtraction/FeatureExtraction.cpp:166-167 | a position coordinate is 0 exactly when the centre is at the int-halved image extent, and positive exactly when it lies beyond it |
| BlobGeometry.OffsetWithinUnit | src/Components/FeatureExtraction/FeatureExtraction.cpp:165-167 | a centre inside the image maps to a coordinate in [−1, 1] |
| BlobGeometry.Diameter | src/Components/FeatureExtraction/FeatureExtraction.cpp:143-144 | `diameter` ≤ 1 iff the box's longer side is at most the image's larger side |
| BlobGeometry.PositionFromAxes | src/Components/FeatureExtraction/FeatureExtraction.cpp:166-171 | from known axes, the position is `[x, y, diameter, b/a]` exactly when the major axis and the image are non-empty, and fails with ZeroMajorAxis or EmptyImage otherwise |
| BlobGeometry.ImagePosition | src/Components/MS_Blueball_Decide/MS_Blueball_Decide.cpp:122-154 | the source's position `[x offset, y offset, diameter, wsp_elips]`, with `wsp_elips` = b/a of the source's axes, in [0, 1]; each fault occurs exactly when its condition holds (m00 = 0; negative minor radicand; a = 0; empty image), and it succeeds otherwise |
| BlobGeometry.CorrectedImagePosition | src/Components/MS_Blueball_Decide/MS_Blueball_Decide.cpp:128-154 | the same position with `wsp_elips` from the eigen-axes, with the same exact fault conditions |
| BlobGeometry.PositionsAgreeWithoutCorrelation | src/Components/MS_Blueball_Decide/MS_Blueball_Decide.cpp:128-130 | when M11 = 0 the source's and the corrected positions are equal, so the two formulas differ only for tilted blobs |
| BlobGeometry.RealisableRadicands | src/Components/MS_Blueball_Decide/MS_Blueball_Decide.cpp:128-129 | for central moments of a real blob (M20, M02 ≥ 0 and M11² ≤ M20·M02) neither formula's minor radicand is negative |
| BlobGeometry.RealisableBlobHasAxes | src/Components/MS_Blueball_Decide/MS_Blueball_Decide.cpp:128-130 | a blob with realisable central moments never gets NegativeRadicand from either position |
| BlobGeometry.CentredBoxAtOrigin | src/Components/FeatureExtraction/FeatureExtraction.cpp:166-167 | a box centred at (width div 2, height div 2) has position (0, 0) |
| BlobGeometry.ElongationOneExactlyWhenRound | src/Components/FeatureExtraction/FeatureExtraction.cpp:129-131 | on a written position, `wsp_elips` = 1 (a perfect circle) exactly when the blob is round (M11 = 0 and M20 = M02), for the source's axes and for the corrected ones |
| FeatureExtraction.SemiMajor | src/Components/FeatureExtraction/FeatureExtraction.cpp:145 | `_a` is half the longer side: twice it is at least both sides and equals one of them |
| FeatureExtraction.SemiMinor | src/Components/FeatureExtraction/FeatureExtraction.cpp:146 | `_b` is half the shorter side: twice it is at most both sides and equals one of them |
| FeatureExtraction.SemiAxesProduct | src/Components/FeatureExtraction/FeatureExtraction.cpp:145-146 | `_a·_b` is a quarter of width·height, whichever side is longer |
| FeatureExtraction.SemiAxesOrdered | src/Components/FeatureExtraction/FeatureExtraction.cpp:145-146 | `_a ≥ _b`, and both are unchanged when width and height are swapped |
| FeatureExtraction.Convexity | src/Components/FeatureExtraction/FeatureExtraction.cpp:147 | convexity times `_a` gives back `_b` |
| FeatureExtraction.ConvexityRange | src/Components/FeatureExtraction/FeatureExtraction.cpp:147 | for positive sides `convexity` is in (0, 1], and is 1 exactly for a square box |
| FeatureExtraction.Area | src/Components/FeatureExtraction/FeatureExtraction.cpp:148 | `area = π·4·_a·_b` equals π·width·height |
| FeatureExtraction.AreaOfBox | src/Components/FeatureExtraction/FeatureExtraction.cpp:148 | `area = π·4·_a·_b` is non-negative, swap-invariant and equals π·width·height |
| FeatureExtraction.Features | src/Components/FeatureExtraction/FeatureExtraction.cpp:141-153 | the feature vector has exactly 4 entries `[_a, _b, convexity, area]`; it fails, with EmptyBox, exactly when `_a` (half the longer side) is 0 |
| FeatureExtraction.Step | src/Components/FeatureExtraction/FeatureExtraction.cpp:141-177 | one step writes the features, which succeed exactly when `_a` ≠ 0 and then hold convexity at index 2 and area at index 3, and the source's image position |
| FeatureExtraction.StepFeedsEvaluator | src/Components/FeatureExtraction/FeatureExtraction.cpp:150-154 | for a box with positive sides, entry 2 (read as flatness) is in (0, 1] and entry 3 (read as area) is ≥ 0 |
| BlueballDecide.EllipseArea | src/Components/MS_Blueball_Decide/MS_Blueball_Decide.cpp:144 | `area = π·a·b` is non-negative and is 0 for a zero minor axis |
| BlueballDecide.AreaOfWrittenAxes | src/Components/MS_Blueball_Decide/MS_Blueball_Decide.cpp:128-129 | the area π·a·b from the source's axes satisfies area² = 4π²·(4·M20·M02 − M11²) |
| BlueballDecide.Step | src/Components/MS_Blueball_Decide/MS_Blueball_Decide.cpp:122-154 | the only output, `imagePosition`, is written exactly when the source's axes exist with a ≠ 0 and the image is not empty; it then has 4 entries, the last being `wsp_elips` = b/a in [0, 1]; otherwise it fails with one of the position faults, with ZeroMass exactly when m00 = 0 |
| BlueballDecide.SamePositionAsFeatureExtraction | src/Components/MS_Blueball_Decide/MS_Blueball_Decide.cpp:141-154 | both components write the same image position for the same blob and image |
| Evidence.FlatnessEvidence | src/Components/HypothesesEvaluation/HypothesesEvaluation.cpp:217-221 | the evidence is 0 for flatness ≤ 0.8, in (0, 1] for flatness in (0.8, 1], and 1 at flatness 1 |
| Evidence.FlatnessEvidenceMonotone | src/Components/HypothesesEvaluation/HypothesesEvaluation.cpp:217-221 | flatness evidence is non-decreasing in the flatness |
| Evidence.FlatnessEvidenceUnclamped | src/Components/HypothesesEvaluation/HypothesesEvaluation.cpp:220 | nothing clamps the evidence: a flatness of 1.2 gives evidence 2 |
| Evidence.AreaEvidence | src/Components/HypothesesEvaluation/HypothesesEvaluation.cpp:228-232 | the evidence is 0 for a ratio < 0.4, in [0, 1] for a ratio in [0.4, 1], and 1 exactly at ratio 1 |
| Evidence.AreaEvidenceMonotone | src/Components/HypothesesEvaluation/HypothesesEvaluation.cpp:228-232 | area evidence is non-decreasing in the ratio |
| Evidence.MaxOf | src/Components/HypothesesEvaluation/HypothesesEvaluation.cpp:225 | `*max_element` is an element of the history and no element exceeds it |
| Evidence.AreaRatio | src/Components/HypothesesEvaluation/HypothesesEvaluation.cpp:222-227 | the ratio is 1 for a single sample; otherwise the ratio times the maximum area gives back the current area |
| Evidence.SingleSampleFullEvidence | src/Components/HypothesesEvaluation/HypothesesEvaluation.cpp:222-232 | with one area sample the ratio is 1 and the area evidence is 1 |
| Evidence.AreaRatioWithinUnit | src/Components/HypothesesEvaluation/HypothesesEvaluation.cpp:224-232 | with two or more samples, a positive maximum and a non-negative current area, the ratio is in [0, 1]; the evidence is 1 iff the current area is the maximum |
| Evidence.AreaHistoryExample | src/Components/HypothesesEvaluation/HypothesesEvaluation.cpp:222-232 | areas [10, 20, 15] give maximum 20, ratio 0.75 and evidence 0.35/0.6 |
| BeliefNetwork.UpdateBeliefs | src/Components/HypothesesEvaluation/HypothesesEvaluation.cpp:272 | propagation changes no node state |
| BeliefNetwork.ClearEvidence | src/Components/HypothesesEvaluation/HypothesesEvaluation.cpp:251-252 | only the named node changes, and it loses its hard evidence |
| BeliefNetwork.SetDefinition | src/Components/HypothesesEvaluation/HypothesesEvaluation.cpp:254-263 | only the named node's definition changes, to the given probabilities |
| BeliefNetwork.SetEvidence | src/Components/HypothesesEvaluation/HypothesesEvaluation.cpp:267-269 | only the named node changes, and it is clamped to the given outcome |
| BeliefNetwork.Evaluated | src/Components/HypothesesEvaluation/HypothesesEvaluation.cpp:251-269 | after the update, ellipse has definition [p, 1−p] and hard evidence on outcome 0 iff p > 0.9; area has [q, 1−q] and no evidence; no other node and no key changes |
| BeliefNetwork.StepsReachEvaluated | src/Components/HypothesesEvaluation/HypothesesEvaluation.cpp:251-269 | the source's sequence of clear, define and clamp calls yields exactly `Evaluated` |
| BeliefNetwork.EvaluatedPriorsAreDistributions | src/Components/HypothesesEvaluation/HypothesesEvaluation.cpp:257-263 | for evidence in [0, 1], both written priors are two-outcome distributions |
| BeliefNetwork.FindPosition | src/Components/HypothesesEvaluation/HypothesesEvaluation.cpp:276-280 | the position is −1 iff the outcome name is absent, otherwise the first index holding it |
| BeliefNetwork.OutcomeProbability | src/Components/HypothesesEvaluation/HypothesesEvaluation.cpp:282-288 | the value read is the posterior at the first index whose outcome name is the one asked for |
| BeliefNetwork.OutcomeProbabilityInUnit | src/Components/HypothesesEvaluation/HypothesesEvaluation.cpp:282-288 | under a sound engine, every posterior read back is in [0, 1] |
| BeliefNetwork.HardEvidenceFixesEllipse | src/Components/HypothesesEvaluation/HypothesesEvaluation.cpp:267-272 | when p > 0.9, a sound engine reports P(ellipse = HIGH) = 1 after the update |
| BeliefNetwork.PairSwap | src/Components/HypothesesEvaluation/HypothesesEvaluation.cpp:116-133 | entry 2i of the swapped table is entry 2i+1 of the original and vice versa |
| BeliefNetwork.PairSwapKeepsDistributions | src/Components/HypothesesEvaluation/HypothesesEvaluation.cpp:98-133 | swapping YES and NO keeps every CPT pair a distribution |
| BeliefNetwork.CptTables | src/Components/HypothesesEvaluation/HypothesesEvaluation.cpp:90-133 | the root prior and every pair of the `flat` CPT sum to 1, and `nonflat`'s CPT is `flat`'s with every pair swapped |
| HypothesesEvaluation.Evaluator.constructor | src/Components/HypothesesEvaluation/HypothesesEvaluation.cpp:49-55 | the component starts with no history and the network it read in |
| HypothesesEvaluation.Evaluator.UpdateFeatureVector | src/Components/HypothesesEvaluation/HypothesesEvaluation.cpp:185-205 | the histories are created on first use; flatness gains exactly `newFeatures[2]` and area exactly `newFeatures[3]`; both stay equal in length and earlier entries are kept |
| HypothesesEvaluation.Evaluator.CalculateProbabilities | src/Components/HypothesesEvaluation/HypothesesEvaluation.cpp:207-237 | `newProbabilities` becomes [flatness evidence of the latest flatness, area evidence of latest area / maximum area] |
| HypothesesEvaluation.Evaluator.UpdateNetwork | src/Components/HypothesesEvaluation/HypothesesEvaluation.cpp:239-273 | the node states become `Evaluated(old nodes, p, q)` and the beliefs are recomputed from them; the history is untouched |
| HypothesesEvaluation.Evaluator.ComputeDecision | src/Components/HypothesesEvaluation/HypothesesEvaluation.cpp:290-315 | the output is exactly two values, [P(flat = YES), P(nonflat = YES)], read at outcome index 0 |
| HypothesesEvaluation.Evaluator.OnNewImage | src/Components/HypothesesEvaluation/HypothesesEvaluation.cpp:171-183 | one frame extends both histories, writes the new evidence into the network and emits two posteriors in [0, 1] |
| Lut.H | src/Components/LUT/LUT.cpp:18 | `x >> 1` is floor halving: 2h ≤ x < 2h + 2 |
| Lut.DefaultsSelectBlue | src/Components/LUT/LUT.cpp:20-37 | the defaults 180, 240, 100, 100 are within [0, 360] and [0, 255] and select OpenCV hues 90..119 |
| Lut.Label | src/Components/LUT/LUT.cpp:130-143 | the source's chain of hue, saturation and value tests yields 0 or 255, and 255 exactly when H(hue1) ≤ hue < H(hue2), sat ≥ sat_thr and val ≥ val_thr |
| Lut.Segmentation | src/Components/LUT/LUT.cpp:124-147 | one label per HSV triple, and every label is 0 or 255 |
| Lut.SegmentationIsLocal | src/Components/LUT/LUT.cpp:125-145 | label k depends only on input bytes 3k, 3k+1 and 3k+2 |
| Lut.EmptyBandLabelsNothing | src/Components/LUT/LUT.cpp:130-135 | if H(hue1) ≥ H(hue2), every label is 0 |
| Lut.SegmentationOfConcatenation | src/Components/LUT/LUT.cpp:109-124 | segmenting two buffers one after the other equals segmenting their concatenation |
| Lut.RowByRowEqualsContinuous | src/Components/LUT/LUT.cpp:109-124 | labelling an image row by row gives the same labels as treating it as one continuous row |
| Lut.LabelLine | src/Components/LUT/LUT.cpp:123-148 | the pixel loop writes one label per triple, at the running counter k, and writes no other byte |
| Lut.LabelLines | src/Components/LUT/LUT.cpp:115-149 | the row loop labels every pixel of the image |
| Lut.LookupTable.constructor | src/Components/LUT/LUT.cpp:20-37 | the thresholds start at 180, 240, 100 and 100, and both images are new, empty buffers |
| Lut.LookupTable.OnNewImage | src/Components/LUT/LUT.cpp:96-153 | `segments` becomes `Segmentation` of the input whether or not the image is continuous; the input is only read; `hue_img` is created but never written; buffers of an unchanged size are reused |

## Left out

- SMILE internals are not modelled: `ReadFile`, `SetDefaultBNAlgorithm` and inference. The network the component reads is a constructor argument, and inference is an opaque `engine` function. `BeliefNetwork.SoundEngine` states the only facts about inference that the model uses:
  - each posterior is a per-outcome probability;
  - hard evidence puts all the mass on its outcome.
- BeliefNetwork.SetDefinition: SMILE's size check and the return codes of `SetDefinition` and `SetEvidence` are left out, because the component ignores them. The calls are modelled as unconditional updates.
- `createNetwork`'s graph building, `WriteFile` and the `LinkTo` call are left out. The function is never called, so only its probability tables are kept, as data.
- MS_Blueball_Network is not part of this model. It is a thin loop of library calls whose only result is logged.
- Blob detection, the blob's moments and its fitted box come from an external library. They are inputs.
- Streams, event handlers, `onInit`/`onStart`/`onStop`, logging, the hard-coded file paths and the `try/catch` blocks are left out.
- The dead "no blob" test (`GetNumBlobs() < 0`) is left out. It is never true.
- Floating-point rounding is not modelled; doubles are reals. `sqrt` is a parameter known only through `RealMath.IsSqrt`. NaN and infinity are modelled as `Failure` results, not as values.
- Lut.LookupTable.OnNewImage: the image is stored without row padding, so a non-continuous `Mat` whose row step exceeds its width is not modelled. `Mat::create` reuse is decided by size alone, because the type is always 8-bit single-channel. The contents of a freshly created `hue_img` are unspecified, as in OpenCV, and nothing is stated about them.
- Lut.LookupTable.OnNewImage: requires the input buffer to differ from the two output buffers, because in the source they are separate images.
- Lut.LookupTable: the thresholds are kept in range by a class invariant. The framework's enforcement of property constraints is not part of this model.
- BlobGeometry.Realisable: the model does not derive this condition from a set of pixels. It states, as a predicate, the Cauchy-Schwarz bound that central moments of real pixels satisfy, and lemmas assume it.
- BlobGeometry.ImagePosition: checks its non-finite cases in a fixed order. The source computes NaN or infinity without checking anything.
- BlobGeometry.ImagePosition: on a fault frame the whole position is a `Failure`. The source still writes x, y and diameter, which stay finite when only the axes fail (ZeroMass, NegativeRadicand, ZeroMajorAxis); those three values are lost on such frames.
- Evidence.AreaRatio: requires a non-zero maximum once there are two samples. The source divides anyway and produces an infinity or NaN.
- HypothesesEvaluation.Evaluator.CalculateProbabilities: requires a non-empty history. The source calls `back()`, which is undefined on an empty vector; `onNewImage` always appends first.
- HypothesesEvaluation.Evaluator.UpdateNetwork: requires the four named nodes to exist. The source would dereference the node of a failed lookup.

## Findings

| source | as written | input that shows it | evidently intended | confidence | as-written member | corrected member |
|---|---|---|---|---|---|---|
| src/Components/FeatureExtraction/FeatureExtraction.cpp:129-130 (and src/Components/MS_Blueball_Decide/MS_Blueball_Decide.cpp:128-129) | the inner radicand of `a` and `b` is `M11² + (M20−M02)²` | M20 = M02 = M11 = 1, a line segment at 45°: the covariance determinant is 0, yet the source gives b = √2 > 0. The same segment along the x axis gets b = 0 | `4·M11² + (M20−M02)²`, the discriminant of the covariance matrix, so that a²/4 and b²/4 are its eigenvalues | not executed | BlobGeometry.WrittenAxesDependOnRotation | BlobGeometry.CorrectedImagePosition |
