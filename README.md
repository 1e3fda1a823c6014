# Shape Evolution: a verified model of the game core

Shape Evolution is a desktop puzzle game. Each level shows a few ghost
*target* polygons and the same number of coloured *active* polygons,
displaced, resized and turned. The player selects a batch of active shapes,
drags each onto its target (it snaps on when close enough), rotates and
scales them, and asks for a check. If every shape in the batch is close
enough to its target in position, rotation and size, the batch's pairs
disappear. Otherwise the player loses a life. A level is cleared when no
pair is left, and its time is recorded. The game state can be saved to a
dictionary and loaded back.

This project models the game's core and proves properties of it:

- `geometry.dfy` (module `Geometry`) models angle normalisation and distances from `lp_utils.py`.
- `shapes.dfy` (module `Shapes`) models the shape record from `lp_shapes.py`: the hit test, the record form, decoding.
- `statistics.dfy` (module `Statistics`) models the per-level statistics tracker from `lp_stats.py`. It has a value datatype `StatsRecord` and a class `Stats` whose methods are tied to it.
- `selection.dfy` (module `Selection`) holds index sets and deletion of selected positions, which the engine uses.
- `generation.dfy` (module `Generation`) models level generation from `LPGame.new_level`: centre placement and pair construction.
- `engine.dfy` (module `Engine`) models the `LPGame` class. Its mutable state is a Dafny `class Game` with the same fields. Its methods cover difficulty, levels, pointer input, batch rotate and scale, the batch alignment check, and save/load.
- `wrappers.dfy` (module `Wrappers`) holds `Option` and small integer helpers.

Modelling choices:

- Positions, sizes, rotations and clock readings are integers.
- Distances are compared squared, so every `math.hypot(...) <= r` test becomes `SqDist(...) <= r * r`.
- The hit test against `(1.1 * size)^2` is written `100 * d^2 <= 121 * size^2`.
- The size test `|a - t| / t <= pct / 100` is multiplied out. A negative target size passes, as the negative quotient does in the game.
- A scale factor is a fraction `num / den`. The game's `int(size * factor)` becomes division truncating toward zero (`Engine.TruncDiv`).
- Randomness is replaced by its draws, passed in as parameters:
  - `tries` holds the up-to-200 candidate centres per pair;
  - `draws` holds each pair's size, rotation, offsets, size factor and rotation offset, each within its `randint`/`uniform` range.
- The clock `time.perf_counter()` becomes a parameter `now`.
- The canvas is assumed attached, and its current size is a parameter.

The code settles these points, and the model follows it:

- The tolerances depend only on the difficulty, not on the level.
- A dragged shape snaps onto its target during the drag itself.
- Level generation has no fallback position: a pair whose 200 candidates all fail is dropped.
- `check_alignment_batch` selects every shape by itself when nothing is selected and all remaining shapes fit in one batch (`lp_game.py:221-223`).
- `from_dict` is not atomic. The scalar fields are assigned before the shape lists are decoded, so a malformed shape entry leaves them already overwritten. A failing `target` list leaves the new `active` list in place. `Engine.Game.FromDict` states exactly this partial update.
- `from_dict` ignores the saved `"stats"` entry.
- The drag index survives a successful check and a load, so it may be stale. A stale index that names no shape makes `drag_to` raise `IndexError`; `Engine.Game.DragTo` reports that case as failure and changes nothing.
- `new_level` on a canvas narrower than 440 or lower than 320 raises `ValueError` at its first centre draw (`lp_game.py:81-82`), after both lists, the selection, the focus and the drag were cleared. `Engine.Game.NewLevel` reports that case as failure with exactly that state.

## Model

| member | source | states |
|---|---|---|
| Geometry.DegNorm | lp_utils.py:4-8 | the normalised angle lies in [0, 360) and differs from the input by whole turns |
| Geometry.DegNormUnique | lp_utils.py:4-8 | those two properties determine the normalised angle uniquely |
| Geometry.DegNormIsResidue | lp_utils.py:5-7 | on integers the residue is never negative, so the `+ 360` correction never fires and the result is `deg % 360` |
| Geometry.DegNormIdempotent | lp_utils.py:4-8 | normalising twice is normalising once |
| Geometry.DegNormPeriodic | lp_utils.py:4-8 | adding any number of whole turns does not change the normalised angle |
| Geometry.SqDist | lp_utils.py:10-12 | the squared distance is zero exactly when the two points coincide |
| Geometry.SqDistSymmetric | lp_utils.py:10-12 | distance does not depend on the order of the points |
| Shapes.Shape.AsDict | lp_shapes.py:32-36 | the record has exactly the six field keys, and only the colour is text |
| Shapes.Shape.Contains | lp_shapes.py:27-30 | the circle hit test on squared integers; `ContainsAsReal` proves it is the game's `dx² + dy² <= (1.1·size)²`, `ContainsCentre` and `ContainsMonotone` its consequences |
| Shapes.ContainsAsReal | lp_shapes.py:27-30 | the integer hit test is the game's test `dx² + dy² <= (1.1·size)²` over the reals |
| Shapes.ContainsCentre | lp_shapes.py:27-30 | every shape contains its own centre |
| Shapes.ContainsMonotone | lp_shapes.py:27-30 | a shape with a larger size at the same centre contains every point the smaller one does |
| Shapes.FromDict | lp_shapes.py:38-44 | decoding succeeds exactly when the five numeric keys are present and any colour is text; the fields are the record's values; a missing colour gives the active colour |
| Shapes.FromDictAsDict | lp_shapes.py:32-44 | decoding the record of a shape gives the shape back |
| Shapes.AsDictFromDict | lp_shapes.py:32-44 | a decodable six-key record is reproduced by its shape's record |
| Shapes.NonEmpty | lp_game.py:294-295 | the entries the `if d` filter keeps: exactly the non-empty ones, a one-entry list kept or dropped by its emptiness, the whole list when none is empty |
| Shapes.NonEmptyConcat | lp_game.py:294-295 | filtering a concatenation is the concatenation of the filtered parts; with `NonEmpty`'s one-entry case this makes it the filter that keeps the non-empty entries in their order |
| Shapes.ParseShapes | lp_game.py:294-295 | a list decodes exactly when every non-empty entry decodes, and the result is the non-empty entries decoded one by one in their order; so every decoded shape comes from a non-empty entry, and with no empty entries the result is the entries decoded position by position |
| Shapes.DictsOf | lp_game.py:276-277 | one record per shape, in order |
| Shapes.ParseDictsOf | lp_game.py:276-295 | saving a shape list and decoding it gives the same list in the same order |
| Statistics.Zeros | lp_stats.py:16-18 | a list of the given length (none if negative) holding only zeros |
| Statistics.StatsRecord.StartLevel | lp_stats.py:20-22 | the level's start time becomes the clock and its attempt count grows by one; every other entry is unchanged |
| Statistics.StatsRecord.Duration | lp_stats.py:25 | the duration is the time from the level's start to the clock |
| Statistics.StatsRecord.FinishLevel | lp_stats.py:24-27 | the level's elapsed entry becomes its duration; every other entry and field is unchanged |
| Statistics.StatsRecord.AsDict | lp_stats.py:29-30 | the saved form holds the total, elapsed times and attempts, and no start times |
| Statistics.StatsRecord.FromDict | lp_stats.py:32-35 | each present key replaces its field, each absent key keeps the current value, start times are kept |
| Statistics.LoadSaved | lp_stats.py:29-35 | loading a saved record reproduces its total, times and attempts in any tracker |
| Statistics.StartRepeatedlyCounts | lp_stats.py:20-22 | k starts of a level raise its attempt count by exactly k, the last start time wins, elapsed times are untouched |
| Statistics.Stats.constructor | lp_stats.py:15-18 | one zeroed slot per level plus slot 0 in each list |
| Statistics.Stats.StartLevel | lp_stats.py:20-22 | the tracker's new value is `StatsRecord.StartLevel` of its old value |
| Statistics.Stats.FinishLevel | lp_stats.py:24-27 | returns the level's duration; the new value is `StatsRecord.FinishLevel` of the old |
| Statistics.Stats.AsDict | lp_stats.py:29-30 | the saved form of the tracker's current value |
| Statistics.Stats.FromDict | lp_stats.py:32-35 | the new value is `StatsRecord.FromDict` of the old |
| Selection.RangeSet | lp_game.py:223 | the set of all indices below n, of size n |
| Selection.Toggle | lp_game.py:119-123 | the clicked index leaves the selection if it was in it, joins only if the selection is below the batch size, and no other index changes |
| Selection.KeptFromSpec | lp_game.py:259-261 | the surviving positions are in range, unselected and strictly increasing |
| Selection.SurvivorsFromAt | lp_game.py:259-261 | the k-th survivor is the element at the k-th surviving position |
| Selection.RemoveIndicesAligned | lp_game.py:259-261 | deleting the same positions from two equally long lists keeps the pairs aligned: survivors k of both come from the same original position |
| Selection.KeptFromCount | lp_game.py:259-261 | the survivors and the deleted positions together account for every position |
| Selection.RemoveIndicesLength | lp_game.py:259-261 | deleting a set of in-range positions shortens the list by the set's size |
| Selection.DeleteStep | lp_game.py:259-261 | deleting positions from the highest down: handling position i keeps the list equal to "prefix below i, survivors from i on" |
| Selection.RemoveIndices | lp_game.py:259-261 | the list with the selected positions deleted: `RemoveIndicesAligned` gives its elements, `RemoveIndicesLength` its length, `DeleteStep` the loop that computes it |
| Generation.Pairs | lp_game.py:69 | min(level, 5) pairs from level 1 on, and none for a level below 1 |
| Generation.Sides | lp_game.py:70 | level + 2 sides (triangles on level 1) until the cap of 7, which is reached only from level 5 on |
| Generation.FirstFar | lp_game.py:80-85 | the chosen candidate is the first far-enough one: it is a candidate, far from every placed centre, and every candidate before it is too close; there is none exactly when no candidate is far enough |
| Generation.Step | lp_game.py:79-85 | one pair's placement: `StepDrops` proves it appends one drawn candidate or, when all are too close, drops the pair; `StepSeparated` that it keeps the centres apart |
| Generation.PlaceAll | lp_game.py:77-85 | at most one centre per pair, and any two centres are at least 140 apart |
| Generation.StepSeparated | lp_game.py:83-84 | accepting a far-enough candidate keeps the centres separated |
| Generation.StepDrops | lp_game.py:79-85 | a pair is dropped exactly when all its candidates are too close; otherwise one candidate is appended |
| Generation.PlaceAllFromCandidates | lp_game.py:79-85 | every centre is a drawn candidate, so all centres lie in the sampling window |
| Generation.MakeTarget | lp_game.py:88-90 | the target sits on the centre with the level's sides, a size in [100, 150], a rotation in [0, 359] and the target colour |
| Generation.MakeActive | lp_game.py:91-100 | the active shape is displaced by at most 180 and 140, is turned by the drawn offset modulo 360, and has size between 3/4 and 5/4 of the target's |
| Generation.TargetsAt | lp_game.py:87-90 | one target per centre with the target bounds, pairwise separated when the centres are |
| Generation.ActivesAt | lp_game.py:87-100 | one active shape per centre with the displacement, rotation and size bounds |
| Generation.BuildPairs | lp_game.py:87-100 | the loop builds exactly the targets and active shapes of those centres |
| Generation.LevelLayout | lp_game.py:77-90 | a level's targets lie in the sampling window, are pairwise at least 140 apart, and number at most min(level, 5) |
| Generation.FactorBounds | lp_game.py:95 | a size factor within [0.75, 1.25] keeps the truncated size within 3/4 and 5/4 of the target size |
| Generation.PlaceCentres | lp_game.py:77-85 | the placement loop computes `PlaceAll` of the first min(level, 5) candidate lists: separated centres, at most one per pair |
| Generation.PlaceOne | lp_game.py:80-85 | the inner loop appends the first far-enough candidate, if any |
| Generation.CanSample | lp_game.py:81-82 | the sampling window is non-empty; `Engine.Game.NewLevel` fails exactly when a pair is to be placed and it is not |
| Engine.ParseDifficulty | lp_game.py:28-31 | "easy" and "hard" are themselves; every other name is normal |
| Engine.DifficultyName | lp_game.py:282 | the stored name of a difficulty parses back to that difficulty |
| Engine.SnapRadius | lp_game.py:32-37 | the snap radius is positive; `Engine.Game.SetDifficulty` states its three values |
| Engine.ToleranceOf | lp_game.py:228-239 | the fixed thresholds per difficulty (120/45/50%, 70/28/35%, 40/18/22%); `ToleranceOrdered` proves they tighten from easy to hard |
| Engine.ToleranceOrdered | lp_game.py:228-239 | harder difficulties have strictly smaller position, rotation and size thresholds and snap radii |
| Engine.RotDiff | lp_game.py:246-247 | the rotation error lies in [0, 180], is zero exactly when the rotations differ by whole turns, and turning one rotation by it, one way or the other, reaches the other modulo 360; together these make it the smaller circular difference |
| Engine.RotDiffSymmetric | lp_game.py:246-247 | the rotation error does not depend on which shape is the reference |
| Engine.PositionOk | lp_game.py:245 | the squared position test; `PositionOkAsDistance` proves it is `d <= threshold` on the real distance |
| Engine.PositionOkAsDistance | lp_game.py:245-253 | the squared test agrees with the game's test on the real distance d, and the zeroing of d below 1 only ever zeroes d == 0, so it never changes a verdict |
| Engine.RotationOk | lp_game.py:246-253 | the smaller circular rotation difference (`RotDiff`) is within the threshold |
| Engine.ScaleOk | lp_game.py:248-253 | the multiplied-out size test; `ScaleOkAsRatio` proves it equal to the relative error test for a positive target size |
| Engine.ScaleOkAsRatio | lp_game.py:248 | the integer size test is the game's relative error test over the reals |
| Engine.Matches | lp_game.py:245-253 | all three tests pass; `AlignedShapeMatches` and `DisplacedShapeFails` exhibit both outcomes |
| Engine.AlignedShapeMatches | lp_game.py:245-253 | a shape on its target's centre, with its size and rotation up to whole turns, passes on every difficulty |
| Engine.DisplacedShapeFails | lp_game.py:245-253 | a shape further than the position threshold fails whatever its rotation and size |
| Engine.RequiredBatchOf | lp_game.py:56-57 | the batch size is min(level, 5, max(1, count)): no larger than any of the three, equal to one, and at least 1 from level 1 on |
| Engine.Rotated | lp_game.py:163-164 | only the rotation changes; it lands in [0, 360), whole turns from old + deg |
| Engine.TruncDiv | lp_game.py:178 | the quotient truncates toward zero: it brackets the dividend between consecutive multiples on the dividend's side of zero |
| Engine.Rescaled | lp_game.py:177-179 | only the size changes; it is the truncated product clamped to [30, 260] |
| Engine.RescaledByOne | lp_game.py:177-179 | scaling by 1 leaves an in-range shape unchanged |
| Engine.LoadedShapes | lp_game.py:294-295 | an absent list loads as empty; a present one loads as `ParseShapes` decodes it |
| Engine.TopmostHitUnique | lp_game.py:117-127 | at most one shape is the topmost hit under a point |
| Engine.TopmostHit | lp_game.py:117-118 | the found index holds a shape containing the point with none above it; none is found only if no shape contains it |
| Engine.AllMatch | lp_game.py:241-257 | the scoring loop answers true exactly when every batch shape matches its target |
| Engine.Game.constructor | lp_game.py:9-26 | level 1, 3 lives, the default name, empty lists and selection, normal difficulty with snap radius 45 |
| Engine.Game.IsLevelCleared | lp_game.py:53-54 | no shape is left; `CheckAlignmentBatch` answers "already cleared" exactly then, and records the level time exactly when a match makes it true |
| Engine.Game.RequiredBatch | lp_game.py:56-57 | the batch size for the game's level and shape count, characterised by `RequiredBatchOf` |
| Engine.Game.SetDifficulty | lp_game.py:28-37 | the difficulty is parsed with normal as fallback, and the snap radius is 70, 45 or 30 to match |
| Engine.Game.NewLevel | lp_game.py:59-103 | fails exactly when a pair is to be placed on a canvas too small to sample, leaving both lists empty and no attempt recorded; otherwise the lists are exactly the targets and active shapes built from `PlaceAll` of the draws and the attempt is recorded; selection, focus and drag are cleared either way |
| Engine.Game.Reset | lp_game.py:44-47 | back to level 1 with 3 lives, then `NewLevel`'s outcome for level 1 |
| Engine.Game.NextLevel | lp_game.py:49-51 | the level grows by one, then `NewLevel`'s outcome for the new level |
| Engine.Game.PointerDown | lp_game.py:115-128 | the topmost shape under the pointer is toggled within the batch size and becomes focus and drag with its grab offset; a miss only ends the drag; validity and the batch cap are kept |
| Engine.Game.DragTo | lp_game.py:130-150 | fails, changing nothing, exactly when a stale drag index names no shape; otherwise the dragged shape follows the pointer, or snaps onto its own target's centre and ends the drag when within the snap radius; no other shape moves |
| Engine.Game.PointerUp | lp_game.py:152-153 | the drag ends |
| Engine.Game.Affected | lp_game.py:156-161 | rotate and scale act on the selection, else on the focus, else on nothing |
| Engine.Game.RotateActive | lp_game.py:155-167 | exactly the affected shapes are turned; the others are unchanged |
| Engine.Game.ScaleActive | lp_game.py:169-182 | exactly the affected shapes are rescaled and clamped; the others are unchanged |
| Engine.Game.Need | lp_game.py:219 | the batch size the check demands: never more than the shapes left, and the required batch while shapes remain |
| Engine.Game.Batch | lp_game.py:221-225 | the indices the check scores: the selection if any; with none, every shape when all fit in one batch, and otherwise nothing |
| Engine.Game.DeletePairs | lp_game.py:259-261 | both lists lose exactly the batch's positions, keep their order, and stay equally long if they were |
| Engine.Game.AutoSelect | lp_game.py:221-223 | the selection becomes the batch the check scores: all shapes when nothing is selected and all fit in one batch; works on any state, keeps validity and the batch cap |
| Engine.Game.ScoreSelection | lp_game.py:228-269 | one mismatch costs exactly one life and changes nothing else; a full match deletes exactly the selected pairs, clears selection and focus, and records the level time if nothing is left; a stale focus is allowed and validity is kept |
| Engine.Game.CheckAlignmentBatch | lp_game.py:215-269 | "already cleared" with nothing changed when no shape is left; "select exactly need" with nothing changed when the batch has the wrong size; otherwise the outcomes of `ScoreSelection` over the (auto-)selected batch; validity, pairing and the batch cap are preserved; a stale focus or an unscored stale selection is allowed |
| Engine.Game.ToDict | lp_game.py:271-283 | every key is present, the scalars are the fields, the stats entry is the tracker's saved form, every shape record has the six keys, and both shape lists decode back to the current lists; the difficulty is stored by its name |
| Engine.Game.FromDict | lp_game.py:285-298 | absent keys take defaults or keep the current value; both lists decode or the load stops at the first failing list, leaving what was already assigned |
| Engine.Game.LoadScalars | lp_game.py:286-293 | each present key replaces its scalar field, level and lives fall back to 1 and 3, the difficulty is parsed and the snap radius follows it |
| Engine.Game.LoadLists | lp_game.py:294-297 | the active list is assigned before the target list is decoded; selection and focus are cleared only when both lists load |
| Engine.Game.SaveAndReload | lp_game.py:271-298 | saving and loading back restores level, lives, name, canvas size, level count, difficulty and both lists, and clears selection and focus; it holds in every state whose snap radius belongs to its difficulty, a stale focus or selection included |

## Left out

- Drawing is not modelled: the canvas, background, level badge, selection outlines and ghost/active polygon rendering (`polygon`, `lp_draw_shape`, `lp_draw_ghost_shape`, `redraw`, `redraw_shapes`, `attach_canvas`). They have no effect on game state.
- `lp_app.py` is not part of this model. It holds the window, buttons, key bindings and file dialogs.
- The statistics window is not part of this model. It is a chart drawn with matplotlib.
- The JSON file helpers `lp_save_json` and `lp_load_json` are left out: they are file I/O. Saving and loading are modelled on the in-memory dictionary (`Engine.Snapshot`).
- Floating point is not modelled:
  - rotations, scale factors and times are integers or fractions;
  - `lp_deg_norm` on a tiny negative float can return 360.0, which cannot happen on integers;
  - the rounding of `math.hypot` at the exact threshold is not modelled.
- Shapes.FromDict: does not model `int(...)`/`float(...)` coercion of strings or non-integral numbers; a field must already be a number. A non-string colour is rejected, though the game would store it.
- Engine.Game.FromDict: the snapshot's values are typed, so a level, lives or name of the wrong type is not representable.
- Engine.Game.NewLevel: the early return when no canvas is attached is left out, because the canvas is assumed attached.
- Engine.Game.NewLevel: separation and the sampling window are proved about `TargetsAt` of the placed centres (`Generation.LevelLayout`) rather than restated in the method's contract.
- Engine.Game.NewLevel: requires the level to index the stats lists. Beyond their end `start_level` raises `IndexError` at `lp_game.py:103`, after the new level was built; that error path is not modelled.
- Negative list indices are not modelled. Python would wrap them. The stats methods, `NewLevel`, `Reset` and `NextLevel` require a level from 0 up to the list length.
- Engine.Game.CheckAlignmentBatch: requires (`ScoringDefined`, `FinishDefined`) that, when the batch is scored, every batch index names an active shape and a target of non-zero size, and that a clearing match can index the stats lists. Outside these the game raises `IndexError` (`lp_game.py:242-243`, `lp_game.py:267`) or `ZeroDivisionError` (`lp_game.py:248`). A half-failed load can reach them, and which error comes first would depend on the set's iteration order, which is not modelled either. Inside them the first mismatch ends the check whatever the order. A stale focus is not excluded: the check never reads it.
- Engine.Game.ScoreSelection: requires the same conditions as `CheckAlignmentBatch`, for its already fixed selection; a stale focus is allowed.
- Engine.Game.RotateActive: requires every affected index to name a shape. A stale selected index, or a stale focus when nothing is selected, is possible after a half-failed load; `rotate_active` then raises `IndexError` (`lp_game.py:163`), possibly after turning some shapes, and that error path is not modelled. A stale focus while something is selected is allowed, since the focus is then not used.
- Engine.Game.ScaleActive: requires every affected index to name a shape, for the same reason (`lp_game.py:177`).
- Aliasing between saved dictionaries and the live lists (`s.__dict__`, `self.elapsed`) is not modelled; snapshots are values.
- `random.seed()` and the random generator are left out; their draws are parameters.
