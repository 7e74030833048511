# GPXLab "Get Altitude From Database" dialog — altitude merge model

This project models the core of GPXLab's SRTM dialog (`Dialog_srtm`): the
routine that walks the selected track segment by segment and point by point
and gives every point a new altitude from the SRTM elevation database under
one of three strategies, plus the dialog's modified flag, its window title and
its accept/reject outcome.

- `wrappers.dfy` — `Option`, the answer of an elevation lookup.
- `track.dfy` (module `Track`) — points, segments and the track as
  `TrackSegments`, a `seq<seq<Point>>`; the elevation database as a total function
  `(latitude, longitude) -> Option<Short>`, `Short` being a 16-bit newtype
  (the C++ `short` that `SRTM::getAltitude` fills in); flattening a track in
  segment-then-point order.
- `merge.dfy` (module `Merge`) — the three strategies (`Replace`, `FillMissing`,
  `Validate`, the UI's options 0, 1 and 2), the altitude of one point, the
  functional merge `Generate`, and the method `GenerateValues` that follows the
  C++ loops, with the database consulted only in the branches where the
  source calls `getAltitude`, and is proved equal to `Generate`. It departs
  from the C++ text in one place: it guards the Validate division against a
  zero elevation (see below). It returns the flag and the values; the
  `setModified(true)` of line 148 is done by `Dialog.StoreRun`.
- `merge_properties.dfy` (module `MergeProperties`) — what a run produces:
  when it succeeds, how many values in which order, what each strategy puts
  there, what a lookup miss leaves behind, and a three-point example.
- `dialog.dfy` (module `Dialog`) — the dialog record (flag, title, values,
  result), `setModified`, the fetch, `getValues`, accepting, and an invariant
  over any sequence of user actions, in which the database may gain tiles
  between fetches.

Modelling choices:

- Altitudes are `real`. The database sample is converted exactly, as the
  `short` to `double` conversion in the source is exact.
- An altitude of exactly 0.0 means "not recorded". This is the test on line
  121 of `GPXLab/dialogs/dialog_srtm.cpp`.
- The Validate strategy divides the recorded altitude by the database
  elevation (line 136) without a guard. The model guards a zero elevation and
  returns it. Under IEEE arithmetic the unguarded code ends the same way: a
  non-zero recorded altitude gives an infinite ratio, which lies outside
  [0.9, 1.1]; 0.0/0.0 is NaN, every comparison is false, and the recorded
  0.0, equal to the elevation, is kept.
- "No track selected" and "track without segments" are one case, a track with
  no segments. In the source both reach the `initTrksegIteration(...) > 0`
  test on line 99 and fail there. `GPX_wrapper` is not part of this model.
- `QDialog::accept` sets the result to Accepted before the `accepted` signal
  reaches `on_Dialog_srtm_accepted`. `Accept` models both steps. A new
  dialog starts with QDialog's initial result, Rejected.

Two behaviours of the source that a caller may not expect:

- On a lookup miss the routine returns false at line 116, 124 or 135 of
  `GPXLab/dialogs/dialog_srtm.cpp` without clearing `values`. Line 98 is the
  only clear, so `getValues` then returns the values of every point visited
  before the miss. The model keeps this: `MissKeepsPrefix` states it of the
  run, and `Fetch`, `GetValuesReportsLastRun` and `AcceptAfterFailedRefetch`
  state it of the dialog.
- A track whose segments are all empty passes the test at line 99, appends
  nothing and reaches `setModified(true)` at line 148. The run succeeds with
  no values and sets the modified flag.

## Model

| member | source | states |
|---|---|---|
| Track.Flatten | GPXLab/dialogs/dialog_srtm.cpp:106-111 | the points visited number exactly the points of all segments together |
| Track.FlattenOrder | GPXLab/dialogs/dialog_srtm.cpp:105-147 | point j of segment i is visited at position PointCount(t[..i]) + j: segments in order, points in order, empty segments contribute nothing |
| Merge.RatioBounds | GPXLab/dialogs/dialog_srtm.cpp:136-137 | for a non-zero elevation D, 0.9 <= R/D <= 1.1 holds exactly when R lies within 10% of D (either sign of D) |
| Merge.ValidateAltitude | GPXLab/dialogs/dialog_srtm.cpp:136-140 | Validate keeps the recorded altitude exactly when it is within 10% of the database elevation, else takes the elevation; a zero elevation is returned |
| Merge.PointAltitude | GPXLab/dialogs/dialog_srtm.cpp:112-142 | a point fails exactly when its strategy needs the database and the lookup misses; FillMissing with a recorded altitude needs no lookup |
| Merge.MergeFrom | GPXLab/dialogs/dialog_srtm.cpp:110-144 | a completed walk holds one value per point; an aborted walk holds fewer |
| Merge.MergeFromSpec | GPXLab/dialogs/dialog_srtm.cpp:110-144 | the walk succeeds iff every point has an altitude; each kept value is its point's altitude; on abort the next point is the one that missed |
| Merge.Generate | GPXLab/dialogs/dialog_srtm.cpp:96-152 | no segments: false with no values; success: one value per track point; failure on a non-empty track: fewer values than points |
| Merge.MergeConcat | GPXLab/dialogs/dialog_srtm.cpp:106-147 | later points are visited only if every earlier one succeeded; after a miss nothing more is appended |
| Merge.MergeStep | GPXLab/dialogs/dialog_srtm.cpp:143 | a point with an altitude appends exactly that altitude after the values so far |
| Merge.MissAborts | GPXLab/dialogs/dialog_srtm.cpp:115-135 | a miss at a point ends the whole run with false and the values of the points before it |
| Merge.GenerateValues | GPXLab/dialogs/dialog_srtm.cpp:96-147 | the nested segment/point loops with early return compute the same flag and values as the functional merge |
| MergeProperties.GenerateSucceedsIff | GPXLab/dialogs/dialog_srtm.cpp:99-150 | a run succeeds iff the track has a segment and every point that needs the database finds an elevation |
| MergeProperties.GenerateValuesAligned | GPXLab/dialogs/dialog_srtm.cpp:98-143 | every value left by a run, successful or not, is the altitude of the point at the same position |
| MergeProperties.GenerateInTrackOrder | GPXLab/dialogs/dialog_srtm.cpp:106-147 | a successful run has one value per point and point j of segment i gets its own altitude at position PointCount(t[..i]) + j |
| MergeProperties.ReplaceTakesDatabase | GPXLab/dialogs/dialog_srtm.cpp:114-118 | under Replace every value is the database elevation at its point |
| MergeProperties.FillMissingFillsZeros | GPXLab/dialogs/dialog_srtm.cpp:120-131 | under FillMissing a recorded altitude is kept and a 0.0 altitude is replaced by the database elevation |
| MergeProperties.FillMissingIgnoresDatabase | GPXLab/dialogs/dialog_srtm.cpp:127-130 | under FillMissing a track with all altitudes recorded succeeds with those altitudes whatever the database holds |
| MergeProperties.ValidateKeepsPlausible | GPXLab/dialogs/dialog_srtm.cpp:133-141 | under Validate each value is the recorded altitude when within 10% of the database elevation, else the elevation |
| MergeProperties.MissKeepsPrefix | GPXLab/dialogs/dialog_srtm.cpp:98-143 | a failed run on a non-empty track stops at a point that needed the database and missed, holding exactly the values of the points before it |
| MergeProperties.ThreePointExample | GPXLab/dialogs/dialog_srtm.cpp:112-143 | altitudes 100, 0, 95 over elevations 98, 97, 96 give 98, 97, 96 (Replace), 100, 97, 95 (FillMissing) and 100, 97, 95 (Validate) |
| Dialog.TitleMarksModified | GPXLab/dialogs/dialog_srtm.cpp:87-94 | the title starts with '*' exactly when the dialog is modified, and always ends with the base title |
| Dialog.Open | GPXLab/dialogs/dialog_srtm.cpp:61 | a new dialog is unmodified, holds no values and shows the plain title |
| Dialog.SetModified | GPXLab/dialogs/dialog_srtm.cpp:87-94 | sets the flag, makes the title agree with it, and changes nothing else |
| Dialog.StoreRun | GPXLab/dialogs/dialog_srtm.cpp:143-149 | the run's values replace the dialog's values; only success sets the flag; failure leaves flag and title alone |
| Dialog.Fetch | GPXLab/dialogs/dialog_srtm.cpp:96-152 | on the dialog: success iff every needed lookup finds data; success sets the flag and getValues holds one value per point; an empty track gives false and no values; failure leaves flag and title; after a failure the first point not kept is one whose needed lookup missed |
| Dialog.GetValuesReportsLastRun | GPXLab/dialogs/dialog_srtm.cpp:82-85 | getValues returns the values of the most recent run, also after a failed one, and accepting does not change them; after a success they are one altitude per track point in order |
| Dialog.AcceptAfterFailedRefetch | GPXLab/dialogs/dialog_srtm.cpp:70-80 | after a successful fetch and then a failed one on a non-empty track, accepting leaves the dialog Accepted while it holds exactly the values of the points before the miss, the next point being one whose needed lookup missed |
| Dialog.Accept | GPXLab/dialogs/dialog_srtm.cpp:70-80 | a modified dialog is cleared and stays Accepted; an unmodified one becomes Rejected; the flag ends false and the values are untouched |
| Dialog.RunKeepsInvariant | GPXLab/dialogs/dialog_srtm.cpp:70-152 | over any sequence of fetches and accepts, each fetch with the database as it stands at that click, the title keeps mirroring the flag, and the flag is set only if it was already or some fetch succeeded |
| Dialog.RetryAfterInstallingTile | GPXLab/dialogs/dialog_srtm.cpp:180-188 | a fetch that misses leaves the dialog unmodified; repeating it once the database has every tile the track needs succeeds, marks the title and leaves one value per track point |

## Left out

- Qt widget construction, labels, sliders and plotting (lines 35-59, 154-199 of `GPXLab/dialogs/dialog_srtm.cpp`). This is UI wiring.
- The `SRTM` class (tile files, directory, download URL, file name) and the `QStandardPaths`/`mkpath` set-up (lines 27-33, 182-186). This is file I/O in a library that is not part of this model. The lookup is a parameter of the merge instead.
- The `GPX_wrapper` iteration API. The selected track is given directly as a sequence of segments.
- The `QUtils::movingAverage` smoothing passes (lines 170-171). Their source is not part of this model, and they are floating-point numerics. In the program, after a successful click (lines 165-171), `getValues` returns the smoothed values. The per-point equalities of `Dialog.Fetch` and `Dialog.GetValuesReportsLastRun` describe the values before smoothing, and the event `FetchData` leaves the smoothing pass out.
- Option values other than 0, 1 and 2. The radio buttons never produce them (lines 156-162).
- Merge.ValidateAltitude: does not model IEEE rounding of the ratio R/D near the bounds 0.9 and 1.1, because altitudes are exact reals here.
- Translation of the window title by `tr`. The title is the untranslated English text.
- Repeating a fetch with the same strategy on the same data gives the same values. This holds because the model is made of pure functions, so no lemma states it.
