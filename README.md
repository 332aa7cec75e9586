# SoFiAX detection reconciliation, modelled in Dafny

SoFiAX runs the SoFiA source finder over parts of a radio data cube. It then
merges each part's output catalogue into one PostgreSQL catalogue per run.
This project models the engine that reconciles a new detection (the
*candidate*) with the detections already stored for the run.

The engine works as follows:

- It keeps only candidates whose quality flag is accepted.
- It moves each candidate from the coordinates of its own region into the
  coordinates of the cube.
- It asks the store for the run's *neighbours* of the candidate: stored
  detections whose planar and spectral distances are within `sigma` times the
  combined position uncertainties.
- It then does one of the following:
  - inserts the candidate;
  - replaces the first neighbour that passes the *sanity check* (percentage
    differences of flux, ellipse axes, w20 and w50 within the run's
    thresholds), by flag priority or a tie-break;
  - keeps that neighbour;
  - inserts the candidate as *unresolved* and flags every neighbour for
    manual review.

Three versions of the engine appear side by side:

- the current one (`sofiax/merge.py` with `sofiax/db.py`);
- the rewrite (`src/merge.py` with `src/utils/sql.py`, `src/schema.py`,
  `src/utils/io.py`, `src/utils/calcs.py`);
- the first version (`sofiax/sofiax/merge.py`), which groups conflicting
  detections into *unresolved groups* instead of flags.

The review web application's own comparison of two stored detections
(`models.py`) is modelled too.

Modules, one per concern:

| module | file | what it holds |
|---|---|---|
| `Wrappers` | wrappers.dfy | `Option`, `Result` |
| `Calcs` | calcs.dfy | the percentage difference |
| `Sanity` | sanity.dfy | the sanity checks of the current and first versions |
| `Settings` | settings.dfy | threshold validation (`check_inputs`) |
| `Records` | records.dfy | detection dictionaries, the schemas and the null fill |
| `Products` | products.dfy | the size policy for product blobs |
| `Proximity` | proximity.dfy | the neighbour test and the exact-duplicate filter |
| `Store` | store.dfy | the tables as values, the store operations, and the class `Catalog` that performs them in place |
| `Merge` | merge.dfy | the per-candidate decision, its effect, and the engine on a `Catalog` |
| `Paths` | paths.dfy | parameter paths and the output file name |
| `Region` | region.dfy | the instance boundary, and the `run_merge` driver loop |
| `Legacy` | legacy.dfy | the first version, with its own ledger and its class `LegacyCatalog` |
| `Schema` | schema.dfy | the `Run` and `Instance` classes of the rewrite |
| `Web` | web.dfy | the web application's `sanity_check` and `is_match` |

Three things are parameters of the model:

- The tie-break. It is a coin drawn by the caller in the current version. In
  the rewrite it is an uninterpreted distance-from-edge function.
- The rewrite's sanity check. It is a function parameter of the `Policy`.
- The run date found in the catalogue. It is an `Option<string>`.

The store's serial counter and PostgreSQL transactions are modelled
explicitly. An atomic policy undoes every row an instance wrote, but the
serial counter keeps its advance, as a PostgreSQL sequence does. An insert
that meets a stored row of the same key uses up a serial value as well.

## Model

| member | source | states |
|---|---|---|
| Calcs.PercentageDifference | src/utils/calcs.py:8-13 | defined when the two values are not both zero; the result lies in [0, 200] and is 0 exactly when the values are equal |
| Calcs.PercentageDifferenceSymmetric | src/utils/calcs.py:8-13 | swapping the two values gives the same difference |
| Sanity.SanityCheck | sofiax/merge.py:98-143 | passes iff every difference is defined and at most its threshold (ell_maj and w20 against the max of their pair, ell_min and w50 against the min); an `Exceeds(q)` verdict names a quantity beyond its threshold with every earlier quantity (flux, ell_maj, ell_min, w20, w50) within; a division by zero only where a pair is both zero and every earlier stage was within |
| Sanity.JudgeVerdict | sofiax/merge.py:98-143 | the chain of comparisons, described without its order of tests: a pass iff all within; the first excess; a division by zero after earlier stages were within |
| Sanity.SanityCheckSymmetric | sofiax/merge.py:98-143 | the verdict does not change when the candidate and the stored detection are swapped in every pair |
| Sanity.ThresholdIsInclusive | sofiax/merge.py:103-107 | a difference exactly equal to its threshold passes |
| Sanity.FluxToleranceExample | sofiax/merge.py:100-107 | fluxes 100 and 90 differ by 200/19 per cent: they pass a threshold of 11 and fail one of 10 |
| Sanity.LegacySanityCheck | sofiax/sofiax/merge.py:26-60 | a zero second flux divides by zero; a pass iff the flux difference relative to \|f2\| and every other difference are within their thresholds; an excess names the first quantity, in the order flux, ell_maj, ell_min, w20, w50, that is beyond its threshold, every earlier one being within; a division by zero comes from an undefined difference whose earlier stages were all within |
| Sanity.LegacyFluxIsOrderDependent | sofiax/sofiax/merge.py:27-28 | the first version's flux test depends on argument order: (100, 90) fails a 10 per cent threshold and (90, 100) passes it |
| Settings.CheckInputs | sofiax/db.py:90-139 | succeeds iff flux is an int, uncertainty_sigma a positive int, and both extents are 2-tuples; the result carries exactly those values; for each key, once every earlier key (flux, uncertainty_sigma, spatial_extent, spectral_extent) passes, a failure of that key is the error, with its kind (missing, not an int, not positive, not a tuple, wrong length) |
| Settings.AcceptsTestThresholds | tests/tests_sofiax_arguments.py:17-22 | the thresholds of the project's test are accepted unchanged |
| Settings.FluxSignIsNotChecked | sofiax/db.py:90-139 | any int flux is accepted, while a non-positive sigma is rejected |
| Settings.LegacyCheckInputs | sofiax/sofiax/merge.py:64-87 | succeeds iff flux is an int and both extents are 2-tuples; never fails on uncertainty_sigma; the first failing key of flux, spatial_extent, spectral_extent is the error, with its kind |
| Settings.CheckInputsRefinesLegacy | sofiax/sofiax/merge.py:64-87 | whatever the current check accepts, the first version accepts with the same limits; they disagree only on uncertainty_sigma |
| Records.FillNulls | sofiax/db.py:337-343 | the run id, instance id and unresolved flag are set from the arguments; every schema key is present afterwards; a present value is never changed; every added key holds None |
| Products.CheckBytea | sofiax/db.py:258-263 | a blob is kept (and counted with its size) iff its size is strictly below MAX_BYTEA; otherwise it is dropped and counted as 0 |
| Products.CapProducts | sofiax/db.py:266-328 | no product row iff the total exceeds the limit and the moment-map-and-spectrum fallback total is not below it; a kept row holds each checked blob, with cube, mask and channel map dropped exactly when the first total exceeds the limit |
| Products.CappedBlobsFit | sofiax/db.py:301-310 | every written blob is below the limit; without the fallback the counted blobs together fit; with it the moment maps and spectrum fit |
| Products.PvSurvivesTheFallback | sofiax/db.py:301-310 | the fallback keeps the pv slice it does not count, so the written blobs can exceed the limit |
| Products.MomentTwoIsNotCounted | sofiax/db.py:301-310 | mom2 is never counted: a near-limit mom2 is written beside a full product |
| Proximity.IsNeighbourSymmetric | sofiax/db.py:232-237 | the neighbour test does not depend on which detection is the candidate |
| Proximity.PlanarNearWithoutDivision | sofiax/db.py:232-234 | the same planar position is always near; otherwise near iff dist⁴ ≤ σ²·weight (the divisor replaces 0 by 1) |
| Proximity.RootFormAgrees | sofiax/db.py:232-234 | the query's square-root form of the planar test decides exactly what the squared form decides |
| Proximity.SpectralRootFormAgrees | sofiax/db.py:236-237 | the same for the spectral test \|Δz\| ≤ σ·sqrt(ez₁² + ez₂²) |
| Proximity.WithoutFirstExact | sofiax/db.py:250-254 | at most one row is dropped, and every returned row is one of the input rows |
| Proximity.WithoutFirstExactKeepsAll | sofiax/db.py:250-254 | with no row at the candidate's exact position the rows come back unchanged |
| Proximity.WithoutFirstExactDropsFirst | sofiax/db.py:250-254 | when the i-th row is the first at the candidate's exact position, exactly that row is removed and the others keep their order |
| Proximity.DropFirstExact | sofiax/db.py:250-254 | the pop-and-break loop computes `WithoutFirstExact` |
| Proximity.OnlyFirstExactIsDropped | sofiax/db.py:250-254 | a second exact duplicate, and every row at another position, is still returned |
| Store.UpsertOutcome | sofiax/db.py:345-365 | with no row of the same key, one row with the next serial id is appended and that id returned; with one, nothing is added, its id is returned, and only its ra (and, on this conflict policy, its unresolved flag) changes; either way one serial value is used up |
| Store.UpsertKeepsWellFormed | sofiax/db.py:361-364 | the insert keeps ids ascending and below the serial counter, and keys unique |
| Store.UpsertIsIdempotent | sofiax/db.py:361-364 | inserting the same detection twice gives the rows and id of one insert; the second insert only uses up one more serial value |
| Store.UpsertKeepsOtherRows | sofiax/db.py:345-365 | every row of another key survives unchanged and no id disappears |
| Store.UpsertProductKeepsStored | sofiax/db.py:312-319 | a stored product is never replaced; only the given id can be added, and is added when new |
| Store.DeleteRemovesOnlyThatId | sofiax/db.py:393-397 | exactly the rows with that id are removed; nothing else changes; tables stay well formed |
| Store.DeleteKeepsOtherRows | sofiax/db.py:393-397 | every other row survives and the id set loses exactly that id |
| Store.SetUnresolvedTouchesOnlyListed | sofiax/db.py:400-408 | exactly the listed rows get the new flag; every row keeps its place, id, key and columns |
| Store.SetUnresolvedKeepsWellFormed | sofiax/db.py:400-408 | the update keeps the tables well formed |
| Store.SetUnresolvedKeepsOtherRows | sofiax/db.py:400-408 | unlisted rows survive unchanged, the id set is unchanged, and listed rows carry the value |
| Store.NeighboursAreNearbyRowsOfTheRun | sofiax/db.py:226-248 | the query returns exactly the rows of the run that pass the neighbour test |
| Store.NeighboursAscending | sofiax/db.py:226-248 | over rows in ascending id order the query's answer is in ascending id order |
| Store.UpsertInstanceOutcome | sofiax/db.py:180-214 | an equal instance's id is returned and nothing changes; otherwise the instance is appended; instances stay unique and detections are untouched |
| Store.Catalog.SourceMatch | sofiax/db.py:217-255 | the scan returns the run's neighbours less the first exact duplicate, that is, `Matches` of the current tables |
| Store.Catalog.FindKey | sofiax/db.py:361-363 | the scan for a stored row of the same conflict key returns the first one, as `IndexOfKey` defines it |
| Store.IndexOfKeyAbsent | sofiax/db.py:361-363 | with no stored row of the key, no conflict is found |
| Store.IndexOfKeyFirst | sofiax/db.py:361-363 | the conflict found is the first stored row of the key |
| Store.Catalog.InsertDetection | sofiax/db.py:331-390 | the tables and id are those of `Insert` on the old tables; validity is kept; the counter never decreases |
| Store.Catalog.UpsertRow | sofiax/db.py:344-365 | the tables and id are those of `Upsert` on the old tables: the row is appended or its namesake updated, and a serial value is used up |
| Store.Catalog.DeleteDetection | sofiax/db.py:393-397 | the tables become `Delete` of the old tables, and validity is kept |
| Store.Catalog.UpdateUnresolved | sofiax/db.py:400-408 | the tables become `SetUnresolved` of the old tables, and validity is kept |
| Store.Catalog.RegisterInstance | sofiax/db.py:180-214 | the tables and id are those of `UpsertInstance`, and validity is kept |
| Merge.Absolute | sofiax/merge.py:224-231 | x, y and z are offset by boundary[0], [2] and [4]; the id column is removed; nothing else changes |
| Merge.Resolve | sofiax/merge.py:285-309 | the neighbour is replaced iff the candidate is flag 0 against flag 4, or the flags are equal (0 or 4) and the tie is won; a replacement takes over the neighbour's unresolved flag; otherwise the neighbour is kept |
| Merge.Decide | sofiax/merge.py:219-326 | a failure comes only from an accepted candidate; any decision other than a skip has a boundary of at least five entries |
| Merge.FilteredCandidateChangesNothing | sofiax/merge.py:219-222 | a candidate whose flag is not accepted is skipped and leaves the tables unchanged |
| Merge.DirectImportInsertsResolved | sofiax/merge.py:245-254 | without merging, an accepted candidate is inserted as resolved and nothing else is touched |
| Merge.NoNeighbourInsertsResolved | sofiax/merge.py:260-266 | with no neighbours the candidate is inserted as resolved |
| Merge.ScanOutcome | sofiax/merge.py:271-312 | the scan is decided by the first neighbour whose check is not an excess: a pass resolves against it, a division by zero fails; when every check exceeds, nothing is decided |
| Merge.FlagPriority | sofiax/merge.py:285-296 | flag 0 always replaces flag 4 and flag 4 never replaces flag 0, whatever the tie-break |
| Merge.EqualDistanceKeeps | src/merge.py:141-151 | with the distance tie-break, only a strictly farther candidate replaces the stored one |
| Merge.StepTouchesOnlyItsRows | sofiax/merge.py:256-326 | a step keeps the tables well formed; at most the replaced neighbour's id disappears; other rows of other keys survive unchanged; flagged rows carry the flag; a skip or keep changes nothing |
| Merge.ApplyTouchesOnlyItsRows | sofiax/merge.py:285-326 | the same for the writes of any plan, given the candidate's absolute position |
| Merge.ReplaceTouchesOnlyItsRows | sofiax/merge.py:285-305 | a delete then an insert keeps the tables well formed and loses only the victim and rows of the inserted key |
| Merge.UnresolvedFlagsEveryNeighbour | sofiax/merge.py:314-326 | an unresolved candidate flags exactly the ids of all its neighbours, each of which failed the check |
| Merge.ReplacedRowIsFirstPassingNeighbour | sofiax/merge.py:271-312 | a replaced row is the first neighbour whose check passed, and its unresolved flag is the one inherited |
| Merge.RunFromKeepsWellFormed | sofiax/merge.py:207-326 | processing an instance's candidates in order keeps the tables well formed |
| Merge.Perform | sofiax/merge.py:285-326 | the writes of a plan leave the catalogue equal to `Apply` of the old tables, keep validity, and never decrease the counter |
| Merge.ScanNeighbours | sofiax/merge.py:271-312 | the loop over the neighbours returns what `Scan` decides on the current tables |
| Merge.ProcessCandidate | sofiax/merge.py:219-326 | returns `Decide` of the old tables; on success the catalogue is the `Step` result; on failure it is unchanged |
| Merge.MergeInstance | sofiax/merge.py:174-326 | no run date writes nothing; otherwise the instance is registered and candidates are run in order until one fails; an atomic failure restores every table but the counter, and a non-atomic one keeps earlier candidates |
| Paths.Basename | src/utils/io.py:57-65 | the result has no '/', is a suffix of the path, and is preceded by '/' when shorter |
| Paths.BasenameOfJoin | src/utils/io.py:62-64 | the basename of dir + "/" + name is name |
| Paths.StripExt | src/utils/io.py:73-75 | the result is a prefix of the name and ends just before its last '.'; a name with a dot that has a non-dot before it loses its extension |
| Paths.GetParameter | src/utils/io.py:57-65 | fails iff the key is missing; an absolute value is returned unchanged; a relative one becomes cwd + "/" + its basename |
| Paths.ResolvedPathKeepsFileName | src/utils/io.py:57-65 | the resolved path keeps the file name, is absolute when cwd is, and resolves to itself |
| Paths.RelativeDirectoriesAreDropped | src/utils/io.py:62-64 | "data/cube.fits" read from "/work" is "/work/cube.fits" |
| Paths.OutputFilename | src/utils/io.py:68-76 | input.data then output.filename must be present; a non-empty name is returned as is; an empty one becomes the input's basename less its extension |
| Paths.DerivedOutputFilenameIsStem | src/utils/io.py:73-75 | a derived name has no '/' and is a prefix of the input's file name |
| Paths.OutputFilenameIgnoresCwd | src/utils/io.py:68-76 | the output file name does not depend on the working directory |
| Paths.FromConf | src/utils/io.py:46-54 | fails iff the looked-up value (or the fallback) is None; otherwise returns that value |
| Region.Strip | sofiax/merge.py:360-364 | no longer than the input; no leading or trailing space |
| Region.StripTrims | sofiax/merge.py:360-364 | the result is an infix of the input with only spaces outside it |
| Region.FrequencyAxis | sofiax/merge.py:357-370 | NAXIS4 when CTYPE4 is FREQ; otherwise NAXIS3 when CTYPE3 is; otherwise the axis carried over from an earlier file |
| Region.IntCardOf | sofiax/merge.py:354-355 | succeeds iff the card is present and an integer |
| Region.HeaderBoundary | sofiax/merge.py:351-374 | [0, NAXIS1-1, 0, NAXIS2-1, 0, NAXISf-1] when every card reads; no frequency axis is an error of its own |
| Region.HeaderBoundaryShape | sofiax/merge.py:366-374 | six entries with a zero lower corner; CTYPE4 = FREQ wins over CTYPE3 |
| Region.FreshHeaderBoundary | sofiax/merge.py:357-372 | read from a header alone, a boundary exists only if the header names a FREQ axis |
| Region.StaleFrequencyAxis | sofiax/merge.py:341-372 | a VRAD cube after a FREQ cube gets a boundary from the stale axis, which the fresh reading refuses |
| Region.Split | sofiax/merge.py:376 | at least one piece, none holding ','; joining them gives the input back |
| Region.SplitJoin | sofiax/merge.py:376 | splitting joined comma-free pieces gives the pieces back |
| Region.ParseInt | sofiax/merge.py:376 | accepts exactly an optional sign followed by at least one digit |
| Region.ParseAll | sofiax/merge.py:376 | success parses every piece; failure names a piece int() refuses |
| Region.Boundary | sofiax/merge.py:348-376 | input.data is required; a missing or empty input.region uses this file's header (with the frequency-axis correction below), any other is parsed |
| Region.RegionRoundTrip | sofiax/merge.py:376 | parsing a written region gives the boundary back |
| Region.Dispose | sofiax/merge.py:441-460 | merge iff the return code is None or 0; stop quietly iff it is 8; any other code raises |
| Region.FirstUnmerged | sofiax/merge.py:341-342 | every earlier file is merged; the file at that index, if any, is not |
| Region.RunMerge | sofiax/merge.py:341-460 | the files merged are exactly the ones before the first non-merging code, in order; the run ends as `Ending` says |
| Region.NothingAfterAStop | sofiax/merge.py:456-458 | after a return code of 8 no later file is merged and the run does not complete |
| Legacy.LegacyPrepare | sofiax/sofiax/merge.py:63-123 | succeeds exactly when the thresholds are accepted, input.data and output.directory are present and absolute, output.filename is present, the run date is found and input.region is present and parses; the limits and region are returned; a missing key, a relative path, a missing run date, a region int() refuses and rejected thresholds are each reported as such |
| Legacy.RegionIsRequired | sofiax/sofiax/merge.py:123 | without input.region the first version fails, with no header fallback |
| Legacy.MatchesIn | sofiax/sofiax/merge.py:141 | the query returns exactly the stored rows of the run near the candidate at a different x, y and z |
| Legacy.DecideOn | sofiax/sofiax/merge.py:131-173 | flags other than 0 and 4 are ignored; no match is inserted; with one match, a failed check joins the match's group, or founds a new group with it when it has none, a passed check swaps exactly when the candidate is flagged 0 and the match 4 and otherwise leaves the candidate out, and a zero divisor refuses it; with several, the candidate joins their group exactly when they share one, and otherwise the refusal names all their groups |
| Legacy.LegacyApplyOutcome | sofiax/sofiax/merge.py:143-173 | the ledger stays valid; a group serial is used up only by a new pair; an ignored or left candidate changes nothing; a stored one is the last row under the next id, in the group it joins (none for an insert or a swap, the match's group, or the new group); the rows before it are exactly the old rows the plan keeps, in order, as it leaves them (nothing else is added); every row the plan does not touch is unchanged, group included; the partner of a new pair moves into the new group; only a swap's victim disappears |
| Legacy.RegroupOutcome | sofiax/sofiax/merge.py:155 | regrouping keeps every row in place with its id, run and columns; the listed rows move to the group and every other row is unchanged |
| Legacy.RegroupKeepsValid | sofiax/sofiax/merge.py:155 | moving rows into a handed-out group keeps the ledger valid |
| Legacy.LegacyRunKeepsValid | sofiax/sofiax/merge.py:129-173 | a run of candidates keeps the ledger valid and never hands out a serial twice |
| Legacy.CollectGroups | sofiax/sofiax/merge.py:165-167 | the loop collects exactly the groups of the matches |
| Legacy.LegacyCatalog.SourceMatch | sofiax/sofiax/merge.py:141 | returns `MatchesIn` of the stored rows |
| Legacy.LegacyCatalog.InsertDetection | sofiax/sofiax/merge.py:144 | appends the candidate under the next serial id |
| Legacy.LegacyCatalog.DeleteDetection | sofiax/sofiax/merge.py:161 | removes exactly the rows with that id |
| Legacy.LegacyCatalog.UpdateGroup | sofiax/sofiax/merge.py:155 | the listed rows join the group |
| Legacy.LegacyCatalog.NewGroup | sofiax/sofiax/merge.py:157 | the next group value is handed out and the listed rows join it |
| Legacy.LegacyCatalog.MergeCandidate | sofiax/sofiax/merge.py:140-173 | returns `LegacyDecide` of the old ledger; on success the ledger is `LegacyApply`; on failure it is unchanged |
| Legacy.LegacyCatalog.MergeRows | sofiax/sofiax/merge.py:129-173 | the ledger and error are those of `LegacyRun` of the old ledger |
| Schema.Run.NewRun | src/schema.py:49-110 | a run is made iff `check_inputs` accepts the thresholds, and then has no id yet; otherwise the check's error is returned |
| Schema.Encode | src/schema.py:139-157 | the dictionary has exactly the thirteen instance keys |
| Schema.DecodeEncode | src/schema.py:139-157 | reading the dictionary back gives the instance |
| Schema.EncodeIsInjective | src/schema.py:139-157 | two instances with equal dictionaries are equal |
| Schema.Instance.constructor | src/schema.py:113-137 | every field is set from its argument and the id is None |
| Schema.Instance.AsDict | src/schema.py:139-157 | exactly the thirteen keys, from which the current fields read back |
| Web.Guard | sofiax/web/sofiax_web/sofiax_detections/models.py:60-64 | a comparison proceeds iff the ids differ and the runs agree |
| Web.WebSanityCheck | sofiax/web/sofiax_web/sofiax_detections/models.py:59-107 | the same detection or another run is refused; a zero flux of the other detection divides by zero; a pass iff the flux difference relative to the other flux and every extent difference are within thresholds; an excess names the first quantity beyond its threshold, every earlier one being within and its stage's two differences defined; a division by zero comes from an undefined difference whose earlier stages were all within |
| Web.WebSanityCheckIsOrderDependent | sofiax/web/sofiax_web/sofiax_detections/models.py:68-71 | fluxes 100 and 90 fail a 10 per cent threshold one way round and not the other |
| Web.WebIsMatch | sofiax/web/sofiax_web/sofiax_detections/models.py:109-126 | on the rows the ORM loads: refusals as above; a match exactly when the two positions are identical; every other guarded pair raises TypeError (float divided by Decimal) |
| Web.WebIsMatchNeverRejects | sofiax/web/sofiax_web/sofiax_detections/models.py:109-126 | on stored rows is_match never answers "no", and where it answers it agrees with the float reading |
| Web.FloatIsMatch | sofiax/web/sofiax_web/sofiax_detections/models.py:109-126 | on float values: refusals as above; the same position matches; otherwise a zero planar distance divides by zero, and for a nonzero one the result is a match exactly when D³ ≤ 9N and the spectral test holds |
| Web.WebRootFormAgrees | sofiax/web/sofiax_web/sofiax_detections/models.py:119-126 | the written root form decides exactly D³ ≤ 9N |
| Web.WebIsNeighbourSquared | sofiax/web/sofiax_web/sofiax_detections/models.py:119-126 | the intended test (the store's, with σ = 3) is D² ≤ 9N plus the spectral test |
| Web.FloatIsMatchMissesNeighbour | sofiax/web/sofiax_web/sofiax_detections/models.py:119-126 | on float values, two unit-uncertainty detections 4 pixels apart are neighbours but do not match |
| Web.FloatIsMatchAcceptsNonNeighbour | sofiax/web/sofiax_web/sofiax_detections/models.py:119-126 | on float values, two detections half a pixel apart with uncertainty 0.1 match but are not neighbours |
| Web.WebIsMatchRaisesOnNeighbours | sofiax/web/sofiax_web/sofiax_detections/models.py:120-122 | two stored unit-uncertainty detections 4 pixels apart are neighbours, yet is_match raises TypeError on them |
| Web.IntendedIsMatch | sofiax/web/sofiax_web/sofiax_detections/models.py:109-126 | only the guards refuse; a match exactly when the positions are identical or the store's neighbour test with sigma 3 holds |
| Web.IntendedIsMatchSymmetric | sofiax/web/sofiax_web/sofiax_detections/models.py:109-126 | the intended comparison gives the same answer whichever detection asks |

## Left out

- File and network I/O is not modelled: VOTable/XML parsing, FITS reading, product files, SQL text, asyncio, logging, the subprocess running SoFiA, and date parsing. Catalogue rows, blobs, headers, the run date and return codes are inputs instead.
- Concurrency is not modelled: the run lock (`db_lock_run`) and `FOR UPDATE`. A transaction is modelled as restoring the tables.
- The run upsert (`db_run_upsert`) is not modelled, nor the first version's observation, run and instance inserts. A run id is an input.
- The instance upsert's update of the non-key columns (run date, logs, version and so on) is not modelled. An instance row holds only its key (run, file name, boundary), and its id is its position, so a rolled-back instance does not use up a serial value.
- NULL key columns are not modelled. PostgreSQL treats them as never equal, so a key with a NULL column never collides.
- The product rows are not deleted in cascade when their detection is deleted.
- The parsing of catalogue text into numbers is not modelled: the "nan" handling and `float()`, and the first version's cast loop. Detections arrive typed, and the catalogue id is assumed present.
- `int()` of region pieces accepts surrounding whitespace and `_` separators. The model accepts only a sign and digits. `int()` of a string FITS card is not modelled: only integer cards read.
- Region.Strip: removes spaces only, not every whitespace character that `str.strip` removes.
- The rewrite's `sanity_check` and `_distance_from_cube_boundary` (from src/utils/calcs.py) are not part of this model. They are function parameters of the policy.
- The first version's `db_unresolved_insert` and `db_update_detection_unresolved_id` are not part of this model. Their effect is taken from their names and from how the merge uses them: a new group holding the listed rows, and moving the listed rows into a group.
  - The first version's inserts are plain appends. Its own `db_detection_insert` (sofiax/sofiax/db.py:62-75) has an ON CONFLICT clause and a signature that does not match the call at sofiax/sofiax/merge.py:144. The model assumes a revision of that insert not in view, taking two arguments and always adding a row.
  - Its match order is the table order, because that query has no ORDER BY in view.
- Const.FULL_SCHEMA (sofiax/db.py:28-79) lacks `y_max` and `ell3s_min`, which the insert reads. This model completes the listed keys only, as the code does. The KeyError the insert would then raise is not modelled.
- The exact-duplicate filter of `db_source_match` drops only the first row at the candidate's position. The model follows this code, not a reading in which no exact duplicate is ever returned.
- Region.RunMerge: models only how each file's return code ends or continues the run. A merge that itself raises also ends the run in the source, which is not modelled.
- Schema.Instance: the run date is a string, not a `datetime`.
- The web application's views, admin actions and URL routing are not modelled, nor the command-line entry points.
- Python floats, and the web application's Decimal values, are modelled as exact real numbers. Rounding is not modelled, so a difference that lands exactly on its threshold passes in the model but may fall on either side in the source. The same holds where the model squares both sides of a comparison to avoid a square root (`WebPlanarNear`, `IsNeighbour`).
- Web.WebSanityCheck: `ZeroDivision` also stands for the `decimal.InvalidOperation` that a 0/0 of Decimal values raises (a nonzero numerator over zero raises `decimal.DivisionByZero`, a ZeroDivisionError).
- The first version's refusal `ZeroDivisor` stands for any ZeroDivisionError of the first version's sanity check, whichever of the five differences raised it.
- Merge.Decide: its own contract states only the error and boundary conditions. Its meaning is stated by `ScanOutcome`, `Resolve`, the case lemmas beside it, and `ProcessCandidate`.

## Findings

| source | as written | input that shows it | evidently intended | confidence | as-written member | corrected member |
|---|---|---|---|---|---|---|
| sofiax/sofiax/merge.py:28 | the flux difference divides by (\|f2\| + \|f2\|)/2 | fluxes (100, 90) at a 10 per cent threshold fail, while (90, 100) pass | the mean of both magnitudes, (\|f1\| + \|f2\|)/2, as for every other quantity | not executed | Sanity.LegacyFluxIsOrderDependent | Sanity.SanityCheckSymmetric |
| sofiax/web/sofiax_web/sofiax_detections/models.py:71 | the flux difference divides by (\|f2\| + \|f2\|)/2 | self flux 100, other flux 90, threshold 10: fails; swapped: passes | the symmetric formula of sofiax/merge.py:101 | not executed | Web.WebSanityCheckIsOrderDependent | Sanity.SanityCheckSymmetric |
| sofiax/web/sofiax_web/sofiax_detections/models.py:119-126 | on float-valued fields, the planar uncertainty's root is divided by D instead of the root of D, giving D³ ≤ 9N | unit uncertainties 4 px apart: neighbours but no match; uncertainties 0.1 at 0.5 px: a match but not neighbours | the store's test with σ = 3, D² ≤ 9N | not executed | Web.FloatIsMatchMissesNeighbour | Web.WebIsNeighbourSquared |
| sofiax/web/sofiax_web/sofiax_detections/models.py:120-122 | `math.sqrt(...)` (a float) is divided by a sum of DecimalField values (models.py:23-52), which raises TypeError for every pair at different positions | two stored detections of one run, 4 px apart with unit uncertainties: neighbours, yet TypeError | a comparison in one number type: identical positions or the store's test with σ = 3 | not executed | Web.WebIsMatchRaisesOnNeighbours | Web.IntendedIsMatch |
| sofiax/merge.py:357-372 | `freq_axis` is assigned only when an axis is FREQ and keeps its value across parameter files | a cube with CTYPE3 = VRAD after a FREQ cube gets [0, 9, 0, 19, 0, 63] from the stale NAXIS3 | no FREQ axis is an error for that file | not executed | Region.StaleFrequencyAxis | Region.FreshHeaderBoundary |

`Region.Boundary` uses the corrected header reading. `Region.HeaderBoundary` with a carried axis keeps the behaviour as written.
