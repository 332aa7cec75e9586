/** The per-candidate reconciliation of a source-finder instance against the
    catalogue of its run (match_merge_detections of sofiax/merge.py and
    merge_match_detection of src/merge.py). For every accepted candidate the
    engine either imports it directly, inserts it as new, replaces one
    catalogued neighbour, keeps the neighbour and drops the candidate, or
    inserts it as unresolved and flags every neighbour for manual review.

    `Decide` and `Step` say what happens to one candidate; `ProcessCandidate`
    performs it on a `Catalog` and is proved against them; `MergeInstance`
    runs the candidates of one instance in order. */
module Merge {
  import opened Wrappers
  import opened Records
  import opened Sanity
  import opened Settings
  import opened Products
  import opened Proximity
  import opened Store

  /** How a tie between a candidate and a neighbour of the same flag is
      broken: a random bit drawn by the caller (sofiax/merge.py), or the
      distance from the edge of each detection's own region (src/merge.py),
      a function the model leaves uninterpreted. */
  datatype Tie =
    | Coin(heads: bool)
    | FartherFromEdge(distance: (Detection, seq<int>) -> real)

  /** The settings that distinguish the two versions of the engine:
      accepted quality flags, whether to merge at all, the neighbour
      multiplier, the sanity check, what a key collision updates, whether
      product blobs are capped, and whether a failure undoes the whole
      instance (one transaction) or only the failing candidate. */
  datatype Policy = Policy(
    qualityFlags: set<int>,
    performMerge: bool,
    sigma: int,
    check: (Detection, Detection) -> Verdict,
    conflict: Conflict,
    capProducts: bool,
    atomic: bool)

  /** The sanity check of sofiax/merge.py on a candidate and a neighbour. */
  function Compare(limits: Limits, c: Detection, e: Detection): Verdict
  {
    SanityCheck((c.fSum, e.fSum), (c.ellMaj, e.ellMaj, c.ellMin, e.ellMin), (c.w20, e.w20, c.w50, e.w50), limits)
  }

  /** sofiax/merge.py with sofiax/db.py. */
  function CurrentPolicy(thresholds: Thresholds, qualityFlags: set<int>, performMerge: bool): Policy
  {
    Policy(qualityFlags, performMerge, thresholds.sigma, (c, e) => Compare(thresholds.limits, c, e),
           RaAndUnresolved, true, true)
  }

  /** src/merge.py with src/utils/sql.py: flags 0 and 4 only, always merging,
      a sanity check not part of this model, and one transaction per candidate. */
  function RewritePolicy(thresholds: Thresholds, check: (Detection, Detection) -> Verdict): Policy
  {
    Policy({0, 4}, true, thresholds.sigma, check, RaOnly, false, false)
  }

  /** One row of the instance's output catalogue, with its product files. */
  datatype Candidate = Candidate(detection: Detection, blobs: Blobs)

  datatype MergeError =
    | BoundaryTooShort          // instance.boundary[4] raises IndexError
    | CheckFailed(existing: nat) // the sanity check divided by zero
    | NoRunDate                 // the catalogue has no Time parameter

  /** What the engine decides for one candidate. */
  datatype Plan =
    | Skip                                  // its flag is not accepted
    | Import                                // direct import, no matching
    | Fresh                                 // no neighbours
    | Replace(victim: nat, unresolved: bool) // replaces a neighbour, taking over its flag
    | Keep(existing: nat)                   // a neighbour stays, the candidate is dropped
    | Unresolved(neighbours: seq<nat>)      // inserted for manual review with its neighbours

  /** The candidate in cube coordinates: the catalogue id removed and x, y, z
      offset by the lower corner of the instance's region. */
  function Absolute(d: Detection, boundary: seq<int>): (s: Detection)
    requires |boundary| >= 5
    ensures s.x - d.x == boundary[0] as real && s.y - d.y == boundary[2] as real && s.z - d.z == boundary[4] as real
    ensures "id" !in s.rest && (forall k :: k in d.rest && k != "id" ==> k in s.rest && s.rest[k] == d.rest[k])
    ensures s.rest.Keys <= d.rest.Keys
    ensures s.(x := d.x, y := d.y, z := d.z, rest := d.rest) == d
  {
    d.(x := d.x + boundary[0] as real, y := d.y + boundary[2] as real, z := d.z + boundary[4] as real,
       rest := d.rest - {"id"})
  }

  /** The product row the insert writes: capped by the bytea policy
      (sofiax/db.py), or every file as read and no position-velocity slice
      (src/utils/sql.py). */
  function ProductFor(policy: Policy, b: Blobs): Option<Product>
  {
    if policy.capProducts then CapProducts(b)
    else Some(Product(Some(b.cube), Some(b.mask), Some(b.mom0), Some(b.mom1), Some(b.mom2),
                      Some(b.chan), Some(b.spec), None))
  }

  /** The region boundary of the instance a stored row came from. */
  function EdgeOf(t: Tables, e: Row): seq<int>
  {
    if e.instanceId < |t.instances| then t.instances[e.instanceId].boundary else []
  }

  /** Whether the candidate wins a tie against the neighbour. */
  predicate TieWon(tie: Tie, s: Detection, boundary: seq<int>, e: Row, t: Tables)
  {
    match tie
    case Coin(heads) => heads
    case FartherFromEdge(distance) => distance(s, boundary) > distance(e.detection, EdgeOf(t, e))
  }

  /** The decision against the first neighbour that passes the sanity check:
      a flag-0 candidate replaces a flag-4 neighbour; on equal flags (both 0
      or both 4) the tie decides; in every other case the neighbour stays. A
      replacement takes over the neighbour's unresolved flag. */
  function Resolve(s: Detection, e: Row, tie: Tie, boundary: seq<int>, t: Tables): (p: Plan)
    ensures p == Replace(e.id, e.unresolved) || p == Keep(e.id)
    ensures p.Replace? <==>
      || (s.flag == 0 && e.detection.flag == 4)
      || (s.flag == e.detection.flag && s.flag in {0, 4} && TieWon(tie, s, boundary, e, t))
  {
    if s.flag == 0 && e.detection.flag == 4 then Replace(e.id, e.unresolved)
    else if (s.flag == 0 && e.detection.flag == 0) || (s.flag == 4 && e.detection.flag == 4) then
      if TieWon(tie, s, boundary, e, t) then Replace(e.id, e.unresolved) else Keep(e.id)
    else Keep(e.id)
  }

  /** The scan over the neighbours: the first that passes decides, a check
      that divides by zero fails the candidate, and None means none passed. */
  function Scan(result: seq<Row>, s: Detection, policy: Policy, tie: Tie, boundary: seq<int>, t: Tables)
    : Result<Option<Plan>, MergeError>
  {
    if |result| == 0 then Success(None)
    else match policy.check(s, result[0].detection)
      case DivisionByZero => Failure(CheckFailed(result[0].id))
      case Pass => Success(Some(Resolve(s, result[0], tie, boundary, t)))
      case Exceeds(_) => Scan(result[1..], s, policy, tie, boundary, t)
  }

  /** What the engine decides for a candidate against the tables `t`. */
  function Decide(t: Tables, policy: Policy, runId: int, boundary: seq<int>, c: Candidate, tie: Tie)
    : (r: Result<Plan, MergeError>)
    ensures r.Success? && !r.value.Skip? ==> |boundary| >= 5
    ensures r.Failure? ==> c.detection.flag in policy.qualityFlags
  {
    if c.detection.flag !in policy.qualityFlags then Success(Skip)
    else if |boundary| < 5 then Failure(BoundaryTooShort)
    else
      var s := Absolute(c.detection, boundary);
      if !policy.performMerge then Success(Import)
      else
        var result := Matches(t, runId, s, policy.sigma);
        if |result| == 0 then Success(Fresh)
        else match Scan(result, s, policy, tie, boundary, t)
          case Failure(e) => Failure(e)
          case Success(None) => Success(Unresolved(Ids(result)))
          case Success(Some(p)) => Success(p)
  }

  /** The tables after carrying out a plan for the candidate `s`. */
  function Apply(t: Tables, policy: Policy, runId: int, instanceId: nat, s: Detection, b: Blobs, plan: Plan): Tables
  {
    var p := ProductFor(policy, b);
    match plan
    case Skip => t
    case Keep(_) => t
    case Import => Insert(t, runId, instanceId, s, false, policy.conflict, p).0
    case Fresh => Insert(t, runId, instanceId, s, false, policy.conflict, p).0
    case Replace(victim, unresolved) => Insert(Delete(t, victim), runId, instanceId, s, unresolved, policy.conflict, p).0
    case Unresolved(ids) => SetUnresolved(Insert(t, runId, instanceId, s, true, policy.conflict, p).0, true, ids)
  }

  /** One candidate: its decision, then its effect on the tables. */
  function Step(t: Tables, policy: Policy, runId: int, instanceId: nat, boundary: seq<int>, c: Candidate, tie: Tie)
    : Result<Tables, MergeError>
  {
    match Decide(t, policy, runId, boundary, c, tie)
    case Failure(e) => Failure(e)
    case Success(plan) =>
      if plan.Skip? then Success(t)
      else Success(Apply(t, policy, runId, instanceId, Absolute(c.detection, boundary), c.blobs, plan))
  }

  /** The candidates of an instance from the k-th on, stopping at the first
      failure: the final tables and the error, if any. */
  function RunFrom(t: Tables, policy: Policy, instanceId: nat, instance: InstanceRow, cs: seq<Candidate>,
                   ties: nat -> Tie, k: nat): (Tables, Option<MergeError>)
    requires k <= |cs|
    decreases |cs| - k
  {
    if k == |cs| then (t, None)
    else match Step(t, policy, instance.runId, instanceId, instance.boundary, cs[k], ties(k))
      case Failure(e) => (t, Some(e))
      case Success(t1) => RunFrom(t1, policy, instanceId, instance, cs, ties, k + 1)
  }

  // ---------------------------------------------------------------------
  // What one candidate does

  /** A candidate whose flag is not accepted changes nothing. */
  lemma FilteredCandidateChangesNothing(t: Tables, policy: Policy, runId: int, instanceId: nat,
                                        boundary: seq<int>, c: Candidate, tie: Tie)
    requires c.detection.flag !in policy.qualityFlags
    ensures Decide(t, policy, runId, boundary, c, tie) == Success(Skip)
    ensures Step(t, policy, runId, instanceId, boundary, c, tie) == Success(t)
  {
  }

  /** Without merging, an accepted candidate is inserted as resolved and no
      neighbour is looked up, deleted or flagged. */
  lemma DirectImportInsertsResolved(t: Tables, policy: Policy, runId: int, instanceId: nat,
                                    boundary: seq<int>, c: Candidate, tie: Tie)
    requires c.detection.flag in policy.qualityFlags && |boundary| >= 5 && !policy.performMerge
    ensures Decide(t, policy, runId, boundary, c, tie) == Success(Import)
    ensures Step(t, policy, runId, instanceId, boundary, c, tie) ==
      Success(Insert(t, runId, instanceId, Absolute(c.detection, boundary), false, policy.conflict,
                     ProductFor(policy, c.blobs)).0)
  {
  }

  /** With no neighbour, the candidate is inserted as resolved. */
  lemma NoNeighbourInsertsResolved(t: Tables, policy: Policy, runId: int, instanceId: nat,
                                   boundary: seq<int>, c: Candidate, tie: Tie)
    requires c.detection.flag in policy.qualityFlags && |boundary| >= 5 && policy.performMerge
    requires Matches(t, runId, Absolute(c.detection, boundary), policy.sigma) == []
    ensures Decide(t, policy, runId, boundary, c, tie) == Success(Fresh)
    ensures Step(t, policy, runId, instanceId, boundary, c, tie) ==
      Success(Insert(t, runId, instanceId, Absolute(c.detection, boundary), false, policy.conflict,
                     ProductFor(policy, c.blobs)).0)
  {
  }

  /** The scan ends at the first neighbour whose check does not report an
      excess: a pass decides by `Resolve`, a division by zero fails; when
      every check reports an excess, nothing is decided. */
  lemma {:induction false} ScanOutcome(result: seq<Row>, s: Detection, policy: Policy, tie: Tie,
                                       boundary: seq<int>, t: Tables)
    ensures var r := Scan(result, s, policy, tie, boundary, t);
      && (r == Success(None) <==> forall i :: 0 <= i < |result| ==> policy.check(s, result[i].detection).Exceeds?)
      && (r.Success? && r.value.Some? ==>
            exists i :: 0 <= i < |result| && policy.check(s, result[i].detection) == Pass
              && r.value.value == Resolve(s, result[i], tie, boundary, t)
              && forall j :: 0 <= j < i ==> policy.check(s, result[j].detection).Exceeds?)
      && (r.Failure? ==>
            exists i :: 0 <= i < |result| && policy.check(s, result[i].detection) == DivisionByZero
              && r.error == CheckFailed(result[i].id)
              && forall j :: 0 <= j < i ==> policy.check(s, result[j].detection).Exceeds?)
    decreases |result|
  {
    if |result| > 0 {
      var tail := result[1..];
      ScanOutcome(tail, s, policy, tie, boundary, t);
      assert forall i :: 1 <= i < |result| ==> result[i] == tail[i - 1];
      var r := Scan(result, s, policy, tie, boundary, t);
      match policy.check(s, result[0].detection)
      case DivisionByZero =>
        assert policy.check(s, result[0].detection) == DivisionByZero;
      case Pass =>
        assert policy.check(s, result[0].detection) == Pass;
      case Exceeds(_) =>
        if r.Success? && r.value.Some? {
          var i :| 0 <= i < |tail| && policy.check(s, tail[i].detection) == Pass
            && r.value.value == Resolve(s, tail[i], tie, boundary, t)
            && forall j :: 0 <= j < i ==> policy.check(s, tail[j].detection).Exceeds?;
          assert result[i + 1] == tail[i];
        }
        if r.Failure? {
          var i :| 0 <= i < |tail| && policy.check(s, tail[i].detection) == DivisionByZero
            && r.error == CheckFailed(tail[i].id)
            && forall j :: 0 <= j < i ==> policy.check(s, tail[j].detection).Exceeds?;
          assert result[i + 1] == tail[i];
        }
    }
  }

  /** Flag priority: against a passing neighbour a flag-0 candidate always
      replaces a flag-4 one and a flag-4 candidate never replaces a flag-0
      one, whatever the tie-break would say. */
  lemma FlagPriority(s: Detection, e: Row, tie1: Tie, tie2: Tie, boundary: seq<int>, t: Tables)
    requires s.flag != e.detection.flag
    ensures Resolve(s, e, tie1, boundary, t) == Resolve(s, e, tie2, boundary, t)
    ensures s.flag == 0 && e.detection.flag == 4 ==> Resolve(s, e, tie1, boundary, t) == Replace(e.id, e.unresolved)
    ensures s.flag == 4 && e.detection.flag == 0 ==> Resolve(s, e, tie1, boundary, t) == Keep(e.id)
  {
  }

  /** With the boundary-distance rule an equal distance keeps the stored
      detection: only a strictly farther candidate replaces it. */
  lemma EqualDistanceKeeps(s: Detection, e: Row, distance: (Detection, seq<int>) -> real,
                           boundary: seq<int>, t: Tables)
    requires s.flag == e.detection.flag && s.flag in {0, 4}
    ensures Resolve(s, e, FartherFromEdge(distance), boundary, t).Replace? <==>
      distance(s, boundary) > distance(e.detection, EdgeOf(t, e))
  {
  }

  /** The rows a plan may delete. */
  function Deleted(plan: Plan): set<nat>
  {
    if plan.Replace? then {plan.victim} else {}
  }

  /** The rows a plan may flag. */
  function Flagged(plan: Plan): seq<nat>
  {
    if plan.Unresolved? then plan.neighbours else []
  }

  /** What a step leaves alone: the tables stay well formed; at most one row
      (the replaced neighbour) disappears; every row that is not deleted,
      not flagged and does not share the inserted row's key is still there,
      unchanged; the rows a plan flags carry the flag afterwards; a skipped
      or kept candidate changes nothing. */
  lemma {:induction false} StepTouchesOnlyItsRows(t: Tables, policy: Policy, runId: int, instanceId: nat,
                                                  boundary: seq<int>, c: Candidate, tie: Tie)
    requires WellFormed(t)
    requires Decide(t, policy, runId, boundary, c, tie).Success?
    ensures var plan := Decide(t, policy, runId, boundary, c, tie).value;
      var t1 := Step(t, policy, runId, instanceId, boundary, c, tie).value;
      && WellFormed(t1)
      && IdSet(t.rows) - Deleted(plan) <= IdSet(t1.rows)
      && (plan.Skip? || plan.Keep? ==> t1 == t)
      && (!plan.Skip? ==> forall r :: r in t.rows && r.id !in Deleted(plan) && r.id !in Flagged(plan)
                                      && RowKey(r) != KeyOf(runId, instanceId, Absolute(c.detection, boundary))
                                      ==> r in t1.rows)
      && (forall r :: r in t1.rows && r.id in Flagged(plan) ==> r.unresolved)
  {
    var plan := Decide(t, policy, runId, boundary, c, tie).value;
    if !plan.Skip? {
      ApplyTouchesOnlyItsRows(t, policy, runId, instanceId, Absolute(c.detection, boundary), c.blobs, plan);
    }
  }

  /** The same for the writes of a plan. */
  lemma ApplyTouchesOnlyItsRows(t: Tables, policy: Policy, runId: int, instanceId: nat, s: Detection,
                                b: Blobs, plan: Plan)
    requires WellFormed(t)
    ensures var t1 := Apply(t, policy, runId, instanceId, s, b, plan);
      && WellFormed(t1)
      && IdSet(t.rows) - Deleted(plan) <= IdSet(t1.rows)
      && (plan.Skip? || plan.Keep? ==> t1 == t)
      && (forall r :: r in t.rows && r.id !in Deleted(plan) && r.id !in Flagged(plan)
                      && RowKey(r) != KeyOf(runId, instanceId, s)
                      ==> r in t1.rows)
      && (forall r :: r in t1.rows && r.id in Flagged(plan) ==> r.unresolved)
  {
    match plan
    case Skip =>
    case Keep(_) =>
    case Import =>
      UpsertKeepsOtherRows(t, runId, instanceId, s, false, policy.conflict);
      UpsertKeepsWellFormed(t, runId, instanceId, s, false, policy.conflict);
    case Fresh =>
      UpsertKeepsOtherRows(t, runId, instanceId, s, false, policy.conflict);
      UpsertKeepsWellFormed(t, runId, instanceId, s, false, policy.conflict);
    case Replace(victim, u) =>
      ReplaceTouchesOnlyItsRows(t, policy, runId, instanceId, s, b, victim, u);
    case Unresolved(ids) =>
      var t0 := Insert(t, runId, instanceId, s, true, policy.conflict, ProductFor(policy, b)).0;
      UpsertKeepsOtherRows(t, runId, instanceId, s, true, policy.conflict);
      UpsertKeepsWellFormed(t, runId, instanceId, s, true, policy.conflict);
      SetUnresolvedKeepsOtherRows(t0, true, ids);
      SetUnresolvedKeepsWellFormed(t0, true, ids);
  }

  /** The same for a replacement: the delete, then the insert. */
  lemma ReplaceTouchesOnlyItsRows(t: Tables, policy: Policy, runId: int, instanceId: nat, s: Detection,
                                  b: Blobs, victim: nat, u: bool)
    requires WellFormed(t)
    ensures var t1 := Apply(t, policy, runId, instanceId, s, b, Replace(victim, u));
      && WellFormed(t1)
      && IdSet(t.rows) - {victim} <= IdSet(t1.rows)
      && (forall r :: r in t.rows && r.id != victim && RowKey(r) != KeyOf(runId, instanceId, s) ==> r in t1.rows)
  {
    var t0 := Delete(t, victim);
    DeleteKeepsOtherRows(t, victim);
    DeleteRemovesOnlyThatId(t, victim);
    UpsertKeepsOtherRows(t0, runId, instanceId, s, u, policy.conflict);
    UpsertKeepsWellFormed(t0, runId, instanceId, s, u, policy.conflict);
  }

  /** When no neighbour passes, the candidate's neighbours (all of them, by
      id) are the rows flagged for review, and every one of them failed the
      sanity check. */
  lemma UnresolvedFlagsEveryNeighbour(t: Tables, policy: Policy, runId: int, boundary: seq<int>,
                                      c: Candidate, tie: Tie)
    requires Decide(t, policy, runId, boundary, c, tie).Success?
    requires Decide(t, policy, runId, boundary, c, tie).value.Unresolved?
    ensures var result := Matches(t, runId, Absolute(c.detection, boundary), policy.sigma);
      && Decide(t, policy, runId, boundary, c, tie).value.neighbours == Ids(result)
      && |result| > 0
      && forall i :: 0 <= i < |result| ==> policy.check(Absolute(c.detection, boundary), result[i].detection).Exceeds?
  {
    var s := Absolute(c.detection, boundary);
    ScanOutcome(Matches(t, runId, s, policy.sigma), s, policy, tie, boundary, t);
  }

  /** A replaced row is one of the candidate's neighbours, the first whose
      check passed, and the candidate takes over its unresolved flag. */
  lemma ReplacedRowIsFirstPassingNeighbour(t: Tables, policy: Policy, runId: int, boundary: seq<int>,
                                           c: Candidate, tie: Tie)
    requires Decide(t, policy, runId, boundary, c, tie).Success?
    requires Decide(t, policy, runId, boundary, c, tie).value.Replace?
    ensures var result := Matches(t, runId, Absolute(c.detection, boundary), policy.sigma);
      var plan := Decide(t, policy, runId, boundary, c, tie).value;
      exists i :: 0 <= i < |result| && result[i].id == plan.victim && result[i].unresolved == plan.unresolved
        && policy.check(Absolute(c.detection, boundary), result[i].detection) == Pass
        && forall j :: 0 <= j < i ==> policy.check(Absolute(c.detection, boundary), result[j].detection).Exceeds?
  {
    var s := Absolute(c.detection, boundary);
    ScanOutcome(Matches(t, runId, s, policy.sigma), s, policy, tie, boundary, t);
  }

  /** Running the candidates of an instance keeps the tables well formed. */
  lemma {:induction false} RunFromKeepsWellFormed(t: Tables, policy: Policy, instanceId: nat, instance: InstanceRow,
                                                  cs: seq<Candidate>, ties: nat -> Tie, k: nat)
    requires k <= |cs| && WellFormed(t)
    ensures WellFormed(RunFrom(t, policy, instanceId, instance, cs, ties, k).0)
    decreases |cs| - k
  {
    if k < |cs| {
      var step := Step(t, policy, instance.runId, instanceId, instance.boundary, cs[k], ties(k));
      if step.Success? {
        StepTouchesOnlyItsRows(t, policy, instance.runId, instanceId, instance.boundary, cs[k], ties(k));
        RunFromKeepsWellFormed(step.value, policy, instanceId, instance, cs, ties, k + 1);
      }
    }
  }

  // ---------------------------------------------------------------------
  // The engine, on the catalogue in place

  /** The writes of a plan: the inserts, the delete and the unresolved
      update the candidate loop issues for it. */
  method Perform(catalog: Catalog, policy: Policy, runId: int, instanceId: nat, s: Detection, b: Blobs, plan: Plan)
    modifies catalog
    ensures catalog.State() == Apply(old(catalog.State()), policy, runId, instanceId, s, b, plan)
    ensures old(catalog.Valid()) ==> catalog.Valid()
    ensures catalog.nextId >= old(catalog.nextId)
  {
    var p := ProductFor(policy, b);
    match plan
    case Skip =>
    case Keep(_) =>
    case Import =>
      var _ := catalog.InsertDetection(runId, instanceId, s, false, policy.conflict, p);
    case Fresh =>
      var _ := catalog.InsertDetection(runId, instanceId, s, false, policy.conflict, p);
    case Replace(victim, unresolved) =>
      catalog.DeleteDetection(victim);
      var _ := catalog.InsertDetection(runId, instanceId, s, unresolved, policy.conflict, p);
    case Unresolved(ids) =>
      var _ := catalog.InsertDetection(runId, instanceId, s, true, policy.conflict, p);
      catalog.UpdateUnresolved(true, ids);
  }

  /** One candidate, as the candidate loop of both versions handles it. */
  method ProcessCandidate(catalog: Catalog, policy: Policy, runId: int, instanceId: nat,
                          boundary: seq<int>, c: Candidate, tie: Tie) returns (outcome: Result<Plan, MergeError>)
    modifies catalog
    ensures outcome == Decide(old(catalog.State()), policy, runId, boundary, c, tie)
    ensures outcome.Failure? ==> catalog.State() == old(catalog.State())
    ensures outcome.Success? ==>
      Step(old(catalog.State()), policy, runId, instanceId, boundary, c, tie) == Success(catalog.State())
    ensures old(catalog.Valid()) ==> catalog.Valid()
    ensures catalog.nextId >= old(catalog.nextId)
  {
    if c.detection.flag !in policy.qualityFlags {
      return Success(Skip);
    }
    if |boundary| < 5 {
      return Failure(BoundaryTooShort);
    }
    var s := Absolute(c.detection, boundary);
    if !policy.performMerge {
      Perform(catalog, policy, runId, instanceId, s, c.blobs, Import);
      return Success(Import);
    }
    var result := catalog.SourceMatch(runId, s, policy.sigma);
    if |result| == 0 {
      Perform(catalog, policy, runId, instanceId, s, c.blobs, Fresh);
      return Success(Fresh);
    }
    var scan := ScanNeighbours(catalog, result, s, policy, tie, boundary);
    match scan
    case Failure(e) =>
      return Failure(e);
    case Success(Some(plan)) =>
      Perform(catalog, policy, runId, instanceId, s, c.blobs, plan);
      return Success(plan);
    case Success(None) =>
      Perform(catalog, policy, runId, instanceId, s, c.blobs, Unresolved(Ids(result)));
      return Success(Unresolved(Ids(result)));
  }

  /** The loop over the neighbours: check each in turn; the first that
      passes is resolved by flag and tie-break, a check that divides by zero
      ends the loop with an error, and none passing leaves the plan open. */
  method ScanNeighbours(catalog: Catalog, result: seq<Row>, s: Detection, policy: Policy, tie: Tie,
                        boundary: seq<int>) returns (r: Result<Option<Plan>, MergeError>)
    ensures r == Scan(result, s, policy, tie, boundary, catalog.State())
  {
    var i := 0;
    while i < |result|
      invariant 0 <= i <= |result|
      invariant Scan(result, s, policy, tie, boundary, catalog.State())
             == Scan(result[i..], s, policy, tie, boundary, catalog.State())
    {
      var e := result[i];
      assert result[i..][0] == e && result[i..][1..] == result[i + 1..];
      var verdict := policy.check(s, e.detection);
      if verdict == DivisionByZero {
        return Failure(CheckFailed(e.id));
      }
      if verdict == Pass {
        var plan := Keep(e.id);
        if s.flag == 0 && e.detection.flag == 4 {
          plan := Replace(e.id, e.unresolved);
        } else if (s.flag == 0 && e.detection.flag == 0) || (s.flag == 4 && e.detection.flag == 4) {
          if TieWon(tie, s, boundary, e, catalog.State()) {
            plan := Replace(e.id, e.unresolved);
          }
        }
        assert plan == Resolve(s, e, tie, boundary, catalog.State());
        return Success(Some(plan));
      }
      i := i + 1;
    }
    assert result[i..] == [];
    return Success(None);
  }

  /** One instance: without a run date nothing is written; otherwise the
      instance is registered and its candidates processed in order until one
      fails. A failure undoes everything the instance wrote when the policy
      is atomic (the serial counter is not rolled back, as in PostgreSQL),
      and otherwise keeps the instance and every earlier candidate. */
  method MergeInstance(catalog: Catalog, policy: Policy, runDate: Option<string>, instance: InstanceRow,
                       candidates: seq<Candidate>, ties: nat -> Tie) returns (r: Result<nat, MergeError>)
    modifies catalog
    ensures runDate.None? ==> r == Failure(NoRunDate) && catalog.State() == old(catalog.State())
    ensures runDate.Some? ==>
      var (t1, id) := UpsertInstance(old(catalog.State()), instance);
      var (tn, err) := RunFrom(t1, policy, id, instance, candidates, ties, 0);
      && (err.None? ==> r == Success(id) && catalog.State() == tn)
      && (err.Some? ==> r == Failure(err.value)
                        && catalog.State() == (if policy.atomic then old(catalog.State()).(nextId := tn.nextId) else tn))
    ensures old(catalog.Valid()) ==> catalog.Valid()
  {
    ghost var t0 := catalog.State();
    if runDate.None? {
      return Failure(NoRunDate);
    }
    var savedRows, savedInstances, savedProducts := catalog.rows, catalog.instances, catalog.products;
    var id := catalog.RegisterInstance(instance);
    ghost var t1 := catalog.State();
    var k := 0;
    while k < |candidates|
      invariant 0 <= k <= |candidates|
      invariant RunFrom(t1, policy, id, instance, candidates, ties, 0)
             == RunFrom(catalog.State(), policy, id, instance, candidates, ties, k)
      invariant catalog.nextId >= t0.nextId
      invariant WellFormed(t0) ==> catalog.Valid()
    {
      var outcome := ProcessCandidate(catalog, policy, instance.runId, id, instance.boundary, candidates[k], ties(k));
      if outcome.Failure? {
        if policy.atomic {
          catalog.rows, catalog.instances, catalog.products := savedRows, savedInstances, savedProducts;
        }
        return Failure(outcome.error);
      }
      k := k + 1;
    }
    return Success(id);
  }
}
