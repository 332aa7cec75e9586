/** The first version of the merge (match_merge_detections of
    sofiax/sofiax/merge.py). A candidate is compared with the stored
    detections of the run near it: none means a plain insert; one means the
    sanity check decides between replacing it, keeping it, or grouping both
    for manual resolution; several must already share one unresolved group,
    which the candidate then joins. Groups are identified by an unresolved
    id; a row without one is in no group. */
module Legacy {
  import opened Wrappers
  import opened Records
  import opened Sanity
  import opened Settings
  import opened Paths
  import opened Proximity
  import Region

  /** A stored detection of the first version: its serial id, its run, its
      unresolved group (if any) and its columns. */
  datatype LegacyRow = LegacyRow(id: nat, runId: int, group: Option<nat>, detection: Detection)

  /** The detection table and the next serial values of the detection and
      unresolved-group ids. */
  datatype Ledger = Ledger(rows: seq<LegacyRow>, nextId: nat, nextGroup: nat)

  /** Every stored id and every group in use was handed out by its serial. */
  predicate LedgerValid(l: Ledger)
  {
    forall r :: r in l.rows ==> r.id < l.nextId && (r.group.Some? ==> r.group.value < l.nextGroup)
  }

  /** Why a candidate, or the whole instance, is refused: thresholds the
      validation rejects, a missing parameter (KeyError), a relative path, no
      run date in the catalogue, a region piece int() refuses, a zero divisor
      in the sanity check, or neighbours in different groups. */
  datatype LegacyError =
    | ThresholdsRejected(config: ConfigError)
    | KeyMissing(key: string)
    | NotAbsolute(key: string)
    | RunDateMissing
    | RegionRejected(piece: string)
    | ZeroDivisor
    | GroupsDisagree(groups: set<Option<nat>>)

  // ---------------------------------------------------------------------
  // Before any detection: thresholds, paths, run date and region

  /** Every parameter the first version reads is there, both paths are
      absolute, and the catalogue has a run date. */
  predicate ParamsReady(params: map<string, string>, runDate: Option<string>)
  {
    && "input.data" in params && IsAbs(params["input.data"])
    && "output.directory" in params && IsAbs(params["output.directory"])
    && "output.filename" in params && runDate.Some? && "input.region" in params
  }

  /** The checks of match_merge_detections before the first detection, in
      the order they are made; the region is returned. The catalogue and
      plot files in between are read, not modelled; `runDate` is the Time
      parameter found in the catalogue, if any. */
  function LegacyPrepare(c: Config, params: map<string, string>, runDate: Option<string>)
    : (r: Result<(Limits, seq<int>), LegacyError>)
    ensures r.Success? <==>
      && LegacyCheckInputs(c).Success? && ParamsReady(params, runDate)
      && Region.ParseRegion(params["input.region"]).Success?
    ensures r.Success? ==>
      && LegacyCheckInputs(c) == Success(r.value.0)
      && Region.ParseRegion(params["input.region"]) == Success(r.value.1)
    ensures LegacyCheckInputs(c).Failure? ==> r == Failure(ThresholdsRejected(LegacyCheckInputs(c).error))
    ensures (&& LegacyCheckInputs(c).Success? && "input.data" in params && "output.directory" in params
             && !IsAbs(params["input.data"]))
            ==> r == Failure(NotAbsolute("input.data"))
    ensures r.Failure? && r.error.NotAbsolute? ==>
      r.error.key in params && !IsAbs(params[r.error.key])
    ensures r.Failure? && r.error.KeyMissing? ==> r.error.key !in params
    ensures r == Failure(RunDateMissing) ==> runDate.None?
    ensures r.Failure? && r.error.RegionRejected? ==>
      "input.region" in params && Region.ParseRegion(params["input.region"]).Failure?
  {
    match LegacyCheckInputs(c)
    case Failure(e) => Failure(ThresholdsRejected(e))
    case Success(limits) =>
      if "input.data" !in params then Failure(KeyMissing("input.data"))
      else if "output.directory" !in params then Failure(KeyMissing("output.directory"))
      else if !IsAbs(params["input.data"]) then Failure(NotAbsolute("input.data"))
      else if !IsAbs(params["output.directory"]) then Failure(NotAbsolute("output.directory"))
      else if "output.filename" !in params then Failure(KeyMissing("output.filename"))
      else if runDate.None? then Failure(RunDateMissing)
      else if "input.region" !in params then Failure(KeyMissing("input.region"))
      else match Region.ParseRegion(params["input.region"])
        case Failure(e) => Failure(RegionRejected(if e.BadInteger? then e.piece else ""))
        case Success(boundary) => Success((limits, boundary))
  }

  /** The first version has no header fallback: a parameter file without
      input.region is refused even when every other check passes. */
  lemma RegionIsRequired(c: Config, params: map<string, string>, runDate: string)
    requires LegacyCheckInputs(c).Success?
    requires "input.data" in params && IsAbs(params["input.data"])
    requires "output.directory" in params && IsAbs(params["output.directory"])
    requires "output.filename" in params && "input.region" !in params
    ensures LegacyPrepare(c, params, Some(runDate)) == Failure(KeyMissing("input.region"))
  {
  }

  // ---------------------------------------------------------------------
  // The neighbour query

  /** A stored row the query returns for the candidate: same run, within
      three sigma in the plane and in frequency, and differing from the
      candidate in each of x, y and z (so the planar distance is never 0). */
  predicate LegacyNear(runId: int, c: Detection, r: LegacyRow)
  {
    && r.runId == runId
    && IsNeighbour(3, c, r.detection)
    && r.detection.x != c.x && r.detection.y != c.y && r.detection.z != c.z
  }

  /** The rows the query returns, in table order. */
  function MatchesIn(rows: seq<LegacyRow>, runId: int, c: Detection): (ms: seq<LegacyRow>)
    ensures forall r :: r in ms <==> r in rows && LegacyNear(runId, c, r)
  {
    if |rows| == 0 then []
    else
      var last := rows[|rows| - 1];
      assert forall r :: r in rows <==> r in rows[..|rows| - 1] || r == last;
      MatchesIn(rows[..|rows| - 1], runId, c) + (if LegacyNear(runId, c, last) then [last] else [])
  }

  /** The set of unresolved groups of the matches (None for a row in no group). */
  function GroupsOf(ms: seq<LegacyRow>): set<Option<nat>>
  {
    set m | m in ms :: m.group
  }

  // ---------------------------------------------------------------------
  // The decision for one candidate

  /** sanity_check(flux, spatial, spectral) with the candidate first in
      every pair. */
  function LegacyCompare(c: Detection, e: Detection, limits: Limits): Verdict
  {
    LegacySanityCheck((c.fSum, e.fSum), (c.ellMaj, e.ellMaj, c.ellMin, e.ellMin),
                      (c.w20, e.w20, c.w50, e.w50), limits)
  }

  /** What happens to one candidate: ignored (flag not 0 or 4), inserted,
      inserted into an existing group (or into none, when all matches are in
      none), inserted as a new group with its one match, swapped for its one
      match, or left out because its one match already stands for it. */
  datatype LegacyPlan =
    | Ignore
    | Add
    | AddToGroup(group: Option<nat>)
    | AddWithNewGroup(partner: nat)
    | Swap(victim: nat)
    | Leave

  /** The decision on the rows the query returned. */
  function DecideOn(c: Detection, ms: seq<LegacyRow>, limits: Limits): (r: Result<LegacyPlan, LegacyError>)
    ensures c.flag != 0 && c.flag != 4 ==> r == Success(Ignore)
    ensures (c.flag == 0 || c.flag == 4) && |ms| == 0 ==> r == Success(Add)
    ensures r.Success? && r.value.Swap? ==>
      && |ms| == 1 && r.value.victim == ms[0].id
      && c.flag == 0 && ms[0].detection.flag == 4
      && LegacyCompare(c, ms[0].detection, limits) == Pass
    ensures r.Success? && r.value.AddWithNewGroup? ==>
      && |ms| == 1 && r.value.partner == ms[0].id && ms[0].group.None?
      && LegacyCompare(c, ms[0].detection, limits).Exceeds?
    ensures r.Success? && r.value.AddToGroup? ==>
      && |ms| >= 1
      && (forall m :: m in ms ==> m.group == r.value.group)
      && (|ms| == 1 ==> r.value.group.Some? && LegacyCompare(c, ms[0].detection, limits).Exceeds?)
    ensures r == Failure(ZeroDivisor) <==>
      (c.flag == 0 || c.flag == 4) && |ms| == 1 && LegacyCompare(c, ms[0].detection, limits) == DivisionByZero
    ensures r.Failure? && r.error.GroupsDisagree? ==>
      |ms| >= 2 && r.error.groups == GroupsOf(ms) && |GroupsOf(ms)| != 1
    ensures r.Failure? ==> r.error.ZeroDivisor? || r.error.GroupsDisagree?
    // one match whose check fails: the candidate joins the match's group, or
    // founds one with it when the match is in none
    ensures (c.flag == 0 || c.flag == 4) && |ms| == 1 && LegacyCompare(c, ms[0].detection, limits).Exceeds? ==>
      r == Success(if ms[0].group.Some? then AddToGroup(ms[0].group) else AddWithNewGroup(ms[0].id))
    // one match whose check passes: a swap exactly when 0 meets 4, else nothing
    ensures (c.flag == 0 || c.flag == 4) && |ms| == 1 && LegacyCompare(c, ms[0].detection, limits) == Pass ==>
      && (r == Success(Swap(ms[0].id)) <==> c.flag == 0 && ms[0].detection.flag == 4)
      && (r == Success(Leave) <==> !(c.flag == 0 && ms[0].detection.flag == 4))
    // several matches: their one shared group, or the refusal naming all of them
    ensures (c.flag == 0 || c.flag == 4) && |ms| >= 2 ==>
      && (r == Success(AddToGroup(ms[0].group)) <==> |GroupsOf(ms)| == 1)
      && (r == Failure(GroupsDisagree(GroupsOf(ms))) <==> |GroupsOf(ms)| != 1)
  {
    if c.flag != 0 && c.flag != 4 then Success(Ignore)
    else if |ms| == 0 then Success(Add)
    else if |ms| == 1 then
      var v := LegacyCompare(c, ms[0].detection, limits);
      if v.DivisionByZero? then Failure(ZeroDivisor)
      else if v.Exceeds? then
        if ms[0].group.Some? then Success(AddToGroup(ms[0].group)) else Success(AddWithNewGroup(ms[0].id))
      else if c.flag == 0 && ms[0].detection.flag == 4 then Success(Swap(ms[0].id))
      else Success(Leave)
    else
      var groups := GroupsOf(ms);
      if |groups| != 1 then Failure(GroupsDisagree(groups))
      else
        assert ms[0] in ms;
        SingletonHoldsAll(groups, ms[0].group);
        assert forall m :: m in ms ==> m.group in groups;
        Success(AddToGroup(ms[0].group))
  }

  /** The decision for a candidate against the stored rows. */
  function LegacyDecide(l: Ledger, runId: int, c: Detection, limits: Limits): Result<LegacyPlan, LegacyError>
  {
    DecideOn(c, MatchesIn(l.rows, runId, c), limits)
  }

  /** A set of one element that holds x is {x}. */
  lemma SingletonHoldsAll(s: set<Option<nat>>, x: Option<nat>)
    requires |s| == 1 && x in s
    ensures s == {x}
  {
    var t := s - {x};
    assert s == t + {x};
    assert |t| == 0;
  }

  // ---------------------------------------------------------------------
  // The writes

  /** The insert: a new row with the next serial id, in no group. */
  function Append(l: Ledger, runId: int, c: Detection): (Ledger, nat)
  {
    (l.(rows := l.rows + [LegacyRow(l.nextId, runId, None, c)], nextId := l.nextId + 1), l.nextId)
  }

  /** The rows other than the one with the given id. */
  function RemoveRow(rows: seq<LegacyRow>, id: nat): (r: seq<LegacyRow>)
    ensures forall x :: x in r <==> x in rows && x.id != id
  {
    if |rows| == 0 then []
    else if rows[0].id == id then RemoveRow(rows[1..], id)
    else [rows[0]] + RemoveRow(rows[1..], id)
  }

  /** The unresolved-id update: the listed rows move to `group`. */
  function Regroup(l: Ledger, group: Option<nat>, ids: seq<nat>): Ledger
  {
    l.(rows := seq(|l.rows|, i requires 0 <= i < |l.rows| =>
                     if l.rows[i].id in ids then l.rows[i].(group := group) else l.rows[i]))
  }

  /** The writes a plan makes, in the order the source makes them. */
  function LegacyApply(l: Ledger, runId: int, c: Detection, plan: LegacyPlan): Ledger
  {
    match plan
    case Ignore => l
    case Leave => l
    case Add => Append(l, runId, c).0
    case AddToGroup(g) =>
      var (l1, id) := Append(l, runId, c);
      Regroup(l1, g, [id])
    case AddWithNewGroup(partner) =>
      var (l1, id) := Append(l, runId, c);
      Regroup(l1.(nextGroup := l1.nextGroup + 1), Some(l1.nextGroup), [id, partner])
    case Swap(victim) => Append(l.(rows := RemoveRow(l.rows, victim)), runId, c).0
  }

  /** The candidate is the last row, under the next serial id. */
  predicate StoresCandidate(l: Ledger, l1: Ledger, runId: int, c: Detection)
  {
    && |l1.rows| > 0 && l1.rows[|l1.rows| - 1].id == l.nextId
    && l1.rows[|l1.rows| - 1].runId == runId && l1.rows[|l1.rows| - 1].detection == c
    && l1.nextId == l.nextId + 1
  }

  /** The group a stored candidate ends up in: the group it joins, the group
      just opened for it and its partner, or none. */
  function JoinedGroup(l: Ledger, plan: LegacyPlan): Option<nat>
  {
    match plan
    case AddToGroup(g) => g
    case AddWithNewGroup(_) => Some(l.nextGroup)
    case _ => None
  }

  /** The stored row a plan changes: the swap's victim or the new group's
      partner. */
  predicate Touches(plan: LegacyPlan, id: nat)
  {
    (plan.Swap? && id == plan.victim) || (plan.AddWithNewGroup? && id == plan.partner)
  }

  /** The old rows still stored after a plan: all but a swap's victim. */
  function KeptRows(l: Ledger, plan: LegacyPlan): seq<LegacyRow>
  {
    if plan.Swap? then RemoveRow(l.rows, plan.victim) else l.rows
  }

  /** An old row as a plan leaves it: the partner of a new pair moves into
      the new group, every other row is as it was. */
  function Moved(l: Ledger, plan: LegacyPlan, r: LegacyRow): LegacyRow
  {
    if plan.AddWithNewGroup? && r.id == plan.partner then r.(group := Some(l.nextGroup)) else r
  }

  /** What a plan's writes do to the ledger: it stays valid; a new group is
      handed out only for a new pair; an ignored or left candidate changes
      nothing; a stored one is the last row under the next id, in the group
      it joins, and the rows before it are exactly the kept old rows, in
      order, as the plan leaves them; so every row the plan does not touch
      stays as it was, group included, the partner of a new pair moves into
      the new group, and the victim of a swap is gone. */
  predicate Applied(l: Ledger, l1: Ledger, runId: int, c: Detection, plan: LegacyPlan)
  {
    && LedgerValid(l1)
    && l1.nextId >= l.nextId
    && l1.nextGroup == (if plan.AddWithNewGroup? then l.nextGroup + 1 else l.nextGroup)
    && (plan.Ignore? || plan.Leave? ==> l1 == l)
    && (!plan.Ignore? && !plan.Leave? ==>
          && StoresCandidate(l, l1, runId, c) && l1.rows[|l1.rows| - 1].group == JoinedGroup(l, plan)
          && |l1.rows| == |KeptRows(l, plan)| + 1
          && forall i :: 0 <= i < |KeptRows(l, plan)| ==> l1.rows[i] == Moved(l, plan, KeptRows(l, plan)[i]))
    && (forall r :: r in l.rows && !Touches(plan, r.id) ==> r in l1.rows)
    && (plan.AddWithNewGroup? ==>
          forall r :: r in l.rows && r.id == plan.partner ==> r.(group := Some(l.nextGroup)) in l1.rows)
    && (plan.Swap? ==> forall r1 :: r1 in l1.rows ==> r1.id != plan.victim)
  }

  /** Every decided plan does to the ledger what `Applied` says. */
  lemma LegacyApplyOutcome(l: Ledger, runId: int, c: Detection, limits: Limits, plan: LegacyPlan)
    requires LedgerValid(l) && LegacyDecide(l, runId, c, limits) == Success(plan)
    ensures Applied(l, LegacyApply(l, runId, c, plan), runId, c, plan)
  {
    match plan
    case Ignore =>
    case Leave =>
    case Add => AddOutcome(l, runId, c);
    case Swap(victim) =>
      var ms := MatchesIn(l.rows, runId, c);
      assert ms[0] in ms && ms[0] in l.rows;
      SwapOutcome(l, runId, c, victim);
    case AddToGroup(g) =>
      var ms := MatchesIn(l.rows, runId, c);
      assert ms[0] in ms && ms[0] in l.rows && ms[0].group == g;
      AddToGroupOutcome(l, runId, c, g);
    case AddWithNewGroup(partner) => AddWithNewGroupOutcome(l, runId, c, partner);
  }

  lemma AddOutcome(l: Ledger, runId: int, c: Detection)
    requires LedgerValid(l)
    ensures Applied(l, LegacyApply(l, runId, c, Add), runId, c, Add)
  {
    var l1 := LegacyApply(l, runId, c, Add);
    assert l1.rows == l.rows + [LegacyRow(l.nextId, runId, None, c)];
  }

  lemma SwapOutcome(l: Ledger, runId: int, c: Detection, victim: nat)
    requires LedgerValid(l) && victim < l.nextId
    ensures Applied(l, LegacyApply(l, runId, c, Swap(victim)), runId, c, Swap(victim))
  {
    var lr := l.(rows := RemoveRow(l.rows, victim));
    var l1 := LegacyApply(l, runId, c, Swap(victim));
    assert l1 == Append(lr, runId, c).0;
    assert l1.rows == lr.rows + [LegacyRow(l.nextId, runId, None, c)];
    assert forall r1 :: r1 in l1.rows ==> r1 in lr.rows || r1 == l1.rows[|l1.rows| - 1];
    assert forall r :: r in l.rows && r.id != victim ==> r in lr.rows;
  }

  lemma AddToGroupOutcome(l: Ledger, runId: int, c: Detection, g: Option<nat>)
    requires LedgerValid(l) && (g.Some? ==> g.value < l.nextGroup)
    ensures Applied(l, LegacyApply(l, runId, c, AddToGroup(g)), runId, c, AddToGroup(g))
  {
    var la := Append(l, runId, c).0;
    assert la.(nextGroup := l.nextGroup + 0) == la;
    assert LegacyApply(l, runId, c, AddToGroup(g)) == Regroup(la, g, [l.nextId]);
    AppendThenRegroup(l, runId, c, 0, g, [l.nextId]);
  }

  lemma AddWithNewGroupOutcome(l: Ledger, runId: int, c: Detection, partner: nat)
    requires LedgerValid(l)
    ensures Applied(l, LegacyApply(l, runId, c, AddWithNewGroup(partner)), runId, c, AddWithNewGroup(partner))
  {
    var la := Append(l, runId, c).0;
    assert la.nextGroup == l.nextGroup;
    var l1 := Regroup(la.(nextGroup := l.nextGroup + 1), Some(l.nextGroup), [l.nextId, partner]);
    assert LegacyApply(l, runId, c, AddWithNewGroup(partner)) == l1;
    AppendThenRegroup(l, runId, c, 1, Some(l.nextGroup), [l.nextId, partner]);
  }

  /** The insert followed by the unresolved-id update (after opening
      `bump` new groups): valid, the candidate last and in `g`, the listed
      old rows moved to `g` and every other old row unchanged. */
  lemma AppendThenRegroup(l: Ledger, runId: int, c: Detection, bump: nat, g: Option<nat>, ids: seq<nat>)
    requires LedgerValid(l) && (g.Some? ==> g.value < l.nextGroup + bump) && l.nextId in ids
    ensures var l1 := Regroup(Append(l, runId, c).0.(nextGroup := l.nextGroup + bump), g, ids);
      && LedgerValid(l1)
      && l1.nextId == l.nextId + 1 && l1.nextGroup == l.nextGroup + bump
      && StoresCandidate(l, l1, runId, c) && l1.rows[|l1.rows| - 1].group == g
      && (forall r :: r in l.rows && r.id !in ids ==> r in l1.rows)
      && (forall r :: r in l.rows && r.id in ids ==> r.(group := g) in l1.rows)
      && |l1.rows| == |l.rows| + 1
      && (forall i :: 0 <= i < |l.rows| ==>
            l1.rows[i] == (if l.rows[i].id in ids then l.rows[i].(group := g) else l.rows[i]))
  {
    var lb := Append(l, runId, c).0.(nextGroup := l.nextGroup + bump);
    assert lb.rows == l.rows + [LegacyRow(l.nextId, runId, None, c)];
    RegroupOutcome(lb, g, ids);
    RegroupKeepsValid(lb, g, ids);
  }

  /** Regrouping keeps every row in its place with its id, run and columns,
      moves the listed rows to `group` and leaves the others as they were. */
  lemma RegroupOutcome(l: Ledger, group: Option<nat>, ids: seq<nat>)
    ensures var l1 := Regroup(l, group, ids);
      && |l1.rows| == |l.rows| && l1.nextId == l.nextId && l1.nextGroup == l.nextGroup
      && (forall i :: 0 <= i < |l.rows| ==>
            && l1.rows[i].id == l.rows[i].id && l1.rows[i].runId == l.rows[i].runId
            && l1.rows[i].detection == l.rows[i].detection
            && l1.rows[i].group == (if l.rows[i].id in ids then group else l.rows[i].group)
            && l1.rows[i] == (if l.rows[i].id in ids then l.rows[i].(group := group) else l.rows[i]))
      && (forall r :: r in l.rows && r.id !in ids ==> r in l1.rows)
      && (forall r :: r in l.rows && r.id in ids ==> r.(group := group) in l1.rows)
  {
    var l1 := Regroup(l, group, ids);
    forall r | r in l.rows
      ensures (if r.id in ids then r.(group := group) else r) in l1.rows
    {
      var i :| 0 <= i < |l.rows| && l.rows[i] == r;
      assert l1.rows[i] in l1.rows;
    }
  }

  /** Moving rows into a group already handed out (or into none) keeps the
      ledger valid. */
  lemma RegroupKeepsValid(l: Ledger, group: Option<nat>, ids: seq<nat>)
    requires LedgerValid(l) && (group.Some? ==> group.value < l.nextGroup)
    ensures LedgerValid(Regroup(l, group, ids))
  {
    var l1 := Regroup(l, group, ids);
    forall r | r in l1.rows
      ensures r.id < l1.nextId && (r.group.Some? ==> r.group.value < l1.nextGroup)
    {
      var i :| 0 <= i < |l1.rows| && l1.rows[i] == r;
      assert l.rows[i] in l.rows;
    }
  }

  // ---------------------------------------------------------------------
  // A run of candidates

  /** The candidates of one catalogue in order, each in its own transaction:
      the first refused candidate ends the run, and what the earlier ones
      wrote stays. */
  function LegacyRun(l: Ledger, runId: int, cs: seq<Detection>, limits: Limits): (Ledger, Option<LegacyError>)
    decreases |cs|
  {
    if |cs| == 0 then (l, None)
    else match LegacyDecide(l, runId, cs[0], limits)
      case Failure(e) => (l, Some(e))
      case Success(plan) => LegacyRun(LegacyApply(l, runId, cs[0], plan), runId, cs[1..], limits)
  }

  /** A run keeps the ledger valid and never hands out a serial value twice. */
  lemma {:induction false} LegacyRunKeepsValid(l: Ledger, runId: int, cs: seq<Detection>, limits: Limits)
    requires LedgerValid(l)
    ensures var (l1, _) := LegacyRun(l, runId, cs, limits);
      LedgerValid(l1) && l1.nextId >= l.nextId && l1.nextGroup >= l.nextGroup
    decreases |cs|
  {
    if |cs| > 0 {
      match LegacyDecide(l, runId, cs[0], limits)
      case Failure(_) =>
      case Success(plan) =>
        LegacyApplyOutcome(l, runId, cs[0], limits, plan);
        LegacyRunKeepsValid(LegacyApply(l, runId, cs[0], plan), runId, cs[1..], limits);
    }
  }

  /** The detect_set loop: the groups of the matches, one by one. */
  method CollectGroups(ms: seq<LegacyRow>) returns (groups: set<Option<nat>>)
    ensures groups == GroupsOf(ms)
  {
    groups := {};
    var i := 0;
    while i < |ms|
      invariant 0 <= i <= |ms|
      invariant groups == GroupsOf(ms[..i])
    {
      assert ms[..i + 1] == ms[..i] + [ms[i]];
      groups := groups + {ms[i].group};
      i := i + 1;
    }
    assert ms[..i] == ms;
  }

  // ---------------------------------------------------------------------
  // The tables, updated in place

  class LegacyCatalog {
    var rows: seq<LegacyRow>
    var nextId: nat
    var nextGroup: nat

    function State(): Ledger
      reads this
    {
      Ledger(rows, nextId, nextGroup)
    }

    /** Empty tables; serial values start at 1. */
    constructor ()
      ensures State() == Ledger([], 1, 1)
      ensures LedgerValid(State())
    {
      rows, nextId, nextGroup := [], 1, 1;
    }

    /** db_source_match: the run's rows near the candidate, in table order. */
    method SourceMatch(runId: int, c: Detection) returns (result: seq<LegacyRow>)
      ensures result == MatchesIn(rows, runId, c)
    {
      result := [];
      var i := 0;
      while i < |rows|
        invariant 0 <= i <= |rows|
        invariant result == MatchesIn(rows[..i], runId, c)
      {
        assert rows[..i + 1][..i] == rows[..i];
        if LegacyNear(runId, c, rows[i]) {
          result := result + [rows[i]];
        }
        i := i + 1;
      }
      assert rows[..i] == rows;
    }

    /** db_detection_insert: the candidate under the next serial id. */
    method InsertDetection(runId: int, c: Detection) returns (id: nat)
      modifies this
      ensures (State(), id) == Append(old(State()), runId, c)
    {
      id := nextId;
      rows := rows + [LegacyRow(id, runId, None, c)];
      nextId := nextId + 1;
    }

    /** db_delete_detection. */
    method DeleteDetection(id: nat)
      modifies this
      ensures State() == old(State()).(rows := RemoveRow(old(rows), id))
    {
      rows := RemoveRow(rows, id);
    }

    /** db_update_detection_unresolved_id: the listed rows join `group`. */
    method UpdateGroup(group: Option<nat>, ids: seq<nat>)
      modifies this
      ensures State() == Regroup(old(State()), group, ids)
    {
      rows := Regroup(State(), group, ids).rows;
    }

    /** db_unresolved_insert: a new group holding the listed rows. */
    method NewGroup(ids: seq<nat>) returns (group: nat)
      modifies this
      ensures group == old(nextGroup)
      ensures State() == Regroup(old(State()).(nextGroup := group + 1), Some(group), ids)
    {
      group := nextGroup;
      nextGroup := nextGroup + 1;
      UpdateGroup(Some(group), ids);
    }

    /** One candidate of match_merge_detections, in its transaction: the
        writes are those of its plan, and a refused candidate writes nothing. */
    method MergeCandidate(runId: int, c: Detection, limits: Limits) returns (r: Result<LegacyPlan, LegacyError>)
      modifies this
      ensures r == LegacyDecide(old(State()), runId, c, limits)
      ensures r.Success? ==> State() == LegacyApply(old(State()), runId, c, r.value)
      ensures r.Failure? ==> State() == old(State())
    {
      if c.flag != 0 && c.flag != 4 {
        return Success(Ignore);
      }
      var result := SourceMatch(runId, c);
      if |result| == 0 {
        var id := InsertDetection(runId, c);
        return Success(Add);
      } else if |result| == 1 {
        var v := LegacyCompare(c, result[0].detection, limits);
        if v.DivisionByZero? {
          return Failure(ZeroDivisor);
        } else if v.Exceeds? {
          var id := InsertDetection(runId, c);
          if result[0].group.Some? {
            UpdateGroup(result[0].group, [id]);
            return Success(AddToGroup(result[0].group));
          } else {
            var group := NewGroup([id, result[0].id]);
            return Success(AddWithNewGroup(result[0].id));
          }
        } else if c.flag == 0 && result[0].detection.flag == 4 {
          DeleteDetection(result[0].id);
          var id := InsertDetection(runId, c);
          return Success(Swap(result[0].id));
        }
        return Success(Leave);
      } else {
        var groups := CollectGroups(result);
        if |groups| != 1 {
          return Failure(GroupsDisagree(groups));
        }
        var id := InsertDetection(runId, c);
        UpdateGroup(result[0].group, [id]);
        return Success(AddToGroup(result[0].group));
      }
    }

    /** The loop over the catalogue's rows: every candidate in order until
        one is refused. */
    method MergeRows(runId: int, cs: seq<Detection>, limits: Limits) returns (err: Option<LegacyError>)
      modifies this
      ensures (State(), err) == LegacyRun(old(State()), runId, cs, limits)
    {
      var i := 0;
      while i < |cs|
        invariant 0 <= i <= |cs|
        invariant LegacyRun(old(State()), runId, cs, limits) == LegacyRun(State(), runId, cs[i..], limits)
      {
        var r := MergeCandidate(runId, cs[i], limits);
        if r.Failure? {
          return Some(r.error);
        }
        assert cs[i..][1..] == cs[i + 1..];
        i := i + 1;
      }
      err := None;
    }
  }
}
