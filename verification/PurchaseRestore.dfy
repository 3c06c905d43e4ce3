/**
 A plan that is moved into a record, cleaned up and restored is the plan it was: whatever happens in
 between, data written back by the synchronisation included, as long as nobody edits its record line.
 */
module PurchaseRestore {
  import opened Options
  import opened Sets
  import opened Tables
  import opened Purchases
  import opened PurchaseRuns
  import RecordSync

  // ---------------------------------------------------------------- the line of a moved plan

  ghost predicate IsLineOf(s: Store, l: LineId, line: Line) {
    l in s.t.lines && s.t.lines[l] == line
  }

  lemma {:induction false} AddLinesKeepsOld(s: Store, ids: set<PlanId>, header: HeaderId, d: MoveData, l: LineId)
    requires ids <= s.t.plans.Keys && l in s.t.lines && l < s.nextLine
    ensures IsLineOf(AddLines(s, ids, header, d), l, s.t.lines[l])
    decreases |ids|
  {
    if ids != {} {
      var p := Least(ids);
      AddLinesKeepsOld(AddLine(s, Snapshot(s.t.plans[p], p, header, d)), ids - {p}, header, d, l);
    }
  }

  lemma {:induction false} AddLinesAddsEach(s: Store, ids: set<PlanId>, header: HeaderId, d: MoveData, p: PlanId)
    returns (l: LineId)
    requires ids <= s.t.plans.Keys && p in ids
    ensures s.nextLine <= l && IsLineOf(AddLines(s, ids, header, d), l, Snapshot(s.t.plans[p], p, header, d))
    decreases |ids|
  {
    var q := Least(ids);
    var first := AddLine(s, Snapshot(s.t.plans[q], q, header, d));
    if q == p {
      l := s.nextLine;
      AddLinesKeepsOld(first, ids - {q}, header, d, l);
    } else {
      l := AddLinesAddsEach(first, ids - {q}, header, d, p);
    }
  }

  /** Every moved plan gets a new line, which is its snapshot. */
  lemma MovedPlanHasLine(s: Store, ids: set<PlanId>, d: MoveData, p: PlanId) returns (l: LineId)
    requires Valid(s) && MoveError(s, ids).None? && p in ids
    ensures l !in s.t.lines
    ensures IsLineOf(MovePlans(s, ids, d).store, l, Snapshot(s.t.plans[p], p, s.nextHeader, d))
  {
    l := AddLinesAddsEach(WithHeader(s, NewHeader(d)), ids, s.nextHeader, d, p);
    assert l >= s.nextLine;
  }

  // ---------------------------------------------------------------- what other steps do to a line

  /** The step is not a request about line l. */
  predicate Leaves(step: Step, l: LineId) {
    match step
    case UpdateLine(line, _, _) => line != l
    case UpdateLines(refs, _) => forall i :: 0 <= i < |refs| ==> refs[i].id != l
    case Restore(line, _) => line != l
    case _ => true
  }

  /** Line l in what a restore reads of it, with its reference as it was or cleared. */
  ghost predicate SameSnapshot(line: Line, original: Line) {
    Rebuilt(line) == Rebuilt(original) && (line.plan == original.plan || line.plan == None)
  }

  ghost predicate Kept(s: Store, l: LineId, original: Line) {
    l in s.t.lines && SameSnapshot(s.t.lines[l], original)
  }

  lemma ClearedSnapshot(line: Line)
    ensures SameSnapshot(line.(plan := None), line)
  {
  }

  lemma SyncKeepsSnapshot(s: Store, trace: string, d: RecordSync.SyncData, l: LineId)
    requires l in s.t.lines
    ensures Kept(RecordSync.ApplySync(s, trace, d).store, l, s.t.lines[l])
  {
    hide RecordSync.SyncedHeader, RecordSync.Fill, RecordSync.Progress, RecordSync.LineChanges;
  }

  lemma {:induction false} PatchPlansKeepLines(s: Store, refs: seq<Reference>, patch: PlanPatch)
    requires forall i :: 0 <= i < |refs| ==> refs[i].id in s.t.plans
    ensures PatchPlans(s, refs, patch).store.t.lines == s.t.lines
    decreases |refs|
  {
    if refs != [] {
      var first := PatchPlan(s, refs[0], patch);
      PatchPlanKeepsIds(s, refs[0], patch);
      assert first.store.t.lines == s.t.lines;
      hide PatchPlan;
      if first.result.Success? {
        PatchPlansKeepLines(first.store, refs[1..], patch);
      }
    }
  }

  lemma PatchLineKeepsOthers(s: Store, id: LineId, patch: RecordPatch, l: LineId)
    requires id in s.t.lines && l in s.t.lines && l != id
    ensures var u := PatchLine(s, id, patch).store; u.t.lines.Keys == s.t.lines.Keys && u.t.lines[l] == s.t.lines[l]
  {
  }

  lemma PatchLineKeepsIds(s: Store, id: LineId, patch: RecordPatch)
    requires id in s.t.lines
    ensures PatchLine(s, id, patch).store.t.lines.Keys == s.t.lines.Keys
  {
  }

  lemma {:induction false} PatchLinesKeepOthers(s: Store, refs: seq<Reference>, patch: RecordPatch, l: LineId)
    requires l in s.t.lines && forall i :: 0 <= i < |refs| ==> refs[i].id in s.t.lines && refs[i].id != l
    ensures IsLineOf(PatchLines(s, refs, patch).store, l, s.t.lines[l])
    decreases |refs|
  {
    hide PatchLine;
    if refs != [] {
      var first := PatchLine(s, refs[0].id, patch);
      PatchLineKeepsOthers(s, refs[0].id, patch, l);
      if first.result.Success? {
        PatchLinesKeepOthers(first.store, refs[1..], patch, l);
      }
    }
  }

  lemma UpdateLinesKeepsOthers(s: Store, refs: seq<Reference>, patch: RecordPatch, l: LineId)
    requires l in s.t.lines && forall i :: 0 <= i < |refs| ==> refs[i].id != l
    ensures IsLineOf(UpdateRecords(s, refs, patch).store, l, s.t.lines[l])
  {
    hide PatchLines, StaleReference;
    if UpdateRecords(s, refs, patch).result.Success? {
      PatchLinesKeepOthers(PatchHeaders(s, HeadersOf(s, refs), patch), refs, patch, l);
    }
  }

  lemma MoveKeepsLines(s: Store, ids: set<PlanId>, d: MoveData, l: LineId)
    requires Valid(s) && l in s.t.lines
    ensures IsLineOf(MovePlans(s, ids, d).store, l, s.t.lines[l])
  {
    if MoveError(s, ids).None? {
      AddLinesKeepsOld(WithHeader(s, NewHeader(d)), ids, s.nextHeader, d, l);
    }
  }

  lemma UpdatePlansKeepsLines(s: Store, refs: seq<Reference>, patch: PlanPatch)
    ensures UpdatePlans(s, refs, patch).store.t.lines == s.t.lines
  {
    if UpdatePlans(s, refs, patch).result.Success? {
      PatchPlansKeepLines(s, refs, patch);
    }
  }

  lemma PlanStepsKeepLines(s: Store, step: Step)
    requires step.Create? || step.Update? || step.Delete? || step.SaveStockMaterial? || step.DeleteStockMaterial?
    ensures Apply(s, step).t.lines == s.t.lines
  {
  }

  lemma RestoreKeepsOthers(s: Store, id: LineId, version: Option<nat>, l: LineId)
    requires l in s.t.lines && id != l
    ensures IsLineOf(RestorePlan(s, id, version).store, l, s.t.lines[l])
  {
  }

  lemma UpdateRecordKeepsOthers(s: Store, id: LineId, version: nat, w: RecordWrite, l: LineId)
    requires l in s.t.lines && id != l
    ensures IsLineOf(UpdateRecord(s, id, version, w).store, l, s.t.lines[l])
  {
  }

  lemma StepKeepsLine(s: Store, step: Step, l: LineId)
    requires Valid(s) && l in s.t.lines && Leaves(step, l)
    ensures Kept(Apply(s, step), l, s.t.lines[l])
  {
    hide Valid, CreatePlan, UpdatePlan, UpdatePlans, DeletePlan, DeleteStock, MovePlans, UpdateRecord, UpdateRecords,
         RestorePlan, RecordSync.ApplySync, Smallest, Candidates, Rebuilt;
    match step
    case UpdateMany(refs, patch) => UpdatePlansKeepsLines(s, refs, patch);
    case Move(ids, d) => MoveKeepsLines(s, ids, d, l);
    case UpdateLine(line, version, record) => UpdateRecordKeepsOthers(s, line, version, record, l);
    case UpdateLines(refs, changes) => UpdateLinesKeepsOthers(s, refs, changes, l);
    case Restore(line, expected) => RestoreKeepsOthers(s, line, expected, l);
    case Sync(trace, data) => SyncKeepsSnapshot(s, trace, data, l);
    case Cleanup => ClearedSnapshot(s.t.lines[l]);
    case _ => PlanStepsKeepLines(s, step);
  }

  lemma {:induction false} RunKeepsLine(s: Store, steps: seq<Step>, l: LineId, line: Line)
    requires Valid(s) && Kept(s, l, line)
    requires forall i :: 0 <= i < |steps| ==> ValidStep(steps[i]) && Leaves(steps[i], l)
    ensures Valid(Run(s, steps)) && Kept(Run(s, steps), l, line)
    decreases |steps|
  {
    hide Valid, Items, Apply, Change, Rebuilt;
    if steps != [] {
      StepKeeps(s, steps[0]);
      StepKeepsLine(s, steps[0], l);
      RunKeepsLine(Apply(s, steps[0]), steps[1..], l, line);
    }
  }

  // ---------------------------------------------------------------- restoring

  /** What a cleaned-up plan comes back as: everything but urgency, status and version is as it was. */
  function Restored(plan: Plan): Plan {
    plan.(body := plan.body.(urgency := "正常", status := Normal, version := 1))
  }

  predicate StockIsThere(s: Store, plan: Plan) {
    plan.body.stockMaterial.Some? ==> plan.body.stockMaterial.value in s.stock
  }

  lemma RebuiltFromSnapshot(plan: Plan, p: PlanId, header: HeaderId, d: MoveData)
    ensures Rebuilt(Snapshot(plan, p, header, d)) == Restored(plan)
    ensures Rebuilt(Snapshot(plan, p, header, d).(plan := None)) == Restored(plan)
  {
  }

  /** Line l is gone, and its header with it if that was its last line; otherwise the header is one version on. */
  ghost predicate LineDropped(s: Store, u: Store, l: LineId)
    requires l in s.t.lines && s.t.lines[l].header in s.t.headers
  {
    var h := s.t.lines[l].header;
    && u.t.lines.Keys == s.t.lines.Keys - {l} && (forall k :: k in u.t.lines ==> u.t.lines[k] == s.t.lines[k])
    && (h in u.t.headers <==> exists k :: k in s.t.lines && k != l && s.t.lines[k].header == h)
    && (h in u.t.headers ==> u.t.headers[h] == s.t.headers[h].(version := s.t.headers[h].version + 1))
    && (forall g :: g in s.t.headers && g != h ==> g in u.t.headers && u.t.headers[g] == s.t.headers[g])
    && u.t.headers.Keys <= s.t.headers.Keys
    && u.stock == s.stock && u.files == s.files && u.nextLine == s.nextLine && u.nextHeader == s.nextHeader
  }

  lemma WithoutLineDrops(s: Store, u: Store, l: LineId)
    requires HasLine(s, l) && HasLine(u, l) && u.t.lines == s.t.lines && u.t.headers == s.t.headers
    requires u.stock == s.stock && u.files == s.files && u.nextLine == s.nextLine && u.nextHeader == s.nextHeader
    ensures LineDropped(s, WithoutLine(u, l), l)
  {
  }

  lemma LineHasHeader(s: Store, l: LineId)
    requires Valid(s) && l in s.t.lines
    ensures HasLine(s, l)
  {
    assert s.t.lines[l].header in OwningHeaders(s.t);
  }

  /** The version a client may name for a record line: none, or its header's. */
  predicate IsCurrentVersion(s: Store, l: LineId, version: Option<nat>)
    requires HasLine(s, l)
  {
    version.Some? ==> version.value == s.t.headers[s.t.lines[l].header].version
  }

  /** Plan p is open again under its next version and is otherwise, like all other plans, as it was. */
  ghost predicate PlanReopened(s: Store, u: Store, p: PlanId)
    requires p in s.t.plans
  {
    && u.t.plans.Keys == s.t.plans.Keys && u.nextPlan == s.nextPlan
    && u.t.plans[p].body.status.Normal? && u.t.plans[p].body.version == s.t.plans[p].body.version + 1
    && u.t.plans[p].(body := u.t.plans[p].body.(status := s.t.plans[p].body.status,
                                                version := s.t.plans[p].body.version)) == s.t.plans[p]
    && forall q :: q in s.t.plans && q != p ==> u.t.plans[q] == s.t.plans[q]
  }

  lemma RestoreWithPlan(s: Store, l: LineId, version: Option<nat>)
    requires HasLine(s, l) && s.t.lines[l].plan.Some? && s.t.lines[l].plan.value in s.t.plans
    ensures var o, p := RestorePlan(s, l, version), s.t.lines[l].plan.value;
            && (o.result.Success? <==> IsCurrentVersion(s, l, version))
            && (o.result.Success? ==>
                  && o.result.value == p && PlanReopened(s, o.store, p)
                  && HasLine(WithPlan(s, p, o.store.t.plans[p]), l)
                  && o.store == WithoutLine(WithPlan(s, p, o.store.t.plans[p]), l))
            && (o.result.Failure? ==>
                  o.store == s && o.result.error.VersionConflict? && o.result.error.expected == version.value
                  && o.result.error.actual == s.t.headers[s.t.lines[l].header].version)
  {
    hide HeadersWithout;
  }

  /**
   Restoring a line whose plan still exists succeeds exactly at the right version, answers with the plan, opens it
   again under its next version, drops the line and leaves every other plan and record alone.
   */
  lemma RestoreReopens(s: Store, l: LineId, version: Option<nat>)
    requires Valid(s) && l in s.t.lines && s.t.lines[l].plan.Some? && HasLine(s, l)
    ensures var o, p := RestorePlan(s, l, version), s.t.lines[l].plan.value;
            && p in s.t.plans
            && (o.result.Success? <==> IsCurrentVersion(s, l, version))
            && (o.result.Success? ==>
                  o.result.value == p && PlanReopened(s, o.store, p) && LineDropped(s, o.store, l))
            && (o.result.Failure? ==>
                  o.store == s && o.result.error.VersionConflict? && o.result.error.expected == version.value
                  && o.result.error.actual == s.t.headers[s.t.lines[l].header].version)
  {
    ReferenceIsSound(s, l);
    hide Valid, LineDropped, RestorePlan, WithoutLine, PlanReopened;
    var o, p := RestorePlan(s, l, version), s.t.lines[l].plan.value;
    RestoreWithPlan(s, l, version);
    if o.result.Success? {
      WithoutLineDrops(s, WithPlan(s, p, o.store.t.plans[p]), l);
    }
  }

  /**
   Restoring the unedited line of a plan that has been cleaned up: exactly if the version is right and the linked
   stock material still exists; then the plan is back under the next id and the line is dropped.
   */
  lemma RestoreRebuilds(s: Store, l: LineId, version: Option<nat>, plan: Plan)
    requires Valid(s) && HasLine(s, l) && s.t.lines[l].plan.None? && Rebuilt(s.t.lines[l]) == Restored(plan)
    ensures var o := RestorePlan(s, l, version);
            && (o.result.Success? <==> IsCurrentVersion(s, l, version) && StockIsThere(s, plan))
            && (o.result.Failure? ==> o.store == s)
            && (o.result.Failure? && IsCurrentVersion(s, l, version) ==> o.result.error == ForeignKeyViolation)
            && (o.result.Success? ==>
                  && o.result.value == s.nextPlan && o.result.value !in s.t.plans
                  && o.store.t.plans == s.t.plans[o.result.value := Restored(plan)] && LineDropped(s, o.store, l))
  {
    hide LineDropped;
    if RestorePlan(s, l, version).result.Success? {
      WithoutLineDrops(s, AddPlan(s, Rebuilt(s.t.lines[l])), l);
    }
  }

  /**
   Moving plans, then any run of steps that leaves the line of plan p alone and sees the plan cleaned up,
   then restoring that line: the restore succeeds exactly if the linked stock material (if any) still
   exists, and then p is back under a new id with its own number, business fields and images.
   */
  lemma RestoreUndoesMove(s: Store, ids: set<PlanId>, d: MoveData, p: PlanId, steps: seq<Step>) returns (l: LineId)
    requires Valid(s) && MoveError(s, ids).None? && p in ids
    requires forall i :: 0 <= i < |steps| ==> ValidStep(steps[i])
    ensures IsLineOf(MovePlans(s, ids, d).store, l, Snapshot(s.t.plans[p], p, s.nextHeader, d))
    ensures var w := Run(MovePlans(s, ids, d).store, steps);
            (forall i :: 0 <= i < |steps| ==> Leaves(steps[i], l)) ==>
              && l in w.t.lines
              && (p !in w.t.plans ==>
                    var o := RestorePlan(w, l, None);
                    && (o.result.Success? <==> StockIsThere(w, s.t.plans[p]))
                    && (o.result.Success? ==>
                          && o.result.value !in w.t.plans
                          && o.store.t.plans == w.t.plans[o.result.value := Restored(s.t.plans[p])]))
  {
    hide Valid, Items, MovePlans, Restored, RestorePlan, Rebuilt;
    l := MovedPlanHasLine(s, ids, d, p);
    MovePlansKeeps(s, ids, d);
    if forall i :: 0 <= i < |steps| ==> Leaves(steps[i], l) {
      var line := Snapshot(s.t.plans[p], p, s.nextHeader, d);
      RunKeepsLine(MovePlans(s, ids, d).store, steps, l, line);
      var w := Run(MovePlans(s, ids, d).store, steps);
      if p !in w.t.plans {
        ReferenceIsSound(w, l);
        LineHasHeader(w, l);
        RebuiltFromSnapshot(s.t.plans[p], p, s.nextHeader, d);
        RestoreRebuilds(w, l, None, s.t.plans[p]);
      }
    }
  }

  /** The nightly clean-up as a whole: rounds until there is nothing left to delete. */
  function Drained(s: Store): Store {
    Purged(s, Candidates(s))
  }

  lemma DrainedKeepsLines(s: Store, l: LineId)
    requires Valid(s) && l in s.t.lines
    ensures IsLineOf(Drained(s), l, s.t.lines[l].(plan := None))
  {
    CandidatesAreReferenced(s);
    if s.t.lines[l].plan.Some? {
      assert s.t.lines[l].plan.value in ReferencedPlans(s.t);
    }
  }

  /** Move, clean up, restore: no steps in between. */
  lemma RestoreUndoesMoveAndCleanup(s: Store, ids: set<PlanId>, d: MoveData, p: PlanId) returns (l: LineId)
    requires Valid(s) && MoveError(s, ids).None? && p in ids
    ensures var moved := MovePlans(s, ids, d).store;
            && IsLineOf(moved, l, Snapshot(s.t.plans[p], p, s.nextHeader, d))
            && p !in Drained(moved).t.plans
            && var o := RestorePlan(Drained(moved), l, None);
               && o.result.Success? && o.result.value !in Drained(moved).t.plans
               && o.store.t.plans == Drained(moved).t.plans[o.result.value := Restored(s.t.plans[p])]
  {
    l := MovedPlanHasLine(s, ids, d, p);
    MovePlansKeeps(s, ids, d);
    var moved := MovePlans(s, ids, d).store;
    DrainedRemoves(moved, l, p);
    DrainedKeepsLines(moved, l);
    DrainedIsValid(moved);
    RebuiltFromSnapshot(s.t.plans[p], p, s.nextHeader, d);
    RestoreRebuilds(Drained(moved), l, None, s.t.plans[p]);
    MoveKeepsStock(s, ids, d);
  }

  lemma DrainedRemoves(s: Store, l: LineId, p: PlanId)
    requires Valid(s) && l in s.t.lines && s.t.lines[l].plan == Some(p)
    ensures p !in Drained(s).t.plans
  {
    CandidatesAreReferenced(s);
    assert s.t.lines[l].plan.value in ReferencedPlans(s.t);
  }

  lemma DrainedIsValid(s: Store)
    requires Valid(s)
    ensures Valid(Drained(s)) && Items(Drained(s)) == Items(s) && Candidates(Drained(s)) == {}
  {
    CandidatesAreReferenced(s);
    PurgingKeeps(s, Candidates(s));
    CandidatesAreReferenced(Drained(s));
  }

  lemma {:induction false} AddLinesKeepsStock(s: Store, ids: set<PlanId>, header: HeaderId, d: MoveData)
    requires ids <= s.t.plans.Keys
    ensures AddLines(s, ids, header, d).stock == s.stock
    decreases |ids|
  {
    if ids != {} {
      var p := Least(ids);
      AddLinesKeepsStock(AddLine(s, Snapshot(s.t.plans[p], p, header, d)), ids - {p}, header, d);
    }
  }

  lemma MoveKeepsStock(s: Store, ids: set<PlanId>, d: MoveData)
    requires Valid(s) && MoveError(s, ids).None?
    ensures forall p :: p in ids ==> StockIsThere(MovePlans(s, ids, d).store, s.t.plans[p])
  {
    AddLinesKeepsStock(WithHeader(s, NewHeader(d)), ids, s.nextHeader, d);
  }

  /**
   Move and restore, with no clean-up in between: the plan never left, and comes back under its next version; only
   its line is gone, and the new record with it if it was the only plan moved.
   */
  lemma RestoreUndoesMoveAtOnce(s: Store, ids: set<PlanId>, d: MoveData, p: PlanId) returns (l: LineId)
    requires Valid(s) && MoveError(s, ids).None? && p in ids
    ensures var moved := MovePlans(s, ids, d).store;
            && IsLineOf(moved, l, Snapshot(s.t.plans[p], p, s.nextHeader, d)) && HasLine(moved, l)
            && var o := RestorePlan(moved, l, None);
               && o.result == Success(p) && p in s.t.plans && PlanReopened(s, o.store, p)
               && LineDropped(moved, o.store, l)
               && (ids == {p} ==> o.store.t.lines == s.t.lines && o.store.t.headers == s.t.headers)
  {
    l := MovedPlanHasLine(s, ids, d, p);
    MovePlansKeeps(s, ids, d);
    var moved := MovePlans(s, ids, d).store;
    ReferenceIsSound(moved, l);
    LineHasHeader(moved, l);
    MovedKeepsPlans(s, ids, d);
    hide Valid, LineDropped, Snapshot, MovePlans, RestorePlan;
    RestoreReopens(moved, l, None);
    MovedThenReopened(s, moved, RestorePlan(moved, l, None).store, p);
    if ids == {p} {
      OneLineComesAndGoes(s, d, p, l, RestorePlan(moved, l, None).store);
    }
  }

  lemma MovedKeepsPlans(s: Store, ids: set<PlanId>, d: MoveData)
    requires MoveError(s, ids).None?
    ensures var u := MovePlans(s, ids, d).store; u.t.plans == s.t.plans && u.nextPlan == s.nextPlan
    ensures ids <= s.t.plans.Keys
  {
    AddLinesKeepsPlans(WithHeader(s, NewHeader(d)), ids, s.nextHeader, d);
  }

  lemma MovedThenReopened(s: Store, moved: Store, u: Store, p: PlanId)
    requires p in s.t.plans && moved.t.plans == s.t.plans && moved.nextPlan == s.nextPlan && PlanReopened(moved, u, p)
    ensures PlanReopened(s, u, p)
  {
  }

  lemma {:induction false} AddLinesKeepsPlans(s: Store, ids: set<PlanId>, header: HeaderId, d: MoveData)
    requires ids <= s.t.plans.Keys
    ensures var u := AddLines(s, ids, header, d); u.t.plans == s.t.plans && u.nextPlan == s.nextPlan
    decreases |ids|
  {
    if ids != {} {
      var p := Least(ids);
      AddLinesKeepsPlans(AddLine(s, Snapshot(s.t.plans[p], p, header, d)), ids - {p}, header, d);
    }
  }

  lemma OneLineMoved(s: Store, d: MoveData, p: PlanId)
    requires MoveError(s, {p}).None?
    ensures p in s.t.plans
    ensures MovePlans(s, {p}, d).store
            == AddLine(WithHeader(s, NewHeader(d)), Snapshot(s.t.plans[p], p, s.nextHeader, d))
  {
    hide Snapshot, NewHeader;
    var first := WithHeader(s, NewHeader(d));
    var next := AddLine(first, Snapshot(s.t.plans[p], p, s.nextHeader, d));
    assert Least({p}) == p && {p} - {p} == {};
    assert AddLines(next, {}, s.nextHeader, d) == next;
    assert AddLines(first, {p}, s.nextHeader, d) == next;
  }

  lemma OneLineComesAndGoes(s: Store, d: MoveData, p: PlanId, l: LineId, u: Store)
    requires Valid(s) && MoveError(s, {p}).None? && l !in s.t.lines
    requires var moved := MovePlans(s, {p}, d).store; HasLine(moved, l) && LineDropped(moved, u, l)
    ensures u.t.lines == s.t.lines && u.t.headers == s.t.headers
  {
    OneLineMoved(s, d, p);
    HeadersAreOld(s);
    hide Valid, MovePlans, NewHeader, LineDropped;
    OneLineDropped(s, NewHeader(d), Snapshot(s.t.plans[p], p, s.nextHeader, d), l, u);
  }

  lemma OneLineDropped(s: Store, header: Header, line: Line, l: LineId, u: Store)
    requires line.header == s.nextHeader && l !in s.t.lines
    requires forall k :: k in s.t.lines ==> k < s.nextLine && s.t.lines[k].header < s.nextHeader
    requires forall h :: h in s.t.headers ==> h < s.nextHeader
    requires var moved := AddLine(WithHeader(s, header), line); HasLine(moved, l) && LineDropped(moved, u, l)
    ensures u.t.lines == s.t.lines && u.t.headers == s.t.headers
  {
    assert l == s.nextLine;
    assert s.nextHeader !in u.t.headers;
  }

  lemma HeadersAreOld(s: Store)
    requires Valid(s)
    ensures forall k :: k in s.t.lines ==> k < s.nextLine && s.t.lines[k].header < s.nextHeader
    ensures forall h :: h in s.t.headers ==> h < s.nextHeader
  {
    assert forall k :: k in s.t.lines ==> s.t.lines[k].header in OwningHeaders(s.t);
  }

  /** A restore that fails: the stock material of the plan is deleted between the clean-up and the restore. */
  lemma RestoreAfterDeletedStock(s: Store, p: PlanId, d: MoveData) returns (l: LineId)
    requires Valid(s) && MoveError(s, {p}).None? && s.t.plans[p].body.stockMaterial.Some?
    ensures var stock := s.t.plans[p].body.stockMaterial.value;
            var o := RestorePlan(DeleteStock(Drained(MovePlans(s, {p}, d).store), stock, None, false).store, l, None);
            o.result == Failure(ForeignKeyViolation)
  {
    var moved := MovePlans(s, {p}, d).store;
    var stock := s.t.plans[p].body.stockMaterial.value;
    l := MovedPlanHasLine(s, {p}, d, p);
    MovePlansKeeps(s, {p}, d);
    DrainedKeepsLines(moved, l);
    DrainedIsValid(moved);
    MoveKeepsStock(s, {p}, d);
    DeleteStockKeeps(Drained(moved), stock, None, false);
    RebuiltFromSnapshot(s.t.plans[p], p, s.nextHeader, d);
    RestoreRebuilds(DeleteStock(Drained(moved), stock, None, false).store, l, None, s.t.plans[p]);
  }
}
