/**
 A plan number names the plan's date.  Every step keeps this except update_purchase_record, which writes
 the date and keeps the number: it keeps it exactly when it leaves the date alone.
 */
module PurchaseDates {
  import opened Options
  import opened Sets
  import opened PlanNumbers
  import opened Tables
  import opened Purchases
  import opened PurchaseRuns
  import RecordSync

  predicate NamesDate(planNo: string, date: Date) {
    StartsWith(planNo, Prefix(date))
  }

  predicate PlansDated(s: Store) {
    forall p :: p in s.t.plans ==> NamesDate(s.t.plans[p].number, s.t.plans[p].body.planDate)
  }

  predicate LinesDated(s: Store) {
    forall l :: l in s.t.lines ==> NamesDate(s.t.lines[l].number, s.t.lines[l].body.planDate)
  }

  predicate Dated(s: Store) {
    PlansDated(s) && LinesDated(s)
  }

  lemma DateIsUnique(planNo: string, a: Date, b: Date)
    requires NamesDate(planNo, a) && NamesDate(planNo, b)
    ensures a == b
  {
    assert a == Prefix(a)[5..13] == planNo[..14][5..13];
    assert b == Prefix(b)[5..13] == planNo[..14][5..13];
  }

  lemma NextPlanNoNamesDate(s: Store, date: Date)
    requires WellNumbered(s) && NextPlanNo(s, date).Success?
    ensures NamesDate(NextPlanNo(s, date).value, date)
  {
    NextPlanNoIsFresh(s, date);
  }

  lemma RedatedNamesDate(s: Store, plan: Plan, date: Option<Date>)
    requires WellNumbered(s) && NamesDate(plan.number, plan.body.planDate) && Redated(s, plan, date).Success?
    ensures var r := Redated(s, plan, date).value; NamesDate(r.number, r.body.planDate)
  {
    if date.Some? && date.value != plan.body.planDate {
      NextPlanNoNamesDate(s, date.value);
    }
  }

  lemma RedatedLineNamesDate(s: Store, line: Line, date: Option<Date>)
    requires WellNumbered(s) && NamesDate(line.number, line.body.planDate) && RedatedLine(s, line, date).Success?
    ensures var r := RedatedLine(s, line, date).value; NamesDate(r.number, r.body.planDate)
  {
    if date.Some? && date.value != line.body.planDate {
      NextPlanNoNamesDate(s, date.value);
    }
  }

  lemma WithPlanDated(s: Store, id: PlanId, plan: Plan)
    requires Dated(s) && NamesDate(plan.number, plan.body.planDate)
    ensures Dated(WithPlan(s, id, plan))
  {
    hide NamesDate;
  }

  lemma WithLineDated(s: Store, id: LineId, line: Line)
    requires Dated(s) && NamesDate(line.number, line.body.planDate)
    ensures Dated(WithLine(s, id, line))
  {
    hide NamesDate;
  }

  lemma WithoutLineDated(s: Store, id: LineId)
    requires Dated(s) && HasLine(s, id)
    ensures Dated(WithoutLine(s, id))
  {
    hide NamesDate;
  }

  // ---------------------------------------------------------------- plan steps

  lemma CreatePlanDated(s: Store, w: PlanWrite, today: Date)
    requires Valid(s) && Dated(s)
    ensures Dated(CreatePlan(s, w, today).store)
  {
    hide NamesDate, Valid, NextPlanNo, PlansDated, LinesDated;
    if CreatePlan(s, w, today).result.Success? {
      var date := GetOr(w.planDate, today);
      NextPlanNoNamesDate(s, date) by {
        assert Valid(s);
        ValidIsWellNumbered(s);
      }
      WithPlanDated(s, s.nextPlan, NewPlan(w, NextPlanNo(s, date).value, date));
      NextIdKeepsDates(WithPlan(s, s.nextPlan, NewPlan(w, NextPlanNo(s, date).value, date)), s.nextPlan + 1,
                       s.nextLine);
    }
  }

  lemma NextIdKeepsDates(s: Store, nextPlan: PlanId, nextLine: LineId)
    requires Dated(s)
    ensures Dated(s.(nextPlan := nextPlan)) && Dated(s.(nextLine := nextLine))
  {
    hide NamesDate;
  }

  lemma UpdatePlanDated(s: Store, id: PlanId, version: nat, w: PlanWrite)
    requires Valid(s) && Dated(s)
    ensures Dated(UpdatePlan(s, id, version, w).store)
  {
    hide Valid, NamesDate, Redated;
    if UpdatePlan(s, id, version, w).result.Success? {
      ValidIsWellNumbered(s);
      RedatedNamesDate(s, s.t.plans[id], w.planDate);
      var redated := Redated(s, s.t.plans[id], w.planDate).value;
      WithPlanDated(s, id, redated.(body := Rewritten(redated.body, w)));
    }
  }

  lemma PatchPlanDated(s: Store, ref: Reference, patch: PlanPatch)
    requires Valid(s) && Dated(s) && ref.id in s.t.plans
    ensures Dated(PatchPlan(s, ref, patch).store)
  {
    hide Valid, NamesDate, Redated;
    if PatchPlan(s, ref, patch).result.Success? {
      ValidIsWellNumbered(s);
      RedatedNamesDate(s, s.t.plans[ref.id], patch.planDate);
      var redated := Redated(s, s.t.plans[ref.id], patch.planDate).value;
      WithPlanDated(s, ref.id, redated.(body := Patched(redated.body, patch)));
    }
  }

  lemma {:induction false} PatchPlansDated(s: Store, refs: seq<Reference>, patch: PlanPatch)
    requires Valid(s) && Dated(s) && forall i :: 0 <= i < |refs| ==> refs[i].id in s.t.plans
    ensures Dated(PatchPlans(s, refs, patch).store)
    decreases |refs|
  {
    hide Valid, Items, Dated, PatchPlan;
    if refs != [] {
      PatchPlanKeeps(s, refs[0], patch);
      PatchPlanKeepsIds(s, refs[0], patch);
      PatchPlanDated(s, refs[0], patch);
      var first := PatchPlan(s, refs[0], patch);
      if first.result.Success? {
        PatchPlansDated(first.store, refs[1..], patch);
      }
    }
  }

  lemma UpdatePlansDated(s: Store, refs: seq<Reference>, patch: PlanPatch)
    requires Valid(s) && Dated(s)
    ensures Dated(UpdatePlans(s, refs, patch).store)
  {
    hide Valid, Dated, PatchPlans;
    if UpdatePlans(s, refs, patch).result.Success? {
      PatchPlansDated(s, refs, patch);
    }
  }

  lemma DroppingDated(s: Store, step: Step)
    requires Dated(s) && (step.Delete? || step.SaveStockMaterial? || step.DeleteStockMaterial? || step.Cleanup?)
    ensures Dated(Apply(s, step))
  {
    hide NamesDate, Smallest, Candidates;
  }

  // ---------------------------------------------------------------- record steps

  lemma {:induction false} AddLinesDated(s: Store, ids: set<PlanId>, header: HeaderId, d: MoveData)
    requires Dated(s) && ids <= s.t.plans.Keys
    ensures Dated(AddLines(s, ids, header, d))
    decreases |ids|
  {
    hide NamesDate;
    if ids != {} {
      var p := Least(ids);
      var line := Snapshot(s.t.plans[p], p, header, d);
      WithLineDated(s, s.nextLine, line);
      NextIdKeepsDates(WithLine(s, s.nextLine, line), s.nextPlan, s.nextLine + 1);
      hide Dated, Snapshot;
      AddLinesDated(AddLine(s, line), ids - {p}, header, d);
    }
  }

  lemma MovePlansDated(s: Store, ids: set<PlanId>, d: MoveData)
    requires Dated(s)
    ensures Dated(MovePlans(s, ids, d).store)
  {
    hide NamesDate, AddLines;
    if MoveError(s, ids).None? {
      AddLinesDated(WithHeader(s, NewHeader(d)), ids, s.nextHeader, d);
    }
  }

  lemma PatchLineDated(s: Store, id: LineId, patch: RecordPatch)
    requires Valid(s) && Dated(s) && id in s.t.lines
    ensures Dated(PatchLine(s, id, patch).store)
  {
    hide Valid, NamesDate, RedatedLine;
    if PatchLine(s, id, patch).result.Success? {
      ValidIsWellNumbered(s);
      RedatedLineNamesDate(s, s.t.lines[id], patch.planDate);
      var redated := RedatedLine(s, s.t.lines[id], patch.planDate).value;
      WithLineDated(s, id, redated.(body := PatchedLine(redated.body, patch)));
    }
  }

  lemma {:induction false} PatchLinesDated(s: Store, refs: seq<Reference>, patch: RecordPatch)
    requires Valid(s) && Dated(s) && forall i :: 0 <= i < |refs| ==> refs[i].id in s.t.lines
    ensures Dated(PatchLines(s, refs, patch).store)
    decreases |refs|
  {
    hide Valid, Items, Dated, PatchLine;
    if refs != [] {
      PatchLineKeeps(s, refs[0].id, patch);
      PatchLineDated(s, refs[0].id, patch);
      var first := PatchLine(s, refs[0].id, patch);
      if first.result.Success? {
        PatchLinesDated(first.store, refs[1..], patch);
      }
    }
  }

  lemma PatchHeadersDated(s: Store, headers: set<HeaderId>, patch: RecordPatch)
    requires Dated(s)
    ensures Dated(PatchHeaders(s, headers, patch))
  {
    hide NamesDate;
  }

  lemma UpdateRecordsDated(s: Store, refs: seq<Reference>, patch: RecordPatch)
    requires Valid(s) && Dated(s)
    ensures Dated(UpdateRecords(s, refs, patch).store)
  {
    hide Valid, Items, Dated, PatchLines, StaleReference;
    if UpdateRecords(s, refs, patch).result.Success? {
      PatchHeadersKeeps(s, HeadersOf(s, refs), patch);
      PatchHeadersDated(s, HeadersOf(s, refs), patch);
      PatchLinesDated(PatchHeaders(s, HeadersOf(s, refs), patch), refs, patch);
    }
  }

  lemma RestorePlanDated(s: Store, id: LineId, version: Option<nat>)
    requires Dated(s)
    ensures Dated(RestorePlan(s, id, version).store)
  {
    hide NamesDate;
    if RestorePlan(s, id, version).result.Success? {
      var line := s.t.lines[id];
      if line.plan.Some? && line.plan.value in s.t.plans {
        var p := line.plan.value;
        WithPlanDated(s, p, Reopened(s.t.plans[p]));
        WithoutLineDated(WithPlan(s, p, Reopened(s.t.plans[p])), id);
      } else {
        WithPlanDated(s, s.nextPlan, Rebuilt(line));
        NextIdKeepsDates(WithPlan(s, s.nextPlan, Rebuilt(line)), s.nextPlan + 1, s.nextLine);
        WithoutLineDated(AddPlan(s, Rebuilt(line)), id);
      }
    }
  }

  lemma SyncDated(s: Store, trace: string, d: RecordSync.SyncData)
    requires Dated(s)
    ensures Dated(RecordSync.ApplySync(s, trace, d).store)
  {
    hide NamesDate, RecordSync.SyncedHeader, RecordSync.Fill, RecordSync.Progress, RecordSync.LineChanges;
  }

  // ---------------------------------------------------------------- the step that does not keep it

  /** Editing a record keeps the numbers naming the dates exactly if it keeps the line's date. */
  lemma UpdateRecordDatedIff(s: Store, id: LineId, version: nat, w: RecordWrite)
    requires Dated(s) && UpdateRecord(s, id, version, w).result.Success?
    ensures Dated(UpdateRecord(s, id, version, w).store) <==> w.planDate == s.t.lines[id].body.planDate
  {
    hide NamesDate;
    var u := UpdateRecord(s, id, version, w).store;
    assert u.t.lines[id].number == s.t.lines[id].number && u.t.lines[id].body.planDate == w.planDate;
    if Dated(u) {
      DateIsUnique(s.t.lines[id].number, w.planDate, s.t.lines[id].body.planDate);
    }
  }

  /** Every accepted edit that changes the date breaks it. */
  lemma RedatingARecordBreaks(s: Store, id: LineId, w: RecordWrite)
    requires Dated(s) && HasLine(s, id) && (forall f :: f in w.images ==> f in s.files)
    requires w.planDate != s.t.lines[id].body.planDate
    ensures var o := UpdateRecord(s, id, s.t.headers[s.t.lines[id].header].version, w);
            o.result.Success? && !Dated(o.store)
  {
    UpdateRecordDatedIff(s, id, s.t.headers[s.t.lines[id].header].version, w);
  }

  /** A store with one record of 1 January 2025, whose plan was cleaned up. */
  function OneRecord(line: LineBody, header: Header): Store {
    Store(Tables(map[], map[1 := LineRow(PlanNo("20250101", 1), None, 1, line)], map[1 := header]), map[], {}, 1, 2, 2)
  }

  lemma OneRecordIsSound(line: LineBody, header: Header)
    ensures Sound(OneRecord(line, header).t)
  {
    hide PlanNo;
    assert 1 in OwningHeaders(OneRecord(line, header).t) by {
      assert OneRecord(line, header).t.lines[1].header == 1;
    }
  }

  lemma OneRecordIsValid(line: LineBody, header: Header)
    ensures Valid(OneRecord(line, header))
    ensures line.planDate == "20250101" ==> Dated(OneRecord(line, header))
  {
    PlanNoParts("20250101", 1);
    hide PlanNo, IsPlanNo, StartsWith, Prefix;
    OneRecordIsSound(line, header);
    hide Sound;
  }

  const BOLT: LineBody :=
    LineBody("20250101", None, None, "", "bolt", "", "", "", "", None, None, 1, "", "", None, None, None, [], 1)

  const NO_HEADER: Header := Header(None, None, None, None, None, None, None, None, 1)

  /** The same record, said to be of the day after. */
  const DAY_LATER: RecordWrite :=
    RecordWrite("20250102", None, None, "", "bolt", "", "", "", "", 1, "", None, None, None, [], None, None, None, None,
                None, None, None, None, None, "", None)

  /** A valid store whose number names its date, and an edit after which it no longer does. */
  lemma RedatedRecord()
    ensures Valid(OneRecord(BOLT, NO_HEADER)) && Dated(OneRecord(BOLT, NO_HEADER))
    ensures UpdateRecord(OneRecord(BOLT, NO_HEADER), 1, 1, DAY_LATER).result.Success?
    ensures !Dated(UpdateRecord(OneRecord(BOLT, NO_HEADER), 1, 1, DAY_LATER).store)
  {
    OneRecordIsValid(BOLT, NO_HEADER);
    assert DAY_LATER.planDate[7] == '2' && BOLT.planDate[7] == '1';
    RedatingARecordBreaks(OneRecord(BOLT, NO_HEADER), 1, DAY_LATER);
  }

  /** Every other step keeps the numbers naming the dates. */
  lemma StepKeepsDates(s: Store, step: Step)
    requires Valid(s) && Dated(s) && !step.UpdateLine?
    ensures Dated(Apply(s, step))
  {
    hide Valid, Dated, CreatePlan, UpdatePlan, UpdatePlans, DeletePlan, DeleteStock, MovePlans, UpdateRecord,
         UpdateRecords,
         RestorePlan, RecordSync.ApplySync, CleanupOnce;
    match step
    case Create(w, today) => CreatePlanDated(s, w, today);
    case Update(id, version, w) => UpdatePlanDated(s, id, version, w);
    case UpdateMany(refs, patch) => UpdatePlansDated(s, refs, patch);
    case Move(ids, d) => MovePlansDated(s, ids, d);
    case UpdateLine(_, _, _) =>
    case UpdateLines(refs, changes) => UpdateRecordsDated(s, refs, changes);
    case Restore(line, expected) => RestorePlanDated(s, line, expected);
    case Sync(trace, data) => SyncDated(s, trace, data);
    case _ => DroppingDated(s, step);
  }
}
