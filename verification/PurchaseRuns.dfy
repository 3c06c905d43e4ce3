/**
 What every step of the purchase life cycle keeps: plan numbers, snapshots and references stay sound, and
 the number of open items (plans not in a record, plus record lines) changes only when a plan is created
 or deleted.
 */
module PurchaseRuns {
  import opened Options
  import opened Texts
  import opened Sets
  import opened PlanNumbers
  import opened Tables
  import opened Purchases
  import RecordSync

  function Items(s: Store): nat {
    OpenItems(s.t)
  }

  // ---------------------------------------------------------------- numbers

  ghost function NumbersWith(s: Store, prefix: string): set<string> {
    PlanNosWith(s, prefix) + SnapshotNosWith(s, prefix)
  }

  lemma InUseIff(s: Store, prefix: string)
    ensures forall x :: StartsWith(x, prefix) ==> (InUse(s.t, x) <==> x in NumbersWith(s, prefix))
  {
  }

  /**
   next_purchase_plan_no gives out a well-formed number of the date that neither table uses, one above
   the highest index in use; and it gives out none exactly when number 999 of the date is taken.
   */
  lemma NextPlanNoIsFresh(s: Store, date: Date)
    requires WellNumbered(s)
    ensures NextPlanNo(s, date).Failure? <==> InUse(s.t, PlanNo(date, 999))
    ensures NextPlanNo(s, date).Success? ==>
              IsNextNumber(NumbersWith(s, Prefix(date)), date, NextPlanNo(s, date).value)
              && !InUse(s.t, NextPlanNo(s, date).value)
  {
    var prefix := Prefix(date);
    var numbers := NumbersWith(s, prefix);
    assert NumbersOf(numbers, date);
    LaterIsGreatest(PlanNosWith(s, prefix), SnapshotNosWith(s, prefix));
    NumberAfterIsNext(numbers, Later(MaxText(PlanNosWith(s, prefix)), MaxText(SnapshotNosWith(s, prefix))), date);
    PlanNoParts(date, 999);
    InUseIff(s, prefix);
  }

  /** A number that is the row's own, or new. */
  ghost predicate OwnOrFresh(s: Store, own: string, planNo: string) {
    planNo == own || (IsPlanNo(planNo) && !InUse(s.t, planNo))
  }

  lemma ValidIsWellNumbered(s: Store)
    requires Valid(s)
    ensures WellNumbered(s)
  {
  }

  lemma RedatedIsFresh(s: Store, plan: Plan, date: Option<Date>)
    requires WellNumbered(s) && Redated(s, plan, date).Success?
    ensures OwnOrFresh(s, plan.number, Redated(s, plan, date).value.number)
  {
    if date.Some? && date.value != plan.body.planDate {
      NextPlanNoIsFresh(s, date.value);
    }
  }

  lemma RedatedLineIsFresh(s: Store, line: Line, date: Option<Date>)
    requires WellNumbered(s) && RedatedLine(s, line, date).Success?
    ensures OwnOrFresh(s, line.number, RedatedLine(s, line, date).value.number)
  {
    if date.Some? && date.value != line.body.planDate {
      NextPlanNoIsFresh(s, date.value);
    }
  }

  // ---------------------------------------------------------------- single rows

  lemma RewritingPlanKeeps(s: Store, id: PlanId, plan: Plan)
    requires Valid(s) && id in s.t.plans && OwnOrFresh(s, s.t.plans[id].number, plan.number)
    requires plan.body.stockMaterial.Some? ==> plan.body.stockMaterial.value in s.stock
    ensures Valid(WithPlan(s, id, plan)) && Items(WithPlan(s, id, plan)) == Items(s)
  {
    RewritePlan(s.t, id, plan);
    RewrittenPlanRows(s, id, plan);
  }

  lemma RewrittenPlanRows(s: Store, id: PlanId, plan: Plan)
    requires RowsAreSound(s) && id in s.t.plans && IsPlanNo(plan.number)
    requires plan.body.stockMaterial.Some? ==> plan.body.stockMaterial.value in s.stock
    ensures RowsAreSound(WithPlan(s, id, plan))
  {
  }

  lemma RewritingLineKeeps(s: Store, id: LineId, line: Line)
    requires Valid(s) && id in s.t.lines && line.plan == s.t.lines[id].plan && line.header == s.t.lines[id].header
    requires OwnOrFresh(s, s.t.lines[id].number, line.number)
    ensures Valid(WithLine(s, id, line)) && Items(WithLine(s, id, line)) == Items(s)
  {
    RewriteLine(s.t, id, line);
    RewrittenLineRows(s, id, line);
  }

  lemma RewrittenLineRows(s: Store, id: LineId, line: Line)
    requires RowsAreSound(s) && id in s.t.lines && IsPlanNo(line.number)
    ensures RowsAreSound(WithLine(s, id, line))
  {
  }

  lemma AddPlanKeeps(s: Store, plan: Plan)
    requires Valid(s) && IsPlanNo(plan.number) && !InUse(s.t, plan.number)
    requires plan.body.stockMaterial.Some? ==> plan.body.stockMaterial.value in s.stock
    ensures Valid(AddPlan(s, plan)) && Items(AddPlan(s, plan)) == Items(s) + 1
  {
    InsertPlan(s.t, s.nextPlan, plan);
    AddedPlanRows(s, plan);
  }

  lemma AddedPlanRows(s: Store, plan: Plan)
    requires RowsAreSound(s) && IsPlanNo(plan.number)
    requires plan.body.stockMaterial.Some? ==> plan.body.stockMaterial.value in s.stock
    ensures RowsAreSound(AddPlan(s, plan))
  {
  }

  lemma LooseIff(s: Store, p: PlanId)
    requires p in s.t.plans
    ensures p in Loose(s.t) <==> !IsReferenced(s, p)
  {
    ReferencedIff(s.t);
  }

  lemma RemovingPlanKeeps(s: Store, id: PlanId)
    requires Valid(s) && id in s.t.plans && !IsReferenced(s, id)
    ensures var u := s.(t := DropPlans(s.t, {id})); Valid(u) && Items(u) + 1 == Items(s)
  {
    LooseIff(s, id);
    DropPlan(s.t, id);
  }

  // ---------------------------------------------------------------- plan steps

  lemma CreatePlanKeeps(s: Store, w: PlanWrite, today: Date)
    requires Valid(s)
    ensures var o := CreatePlan(s, w, today);
            Valid(o.store) && Items(o.store) == Items(s) + if o.result.Success? then 1 else 0
  {
    var planDate := GetOr(w.planDate, today);
    NextPlanNoIsFresh(s, planDate);
    if CreatePlan(s, w, today).result.Success? {
      AddPlanKeeps(s, NewPlan(w, NextPlanNo(s, planDate).value, planDate));
    }
  }

  lemma UpdatePlanKeeps(s: Store, id: PlanId, version: nat, w: PlanWrite)
    requires Valid(s)
    ensures var o := UpdatePlan(s, id, version, w); Valid(o.store) && Items(o.store) == Items(s)
  {
    hide Valid, Items, OwnOrFresh;
    if UpdatePlan(s, id, version, w).result.Success? {
      var redated := Redated(s, s.t.plans[id], w.planDate).value;
      ValidIsWellNumbered(s);
      RedatedIsFresh(s, s.t.plans[id], w.planDate);
      RewritingPlanKeeps(s, id, redated.(body := Rewritten(redated.body, w)));
    }
  }

  lemma PatchPlanKeeps(s: Store, ref: Reference, patch: PlanPatch)
    requires Valid(s) && ref.id in s.t.plans
    ensures var o := PatchPlan(s, ref, patch); Valid(o.store) && Items(o.store) == Items(s)
  {
    hide Valid, Items;
    if PatchPlan(s, ref, patch).result.Success? {
      PatchedPlanIsSound(s, ref, patch);
      var redated := Redated(s, s.t.plans[ref.id], patch.planDate).value;
      RewritingPlanKeeps(s, ref.id, redated.(body := Patched(redated.body, patch)));
    }
  }

  lemma PatchedPlanIsSound(s: Store, ref: Reference, patch: PlanPatch)
    requires Valid(s) && ref.id in s.t.plans && Redated(s, s.t.plans[ref.id], patch.planDate).Success?
    ensures var plan := Redated(s, s.t.plans[ref.id], patch.planDate).value;
            && OwnOrFresh(s, s.t.plans[ref.id].number, plan.number)
            && (plan.body.stockMaterial.Some? ==> plan.body.stockMaterial.value in s.stock)
  {
    RedatedIsFresh(s, s.t.plans[ref.id], patch.planDate);
    RedatedKeepsLink(s, s.t.plans[ref.id], patch.planDate);
  }

  lemma PatchPlanKeepsIds(s: Store, ref: Reference, patch: PlanPatch)
    requires ref.id in s.t.plans
    ensures PatchPlan(s, ref, patch).store.t.plans.Keys == s.t.plans.Keys
  {
  }

  lemma RedatedKeepsLink(s: Store, plan: Plan, date: Option<Date>)
    requires Redated(s, plan, date).Success?
    ensures Redated(s, plan, date).value.body.stockMaterial == plan.body.stockMaterial
  {
  }

  lemma {:induction false} PatchPlansKeep(s: Store, refs: seq<Reference>, patch: PlanPatch)
    requires Valid(s) && forall i :: 0 <= i < |refs| ==> refs[i].id in s.t.plans
    ensures var o := PatchPlans(s, refs, patch); Valid(o.store) && Items(o.store) == Items(s)
    decreases |refs|
  {
    hide Valid, Items, PatchPlan;
    if refs != [] {
      PatchPlanKeeps(s, refs[0], patch);
      PatchPlanKeepsIds(s, refs[0], patch);
      var first := PatchPlan(s, refs[0], patch);
      if first.result.Success? {
        PatchPlansKeep(first.store, refs[1..], patch);
      }
    }
  }

  lemma UpdatePlansKeeps(s: Store, refs: seq<Reference>, patch: PlanPatch)
    requires Valid(s)
    ensures var o := UpdatePlans(s, refs, patch); Valid(o.store) && Items(o.store) == Items(s)
  {
    if UpdatePlans(s, refs, patch).result.Success? {
      PatchPlansKeep(s, refs, patch);
    }
  }

  lemma DeletePlanKeeps(s: Store, id: PlanId, version: Option<nat>)
    requires Valid(s)
    ensures var o := DeletePlan(s, id, version);
            && Valid(o.store) && Items(o.store) == Items(s) - (if o.result.Success? then 1 else 0)
            && (o.result.Success? ==> id in Loose(s.t))
  {
    if id in s.t.plans {
      LooseIff(s, id);
    }
    if DeletePlan(s, id, version).result.Success? {
      RemovingPlanKeeps(s, id);
    }
  }

  lemma SaveStockKeeps(s: Store, stock: StockId, version: nat)
    requires Valid(s)
    ensures var u := s.(stock := s.stock[stock := version]); Valid(u) && Items(u) == Items(s)
  {
  }

  /** Steps that rewrite rows without touching a number, a reference or a header. */
  ghost predicate SameNumbers(a: Store, b: Store) {
    && a.t.plans.Keys == b.t.plans.Keys && (forall p :: p in a.t.plans ==> a.t.plans[p].number == b.t.plans[p].number)
    && a.t.lines.Keys == b.t.lines.Keys
    && (forall l :: l in a.t.lines ==>
          && a.t.lines[l].number == b.t.lines[l].number
          && a.t.lines[l].plan == b.t.lines[l].plan && a.t.lines[l].header == b.t.lines[l].header)
    && a.t.headers.Keys == b.t.headers.Keys
    && a.nextPlan == b.nextPlan && a.nextLine == b.nextLine && a.nextHeader == b.nextHeader
  }

  lemma SameNumbersKeep(a: Store, b: Store)
    requires Valid(a) && SameNumbers(a, b) && StockLinksAreSound(b)
    ensures Valid(b) && Items(b) == Items(a)
  {
    SameLinks(a.t, b.t);
    SameRows(a, b);
    SameUniqueness(a, b);
  }

  lemma SameRows(a: Store, b: Store)
    requires RowsAreSound(a) && SameNumbers(a, b) && StockLinksAreSound(b)
    ensures RowsAreSound(b)
  {
  }

  lemma SameUniqueness(a: Store, b: Store)
    requires SoundLines(a.t) && SameNumbers(a, b)
    ensures PlanNumbersDistinct(b.t) && SnapshotsDistinct(b.t) && SharedByReference(b.t) && ReferencesDistinct(b.t)
  {
  }

  lemma DeleteStockKeepsNumbers(s: Store, id: StockId, version: Option<nat>, hasOperations: bool)
    requires Valid(s) && DeleteStock(s, id, version, hasOperations).result.Success?
    ensures SameNumbers(s, DeleteStock(s, id, version, hasOperations).store)
    ensures StockLinksAreSound(DeleteStock(s, id, version, hasOperations).store)
  {
    hide SoundLines, Items;
  }

  lemma DeleteStockKeeps(s: Store, id: StockId, version: Option<nat>, hasOperations: bool)
    requires Valid(s)
    ensures var o := DeleteStock(s, id, version, hasOperations); Valid(o.store) && Items(o.store) == Items(s)
  {
    if DeleteStock(s, id, version, hasOperations).result.Success? {
      DeleteStockKeepsNumbers(s, id, version, hasOperations);
      hide DeleteStock, Valid, SameNumbers, StockLinksAreSound, Items;
      SameNumbersKeep(s, DeleteStock(s, id, version, hasOperations).store);
    }
  }

  // ---------------------------------------------------------------- moving

  /** Valid, except that the header being filled may still be without lines. */
  ghost predicate ValidBut(s: Store, header: HeaderId) {
    && RowsAreSound(s) && SoundLines(s.t)
    && header in s.t.headers && s.t.headers.Keys - {header} <= OwningHeaders(s.t)
  }

  lemma AddLineKeeps(s: Store, p: PlanId, header: HeaderId, d: MoveData)
    requires ValidBut(s, header) && p in Loose(s.t)
    ensures var u := AddLine(s, Snapshot(s.t.plans[p], p, header, d));
            && ValidBut(u, header) && header in OwningHeaders(u.t) && u.t.plans == s.t.plans
            && Loose(u.t) == Loose(s.t) - {p} && Items(u) == Items(s)
  {
    var line := Snapshot(s.t.plans[p], p, header, d);
    InsertLine(s.t, s.nextLine, line, p);
    AddedLineRows(s, line);
  }

  lemma AddedLineRows(s: Store, line: Line)
    requires RowsAreSound(s) && IsPlanNo(line.number)
    ensures RowsAreSound(AddLine(s, line))
  {
  }

  lemma {:induction false} AddLinesKeep(s: Store, ids: set<PlanId>, header: HeaderId, d: MoveData)
    requires ValidBut(s, header) && ids <= s.t.plans.Keys && ids <= Loose(s.t)
    ensures var u := AddLines(s, ids, header, d);
            && ValidBut(u, header) && Items(u) == Items(s)
            && (ids != {} || header in OwningHeaders(s.t) ==> header in OwningHeaders(u.t))
    decreases |ids|
  {
    hide ValidBut, Items, AddLine, Snapshot, OwningHeaders;
    if ids != {} {
      var p := Least(ids);
      AddLineKeeps(s, p, header, d);
      AddLinesKeep(AddLine(s, Snapshot(s.t.plans[p], p, header, d)), ids - {p}, header, d);
    }
  }

  lemma NewHeaderIsValidBut(s: Store, header: Header)
    requires Valid(s)
    ensures ValidBut(WithHeader(s, header), s.nextHeader)
    ensures Loose(WithHeader(s, header).t) == Loose(s.t) && Items(WithHeader(s, header)) == Items(s)
  {
    SameLinks(s.t, WithHeader(s, header).t);
  }

  lemma MovableIsLoose(s: Store, ids: set<PlanId>)
    requires MoveError(s, ids).None?
    ensures ids <= Loose(s.t)
  {
    forall p | p in ids ensures p in Loose(s.t) {
      LooseIff(s, p);
    }
  }

  lemma MovePlansKeeps(s: Store, ids: set<PlanId>, d: MoveData)
    requires Valid(s) && ids != {}
    ensures var o := MovePlans(s, ids, d); Valid(o.store) && Items(o.store) == Items(s)
  {
    hide Valid, ValidBut, Items, AddLines, OwningHeaders;
    if MoveError(s, ids).None? {
      NewHeaderIsValidBut(s, NewHeader(d));
      MovableIsLoose(s, ids);
      AddLinesKeep(WithHeader(s, NewHeader(d)), ids, s.nextHeader, d);
      FilledHeaderIsValid(MovePlans(s, ids, d).store, s.nextHeader);
    }
  }

  lemma FilledHeaderIsValid(s: Store, header: HeaderId)
    requires ValidBut(s, header) && header in OwningHeaders(s.t)
    ensures Valid(s)
  {
  }

  // ---------------------------------------------------------------- record steps

  lemma UpdateRecordKeeps(s: Store, id: LineId, version: nat, w: RecordWrite)
    requires Valid(s)
    ensures var o := UpdateRecord(s, id, version, w); Valid(o.store) && Items(o.store) == Items(s)
  {
    UpdateRecordKeepsNumbers(s, id, version, w);
    hide UpdateRecord;
    SameNumbersKeep(s, UpdateRecord(s, id, version, w).store);
  }

  lemma UpdateRecordKeepsNumbers(s: Store, id: LineId, version: nat, w: RecordWrite)
    ensures var u := UpdateRecord(s, id, version, w).store;
            SameNumbers(s, u) && u.t.plans == s.t.plans && u.stock == s.stock
  {
  }

  lemma PatchLineKeeps(s: Store, id: LineId, patch: RecordPatch)
    requires Valid(s) && id in s.t.lines
    ensures var o := PatchLine(s, id, patch);
            Valid(o.store) && Items(o.store) == Items(s) && o.store.t.lines.Keys == s.t.lines.Keys
  {
    if PatchLine(s, id, patch).result.Success? {
      var redated := RedatedLine(s, s.t.lines[id], patch.planDate).value;
      RedatedLineIsFresh(s, s.t.lines[id], patch.planDate);
      RedatedLineKeepsLinks(s, s.t.lines[id], patch.planDate);
      RewritingLineKeeps(s, id, redated.(body := PatchedLine(redated.body, patch)));
    }
  }

  lemma RedatedLineKeepsLinks(s: Store, line: Line, date: Option<Date>)
    requires RedatedLine(s, line, date).Success?
    ensures RedatedLine(s, line, date).value.plan == line.plan && RedatedLine(s, line, date).value.header == line.header
  {
  }

  lemma {:induction false} PatchLinesKeep(s: Store, refs: seq<Reference>, patch: RecordPatch)
    requires Valid(s) && forall i :: 0 <= i < |refs| ==> refs[i].id in s.t.lines
    ensures var o := PatchLines(s, refs, patch); Valid(o.store) && Items(o.store) == Items(s)
    decreases |refs|
  {
    hide Valid, Items, PatchLine;
    if refs != [] {
      PatchLineKeeps(s, refs[0].id, patch);
      var first := PatchLine(s, refs[0].id, patch);
      if first.result.Success? {
        PatchLinesKeep(first.store, refs[1..], patch);
      }
    }
  }

  lemma UpdateRecordsKeeps(s: Store, refs: seq<Reference>, patch: RecordPatch)
    requires Valid(s)
    ensures var o := UpdateRecords(s, refs, patch); Valid(o.store) && Items(o.store) == Items(s)
  {
    hide Valid, Items, PatchLines, StaleReference;
    if UpdateRecords(s, refs, patch).result.Success? {
      PatchHeadersKeeps(s, HeadersOf(s, refs), patch);
      PatchLinesKeep(PatchHeaders(s, HeadersOf(s, refs), patch), refs, patch);
    }
  }

  lemma PatchHeadersKeeps(s: Store, headers: set<HeaderId>, patch: RecordPatch)
    requires Valid(s)
    ensures var u := PatchHeaders(s, headers, patch); Valid(u) && Items(u) == Items(s)
  {
    SameNumbersKeep(s, PatchHeaders(s, headers, patch));
  }

  lemma SyncKeepsNumbers(s: Store, trace: string, d: RecordSync.SyncData)
    ensures var u := RecordSync.Synced(s, trace, d); SameNumbers(s, u) && u.t.plans == s.t.plans && u.stock == s.stock
  {
    hide RecordSync.SyncedBody, RecordSync.SyncedHeader;
  }

  lemma SyncKeeps(s: Store, trace: string, d: RecordSync.SyncData)
    requires Valid(s)
    ensures var u := RecordSync.ApplySync(s, trace, d).store; Valid(u) && Items(u) == Items(s)
  {
    hide RecordSync.Synced, RecordSync.SyncCounts, Strip;
    var t := Strip(trace);
    SyncKeepsNumbers(s, t, d);
    SameNumbersKeep(s, RecordSync.Synced(s, t, d));
  }

  // ---------------------------------------------------------------- restoring

  /** The headers that keep a line when line id goes. */
  lemma RemainingHeaders(s: Store, id: LineId)
    requires Sound(s.t) && id in s.t.lines
    ensures HasLine(s, id)
    ensures HeadersWithout(s, id).Keys == OwningHeaders(DropLine(s.t, id, HeadersWithout(s, id)))
  {
    assert s.t.lines[id].header in OwningHeaders(s.t);
    var rest := DropLine(s.t, id, HeadersWithout(s, id));
    forall h | h in HeadersWithout(s, id) ensures h in OwningHeaders(rest) {
      if h == s.t.lines[id].header {
        var k :| k in s.t.lines && k != id && s.t.lines[k].header == h;
        assert rest.lines[k].header == h;
      } else {
        var k :| k in s.t.lines && s.t.lines[k].header == h;
        assert rest.lines[k].header == h;
      }
    }
    forall h | h in OwningHeaders(rest) ensures h in HeadersWithout(s, id) {
      var k :| k in rest.lines && rest.lines[k].header == h;
      assert s.t.lines[k].header == h && h in OwningHeaders(s.t);
    }
  }

  lemma RemovingLineKeeps(s: Store, id: LineId)
    requires Valid(s) && id in s.t.lines
    ensures HasLine(s, id) && Valid(WithoutLine(s, id))
    ensures Items(WithoutLine(s, id)) + 1 == Items(s) + if s.t.lines[id].plan.Some? then 1 else 0
  {
    RemainingHeaders(s, id);
    RemoveLine(s.t, id, HeadersWithout(s, id));
  }

  lemma KeptPlanRestoreKeeps(s: Store, id: LineId)
    requires Valid(s) && id in s.t.lines && s.t.lines[id].plan.Some? && s.t.lines[id].plan.value in s.t.plans
    ensures var kept := WithPlan(s, s.t.lines[id].plan.value, Reopened(s.t.plans[s.t.lines[id].plan.value]));
            HasLine(kept, id) && Valid(WithoutLine(kept, id)) && Items(WithoutLine(kept, id)) == Items(s)
  {
    var p := s.t.lines[id].plan.value;
    RewritingPlanKeeps(s, p, Reopened(s.t.plans[p]));
    RemovingLineKeeps(WithPlan(s, p, Reopened(s.t.plans[p])), id);
  }

  lemma RebuiltPlanRestoreKeeps(s: Store, id: LineId)
    requires Valid(s) && id in s.t.lines && s.t.lines[id].plan.None?
    requires s.t.lines[id].body.stockMaterial.Some? ==> s.t.lines[id].body.stockMaterial.value in s.stock
    ensures HasLine(s, id)
    ensures var u := AddPlan(s, Rebuilt(s.t.lines[id]));
            HasLine(u, id) && Valid(WithoutLine(u, id)) && Items(WithoutLine(u, id)) == Items(s)
  {
    hide Valid, Items, Rebuilt;
    RemovingLineKeeps(s, id);
    RebuiltIsFresh(s, id);
    AddPlanKeeps(WithoutLine(s, id), Rebuilt(s.t.lines[id]));
    AddAndRemoveCommute(s, Rebuilt(s.t.lines[id]), id);
  }

  lemma RebuiltIsFresh(s: Store, id: LineId)
    requires Valid(s) && HasLine(s, id) && s.t.lines[id].plan.None?
    ensures var plan := Rebuilt(s.t.lines[id]);
            && IsPlanNo(plan.number) && !InUse(WithoutLine(s, id).t, plan.number)
            && plan.body.stockMaterial == s.t.lines[id].body.stockMaterial
  {
    UnreferencedNumberIsFree(s.t, id, HeadersWithout(s, id));
  }

  lemma AddAndRemoveCommute(s: Store, plan: Plan, id: LineId)
    requires HasLine(s, id)
    ensures WithoutLine(AddPlan(s, plan), id) == AddPlan(WithoutLine(s, id), plan)
  {
  }

  lemma ReferenceIsSound(s: Store, id: LineId)
    requires Valid(s) && id in s.t.lines
    ensures s.t.lines[id].plan.Some? ==> s.t.lines[id].plan.value in s.t.plans
  {
    if s.t.lines[id].plan.Some? {
      assert s.t.lines[id].plan.value in ReferencedPlans(s.t);
    }
  }

  lemma RestorePlanKeeps(s: Store, id: LineId, version: Option<nat>)
    requires Valid(s)
    ensures var o := RestorePlan(s, id, version); Valid(o.store) && Items(o.store) == Items(s)
  {
    hide Valid, Items;
    if RestorePlan(s, id, version).result.Success? {
      ReferenceIsSound(s, id);
      if s.t.lines[id].plan.Some? {
        KeptPlanRestoreKeeps(s, id);
      } else {
        RebuiltPlanRestoreKeeps(s, id);
      }
    }
  }

  // ---------------------------------------------------------------- cleaning up

  lemma {:induction false} SmallestMeaning(n: nat, ids: set<nat>)
    ensures Smallest(n, ids) <= ids
    ensures |Smallest(n, ids)| == if |ids| < n then |ids| else n
    ensures forall x, y :: x in Smallest(n, ids) && y in ids - Smallest(n, ids) ==> x < y
    decreases n
  {
    if n != 0 && ids != {} {
      var x := Least(ids);
      SmallestMeaning(n - 1, ids - {x});
      assert ids - Smallest(n, ids) == (ids - {x}) - Smallest(n - 1, ids - {x});
    }
  }

  lemma PlanNoIsNotBlank(x: string)
    requires IsPlanNo(x)
    ensures Trim(x) != ""
  {
    assert x[0] == 'P' && x[16] == x[14..][2];
  }

  /** The guard on blank snapshots never holds a plan back: the candidates are the referenced plans. */
  lemma CandidatesAreReferenced(s: Store)
    requires Valid(s)
    ensures Candidates(s) == ReferencedPlans(s.t)
  {
    forall p | p in ReferencedPlans(s.t) ensures p in Candidates(s) {
      var l :| l in s.t.lines && s.t.lines[l].plan.Some? && s.t.lines[l].plan.value == p;
      PlanNoIsNotBlank(s.t.lines[l].number);
      assert References(s.t, l, p);
    }
    forall p | p in Candidates(s) ensures p in ReferencedPlans(s.t) {
      var l :| l in s.t.lines && References(s.t, l, p) && Trim(s.t.lines[l].number) != "";
      assert s.t.lines[l].plan.value == p;
    }
  }

  lemma PurgingKeeps(s: Store, ids: set<PlanId>)
    requires Valid(s) && ids <= ReferencedPlans(s.t)
    ensures Valid(Purged(s, ids)) && Items(Purged(s, ids)) == Items(s)
    ensures ReferencedPlans(Purged(s, ids).t) == ReferencedPlans(s.t) - ids
  {
    PurgeKeeps(s.t, ids);
    PurgeLinks(s.t, ids);
  }

  /** One round deletes the next fifty referenced plans, or all that are left, and no unreferenced one. */
  lemma CleanupKeeps(s: Store)
    requires Valid(s)
    ensures Valid(CleanupOnce(s)) && Items(CleanupOnce(s)) == Items(s)
    ensures var deleted := Smallest(BATCH_SIZE, Candidates(s));
            && deleted <= ReferencedPlans(s.t)
            && Candidates(CleanupOnce(s)) == Candidates(s) - deleted
            && |deleted| == if |Candidates(s)| < 50 then |Candidates(s)| else 50
  {
    CandidatesAreReferenced(s);
    SmallestMeaning(BATCH_SIZE, Candidates(s));
    PurgingKeeps(s, Smallest(BATCH_SIZE, Candidates(s)));
    CandidatesAreReferenced(CleanupOnce(s));
  }

  // ---------------------------------------------------------------- runs

  datatype Step =
    | Create(w: PlanWrite, today: Date)
    | Update(id: PlanId, version: nat, w: PlanWrite)
    | UpdateMany(refs: seq<Reference>, patch: PlanPatch)
    | Delete(id: PlanId, expected: Option<nat>)
    | SaveStockMaterial(stock: StockId, stockVersion: nat)
    | DeleteStockMaterial(stock: StockId, expected: Option<nat>, hasOperations: bool)
    | Move(ids: set<PlanId>, d: MoveData)
    | UpdateLine(line: LineId, version: nat, record: RecordWrite)
    | UpdateLines(refs: seq<Reference>, changes: RecordPatch)
    | Restore(line: LineId, expected: Option<nat>)
    | Sync(trace: string, data: RecordSync.SyncData)
    | Cleanup

  /** What the request schemas guarantee. */
  predicate ValidStep(step: Step) {
    step.Move? ==> step.ids != {}
  }

  function Apply(s: Store, step: Step): Store {
    match step
    case Create(w, today) => CreatePlan(s, w, today).store
    case Update(id, version, w) => UpdatePlan(s, id, version, w).store
    case UpdateMany(refs, patch) => UpdatePlans(s, refs, patch).store
    case Delete(id, expected) => DeletePlan(s, id, expected).store
    case SaveStockMaterial(stock, version) => s.(stock := s.stock[stock := version])
    case DeleteStockMaterial(stock, expected, hasOperations) => DeleteStock(s, stock, expected, hasOperations).store
    case Move(ids, d) => MovePlans(s, ids, d).store
    case UpdateLine(line, version, record) => UpdateRecord(s, line, version, record).store
    case UpdateLines(refs, changes) => UpdateRecords(s, refs, changes).store
    case Restore(line, expected) => RestorePlan(s, line, expected).store
    case Sync(trace, data) => RecordSync.ApplySync(s, trace, data).store
    case Cleanup => CleanupOnce(s)
  }

  /** What a step does to the number of open items. */
  function Change(s: Store, step: Step): int {
    if step.Create? && CreatePlan(s, step.w, step.today).result.Success? then 1
    else if step.Delete? && DeletePlan(s, step.id, step.expected).result.Success? then -1
    else 0
  }

  /**
   Every step keeps the numbers, snapshots and references sound; and of all steps only creating a plan
   adds an open item and only deleting one removes it: moving, cleaning up and restoring lose nothing.
   */
  lemma StepKeeps(s: Store, step: Step)
    requires Valid(s) && ValidStep(step)
    ensures Valid(Apply(s, step)) && Items(Apply(s, step)) == Items(s) + Change(s, step)
  {
    hide Valid, Items, CreatePlan, UpdatePlan, UpdatePlans, DeletePlan, DeleteStock, MovePlans, UpdateRecord,
         UpdateRecords,
         RestorePlan, RecordSync.ApplySync, CleanupOnce;
    match step
    case Create(w, today) => CreatePlanKeeps(s, w, today);
    case Update(id, version, w) => UpdatePlanKeeps(s, id, version, w);
    case UpdateMany(refs, patch) => UpdatePlansKeeps(s, refs, patch);
    case Delete(id, expected) => DeletePlanKeeps(s, id, expected);
    case SaveStockMaterial(stock, version) => SaveStockKeeps(s, stock, version);
    case DeleteStockMaterial(stock, expected, hasOperations) => DeleteStockKeeps(s, stock, expected, hasOperations);
    case Move(ids, d) => MovePlansKeeps(s, ids, d);
    case UpdateLine(line, version, record) => UpdateRecordKeeps(s, line, version, record);
    case UpdateLines(refs, changes) => UpdateRecordsKeeps(s, refs, changes);
    case Restore(line, expected) => RestorePlanKeeps(s, line, expected);
    case Sync(trace, data) => SyncKeeps(s, trace, data);
    case Cleanup => CleanupKeeps(s);
  }

  function Run(s: Store, steps: seq<Step>): Store
    decreases |steps|
  {
    if steps == [] then s else Run(Apply(s, steps[0]), steps[1..])
  }

  /** Plans created less plans deleted along a run. */
  function TotalChange(s: Store, steps: seq<Step>): int
    decreases |steps|
  {
    if steps == [] then 0 else Change(s, steps[0]) + TotalChange(Apply(s, steps[0]), steps[1..])
  }

  /** Over every run the numbers stay sound, and open items are created and deleted plans and nothing else. */
  lemma {:induction false} RunKeeps(s: Store, steps: seq<Step>)
    requires Valid(s) && forall i :: 0 <= i < |steps| ==> ValidStep(steps[i])
    ensures Valid(Run(s, steps)) && Items(Run(s, steps)) == Items(s) + TotalChange(s, steps)
    decreases |steps|
  {
    hide Valid, Items, Apply, Change;
    if steps != [] {
      StepKeeps(s, steps[0]);
      RunKeeps(Apply(s, steps[0]), steps[1..]);
    }
  }
}
