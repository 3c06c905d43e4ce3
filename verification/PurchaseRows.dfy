/**
 What the purchase services leave in the rows, said of the payload and the rows before the call: what each row
 they write holds afterwards, and that nothing else changes.
 */
module PurchaseRows {
  import opened Options
  import opened PlanNumbers
  import opened Tables
  import opened Purchases
  import opened PurchaseRuns
  import opened PurchaseDates

  /** The new value is the one given, or the old one if none is. */
  predicate TakenOver<T(==)>(given: Option<T>, before: T, after: T) {
    match given
    case Some(value) => after == value
    case None => after == before
  }

  /** A text written back is the one given, with an empty one stored as none. */
  predicate StoredText(given: Option<string>, stored: Option<string>) {
    if given.None? || given.value == "" then stored.None? else stored == given
  }

  // ---------------------------------------------------------------- plans

  /** The fields that a plan takes from a creation and from an update alike. */
  predicate PlanSays(b: PlanBody, w: PlanWrite) {
    && b.materialCode == w.materialCode && b.category == w.category && b.urgency == w.urgency
    && b.demandDepartment == w.demandDepartment && b.name == w.name && b.modelSpec == w.modelSpec
    && b.unitName == w.unitName && b.plannedQty == w.plannedQty && b.usage == w.usage && b.subitemNo == w.subitemNo
    && b.remark == w.remark && b.stockMaterial == w.stockMaterial && b.images == w.images
  }

  /** The number names the date; it is the old one if the date is, and unused before if not. */
  ghost predicate Renumbered(s: Store, was: string, wasDate: Date, number: string, date: Date) {
    if date == wasDate then number == was else NamesDate(number, date) && IsPlanNo(number) && !InUse(s.t, number)
  }

  /** Only plans changed, and among those only the given ones. */
  ghost predicate OnlyPlans(s: Store, u: Store, ids: set<PlanId>) {
    && u == s.(t := s.t.(plans := u.t.plans), nextPlan := u.nextPlan)
    && u.t.plans.Keys == s.t.plans.Keys + ids
    && forall p :: p in s.t.plans && p !in ids ==> u.t.plans[p] == s.t.plans[p]
  }

  /** A new plan: its payload, with the defaults of the source where that says nothing. */
  predicate IsNewPlan(b: PlanBody, w: PlanWrite, today: Date) {
    && PlanSays(b, w) && b.version == 1
    && TakenOver(w.planDate, today, b.planDate) && TakenOver(w.status, Normal, b.status)
    && b.purchaseResponsible == (if Given(w.purchaseResponsible) then w.purchaseResponsible.value else "\\")
    && b.actualDemandPerson
       == (if Given(w.actualDemandPerson) then w.actualDemandPerson.value else b.purchaseResponsible)
  }

  lemma NewPlanSays(w: PlanWrite, planNo: string, today: Date)
    ensures IsNewPlan(NewPlan(w, planNo, GetOr(w.planDate, today)).body, w, today)
    ensures NewPlan(w, planNo, GetOr(w.planDate, today)).number == planNo
    ensures NewPlan(w, planNo, GetOr(w.planDate, today)).body.planDate == GetOr(w.planDate, today)
  {
  }

  /** A creation stores a new plan under the next id, with an unused number of its date, and touches nothing else. */
  lemma CreateStores(s: Store, w: PlanWrite, today: Date)
    requires Valid(s) && CreatePlan(s, w, today).result.Success?
    ensures var o := CreatePlan(s, w, today);
            var id := o.result.value;
            && id == s.nextPlan && id !in s.t.plans && o.store.nextPlan == id + 1 && OnlyPlans(s, o.store, {id})
            && var plan := o.store.t.plans[id];
               && IsNewPlan(plan.body, w, today)
               && NamesDate(plan.number, plan.body.planDate) && IsPlanNo(plan.number) && !InUse(s.t, plan.number)
  {
    hide Valid, NextPlanNo, NamesDate, IsPlanNo, InUse, NewPlan, IsNewPlan, LinkError, OnlyPlans;
    var planNo := NextPlanNo(s, GetOr(w.planDate, today));
    NextNumberIsNew(s, GetOr(w.planDate, today));
    NewPlanSays(w, planNo.value, today);
    NextIdIsFree(s);
    AddedIsOnlyPlan(s, NewPlan(w, planNo.value, GetOr(w.planDate, today)));
  }

  lemma NextNumberIsNew(s: Store, date: Date)
    requires Valid(s) && NextPlanNo(s, date).Success?
    ensures var number := NextPlanNo(s, date).value;
            NamesDate(number, date) && IsPlanNo(number) && !InUse(s.t, number)
  {
    ValidIsWellNumbered(s);
    NextPlanNoIsFresh(s, date);
    NextPlanNoNamesDate(s, date);
    hide Valid, NextPlanNo, NamesDate, IsPlanNo, InUse;
  }

  lemma AddedIsOnlyPlan(s: Store, plan: Plan)
    requires s.nextPlan !in s.t.plans
    ensures var u := AddPlan(s, plan);
            OnlyPlans(s, u, {s.nextPlan}) && u.t.plans[s.nextPlan] == plan && u.nextPlan == s.nextPlan + 1
  {
  }

  lemma NextIdIsFree(s: Store)
    requires Valid(s)
    ensures s.nextPlan !in s.t.plans
  {
  }

  lemma RedatedMeaning(s: Store, plan: Plan, date: Option<Date>)
    requires Valid(s) && Redated(s, plan, date).Success?
    ensures var r := Redated(s, plan, date).value;
            && TakenOver(date, plan.body.planDate, r.body.planDate)
            && r.body == plan.body.(planDate := r.body.planDate)
            && Renumbered(s, plan.number, plan.body.planDate, r.number, r.body.planDate)
  {
    if date.Some? && date.value != plan.body.planDate {
      NextNumberIsNew(s, date.value);
    }
    hide Valid, NextPlanNo, NamesDate, IsPlanNo, InUse;
  }

  /** An updated plan: its payload, keeping what that says nothing of, under the next version. */
  predicate IsUpdatedPlan(a: PlanBody, b: PlanBody, w: PlanWrite) {
    && PlanSays(b, w) && b.version == a.version + 1
    && TakenOver(w.planDate, a.planDate, b.planDate) && TakenOver(w.status, a.status, b.status)
    && TakenOver(w.actualDemandPerson, a.actualDemandPerson, b.actualDemandPerson)
    && b.purchaseResponsible
       == (if Given(w.purchaseResponsible) then w.purchaseResponsible.value else a.purchaseResponsible)
  }

  lemma RewrittenSays(a: PlanBody, date: Date, w: PlanWrite)
    requires TakenOver(w.planDate, a.planDate, date)
    ensures IsUpdatedPlan(a, Rewritten(a.(planDate := date), w), w)
    ensures Rewritten(a.(planDate := date), w).planDate == date
  {
  }

  /** An update rewrites the one plan, renumbers it only if its date changes, and touches nothing else. */
  lemma UpdateStores(s: Store, id: PlanId, version: nat, w: PlanWrite)
    requires Valid(s) && UpdatePlan(s, id, version, w).result.Success?
    ensures var o := UpdatePlan(s, id, version, w);
            && o.result.value == id && id in s.t.plans && OnlyPlans(s, o.store, {id}) && o.store.nextPlan == s.nextPlan
            && var was, plan := s.t.plans[id], o.store.t.plans[id];
               && IsUpdatedPlan(was.body, plan.body, w)
               && Renumbered(s, was.number, was.body.planDate, plan.number, plan.body.planDate)
  {
    var plan := s.t.plans[id];
    RedatedMeaning(s, plan, w.planDate);
    RewrittenSays(plan.body, Redated(s, plan, w.planDate).value.body.planDate, w);
    hide Valid, Redated, Renumbered, Rewritten, IsUpdatedPlan, LinkError, TakenOver;
  }

  /** What a plan would be written as to stay as it is. */
  function AsWritten(plan: Plan): PlanWrite {
    var b := plan.body;
    PlanWrite(Some(b.planDate), b.materialCode, b.category, b.urgency, b.demandDepartment, b.name, b.modelSpec,
              b.unitName, Some(b.actualDemandPerson), Some(b.purchaseResponsible), b.plannedQty, b.usage, b.subitemNo,
              b.remark, b.stockMaterial, Some(b.status), b.images)
  }

  /** Saving a plan as it is changes its version only. */
  lemma UpdateWithoutChanges(s: Store, id: PlanId, version: nat)
    requires id in s.t.plans && UpdatePlan(s, id, version, AsWritten(s.t.plans[id])).result.Success?
    ensures var o, plan := UpdatePlan(s, id, version, AsWritten(s.t.plans[id])), s.t.plans[id];
            o.store == s.(t := s.t.(plans := s.t.plans[id := plan.(body := plan.body.(version := version + 1))]))
  {
  }

  // ---------------------------------------------------------------- batches of plans

  /** A plan of a batch takes over the fields that are given, under its next version; the others stay. */
  predicate PlanPatched(a: PlanBody, b: PlanBody, patch: PlanPatch) {
    && TakenOver(patch.planDate, a.planDate, b.planDate) && TakenOver(patch.category, a.category, b.category)
    && TakenOver(patch.urgency, a.urgency, b.urgency)
    && TakenOver(patch.demandDepartment, a.demandDepartment, b.demandDepartment)
    && TakenOver(patch.actualDemandPerson, a.actualDemandPerson, b.actualDemandPerson)
    && TakenOver(patch.purchaseResponsible, a.purchaseResponsible, b.purchaseResponsible)
    && TakenOver(patch.subitemNo, a.subitemNo, b.subitemNo) && TakenOver(patch.usage, a.usage, b.usage)
    && TakenOver(patch.status, a.status, b.status) && b.version == a.version + 1
    && b.materialCode == a.materialCode && b.name == a.name && b.modelSpec == a.modelSpec
    && b.unitName == a.unitName && b.plannedQty == a.plannedQty && b.remark == a.remark
    && b.stockMaterial == a.stockMaterial && b.images == a.images
  }

  function IdsOf(refs: seq<Reference>): set<nat> {
    set i | 0 <= i < |refs| :: refs[i].id
  }

  predicate IsPatched(s: Store, u: Store, id: PlanId, patch: PlanPatch) {
    && id in s.t.plans && id in u.t.plans && PlanPatched(s.t.plans[id].body, u.t.plans[id].body, patch)
    && (u.t.plans[id].body.planDate == s.t.plans[id].body.planDate ==> u.t.plans[id].number == s.t.plans[id].number)
  }

  lemma PatchPlanStores(s: Store, ref: Reference, patch: PlanPatch)
    requires ref.id in s.t.plans && PatchPlan(s, ref, patch).result.Success?
    ensures var u := PatchPlan(s, ref, patch).store;
            && OnlyPlans(s, u, {ref.id}) && u.nextPlan == s.nextPlan
            && IsPatched(s, u, ref.id, patch)
  {
    hide NextPlanNo;
  }

  /** Every plan of the batch is patched and no other plan is touched; numbers change with dates only. */
  lemma {:induction false} PatchesStore(s: Store, refs: seq<Reference>, patch: PlanPatch)
    requires DistinctReferences(refs) && forall i :: 0 <= i < |refs| ==> refs[i].id in s.t.plans
    requires PatchPlans(s, refs, patch).result.Success?
    ensures var u := PatchPlans(s, refs, patch).store;
            && OnlyPlans(s, u, IdsOf(refs)) && u.nextPlan == s.nextPlan
            && forall i :: 0 <= i < |refs| ==> IsPatched(s, u, refs[i].id, patch)
    decreases |refs|
  {
    if refs != [] {
      var first := PatchPlan(s, refs[0], patch);
      IdsStep(refs);
      PatchPlanStores(s, refs[0], patch);
      PatchPlansStep(s, refs, patch);
      hide PatchPlan, IsPatched, PatchPlans, OnlyPlans, IdsOf;
      PatchesStore(first.store, refs[1..], patch);
      PatchedThenRest(s, first.store, PatchPlans(first.store, refs[1..], patch).store, refs, patch);
    }
  }

  lemma IdsStep(refs: seq<Reference>)
    requires refs != [] && DistinctReferences(refs)
    ensures DistinctReferences(refs[1..]) && IdsOf(refs) == {refs[0].id} + IdsOf(refs[1..])
    ensures refs[0].id !in IdsOf(refs[1..]) && forall i :: 0 <= i < |refs[1..]| ==> refs[1..][i] == refs[i + 1]
  {
    assert refs == [refs[0]] + refs[1..];
  }

  lemma PatchedThenRest(s: Store, first: Store, u: Store, refs: seq<Reference>, patch: PlanPatch)
    requires refs != [] && DistinctReferences(refs) && forall i :: 0 <= i < |refs| ==> refs[i].id in s.t.plans
    requires OnlyPlans(s, first, {refs[0].id}) && IsPatched(s, first, refs[0].id, patch)
    requires OnlyPlans(first, u, IdsOf(refs[1..]))
    requires forall i :: 0 <= i < |refs[1..]| ==> IsPatched(first, u, refs[1..][i].id, patch)
    ensures OnlyPlans(s, u, IdsOf(refs)) && forall i :: 0 <= i < |refs| ==> IsPatched(s, u, refs[i].id, patch)
  {
    IdsStep(refs);
    OnlyPlansThen(s, first, u, {refs[0].id}, IdsOf(refs[1..]));
    hide OnlyPlans, IsPatched, IdsOf;
    forall i | 0 <= i < |refs| ensures IsPatched(s, u, refs[i].id, patch) {
      if i == 0 {
        PatchedBefore(s, first, u, IdsOf(refs[1..]), refs[0].id, patch);
      } else {
        assert refs[1..][i - 1] == refs[i];
        PatchedAfter(s, first, u, {refs[0].id}, refs[i].id, patch);
      }
    }
  }

  lemma OnlyPlansThen(s: Store, u: Store, w: Store, a: set<PlanId>, b: set<PlanId>)
    requires OnlyPlans(s, u, a) && OnlyPlans(u, w, b)
    ensures OnlyPlans(s, w, a + b)
  {
  }

  lemma PatchedAfter(s: Store, u: Store, w: Store, others: set<PlanId>, p: PlanId, patch: PlanPatch)
    requires OnlyPlans(s, u, others) && p in s.t.plans && p !in others && IsPatched(u, w, p, patch)
    ensures IsPatched(s, w, p, patch)
  {
    hide PlanPatched;
  }

  lemma PatchedBefore(s: Store, u: Store, w: Store, others: set<PlanId>, p: PlanId, patch: PlanPatch)
    requires OnlyPlans(u, w, others) && p !in others && IsPatched(s, u, p, patch)
    ensures IsPatched(s, w, p, patch)
  {
    hide PlanPatched;
  }

  lemma PatchPlansStep(s: Store, refs: seq<Reference>, patch: PlanPatch)
    requires refs != [] && forall i :: 0 <= i < |refs| ==> refs[i].id in s.t.plans
    requires PatchPlans(s, refs, patch).result.Success?
    ensures PatchPlan(s, refs[0], patch).result.Success?
    ensures var first := PatchPlan(s, refs[0], patch);
            && (forall i :: 0 <= i < |refs[1..]| ==> refs[1..][i].id in first.store.t.plans)
            && PatchPlans(s, refs, patch) == PatchPlans(first.store, refs[1..], patch)
  {
  }

  /** A batch update that succeeds patches exactly the plans it names; one that fails changes nothing. */
  lemma UpdatePlansStores(s: Store, refs: seq<Reference>, patch: PlanPatch)
    ensures var o := UpdatePlans(s, refs, patch);
            && (o.result.Failure? ==> o.store == s)
            && (o.result.Success? ==>
                  && OnlyPlans(s, o.store, IdsOf(refs)) && o.store.nextPlan == s.nextPlan
                  && forall i :: 0 <= i < |refs| ==> IsPatched(s, o.store, refs[i].id, patch))
  {
    hide PatchPlans, OnlyPlans, IsPatched;
    if UpdatePlans(s, refs, patch).result.Success? {
      PatchesStore(s, refs, patch);
    }
  }
}
