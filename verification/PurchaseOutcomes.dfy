/**
 When the purchase services succeed, said of the stored data: exactly then, and for a batch that renumbers
 plans also what numbers it gives out.
 */
module PurchaseOutcomes {
  import opened Options
  import opened PlanNumbers
  import opened Tables
  import opened Purchases
  import opened PurchaseRuns
  import opened PurchaseDates

  predicate LinksExist(s: Store, stockMaterial: Option<StockId>, images: seq<FileId>) {
    (stockMaterial.Some? ==> stockMaterial.value in s.stock) && forall f :: f in images ==> f in s.files
  }

  /** What is reported missing: the stock material, or else an image, or else a number. */
  function MissingError(s: Store, stockMaterial: Option<StockId>, images: seq<FileId>): Error {
    if stockMaterial.Some? && stockMaterial.value !in s.stock then NotFound
    else if !LinksExist(s, stockMaterial, images) then InvalidImageId
    else PlanDailyLimitExceeded
  }

  /** The date still has a number to give out. */
  ghost predicate HasNumberLeft(s: Store, date: Date) {
    !InUse(s.t, PlanNo(date, 999))
  }

  lemma CreateSucceedsIff(s: Store, w: PlanWrite, today: Date)
    requires Valid(s)
    ensures CreatePlan(s, w, today).result.Success?
            <==> LinksExist(s, w.stockMaterial, w.images) && HasNumberLeft(s, GetOr(w.planDate, today))
    ensures CreatePlan(s, w, today).result.Failure? ==>
              CreatePlan(s, w, today) == Outcome(s, Failure(MissingError(s, w.stockMaterial, w.images)))
  {
    ValidIsWellNumbered(s);
    NextPlanNoIsFresh(s, GetOr(w.planDate, today));
    hide Valid, NextPlanNo, InUse;
  }

  lemma UpdateSucceedsIff(s: Store, id: PlanId, version: nat, w: PlanWrite)
    requires Valid(s)
    ensures UpdatePlan(s, id, version, w).result.Success?
            <==> && id in s.t.plans && version == s.t.plans[id].body.version
                 && LinksExist(s, w.stockMaterial, w.images)
                 && (w.planDate.Some? && w.planDate.value != s.t.plans[id].body.planDate ==>
                       HasNumberLeft(s, w.planDate.value))
    ensures UpdatePlan(s, id, version, w).result.Failure? ==>
              UpdatePlan(s, id, version, w)
              == Outcome(s, Failure(if id !in s.t.plans then NotFound
                                    else if version != s.t.plans[id].body.version
                                    then VersionConflict(version, s.t.plans[id].body.version)
                                    else MissingError(s, w.stockMaterial, w.images)))
  {
    ValidIsWellNumbered(s);
    if w.planDate.Some? {
      NextPlanNoIsFresh(s, w.planDate.value);
    }
    hide Valid, NextPlanNo, InUse;
  }

  // ---------------------------------------------------------------- numbers given out in a row

  /** The index of the next number of a date; 1000 if there is none left. */
  function NextIndex(s: Store, date: Date): nat {
    var next := NextPlanNo(s, date);
    if next.Success? && |next.value| == 17 then Index(next.value) else 1000
  }

  lemma NextIndexMeaning(s: Store, date: Date)
    requires WellNumbered(s)
    ensures 1 <= NextIndex(s, date) <= 1000 && (NextPlanNo(s, date).Success? <==> NextIndex(s, date) <= 999)
    ensures NextPlanNo(s, date).Success? ==> NextPlanNo(s, date).value == PlanNo(date, NextIndex(s, date))
  {
    NextPlanNoIsFresh(s, date);
    if NextPlanNo(s, date).Success? {
      SplitPlanNo(NextPlanNo(s, date).value, date);
    }
  }

  /** Once a number has been given out, the next one is its successor, even if another number was freed. */
  lemma NextAfterGiven(numbers: set<string>, after: set<string>, date: Date, x: string, y: string)
    requires IsNextNumber(numbers, date, x) && IsNextNumber(after, date, y)
    requires x in after && after <= numbers + {x}
    ensures Index(y) == Index(x) + 1
  {
    var before := PlanNo(date, Index(y) - 1);
    PlanNoParts(date, Index(y) - 1);
    assert before in after;
  }

  lemma GivingOut(s: Store, u: Store, date: Date)
    requires WellNumbered(s) && WellNumbered(u) && NextPlanNo(s, date).Success?
    requires NextPlanNo(s, date).value in NumbersWith(u, Prefix(date))
    requires NumbersWith(u, Prefix(date)) <= NumbersWith(s, Prefix(date)) + {NextPlanNo(s, date).value}
    ensures NextIndex(u, date) == NextIndex(s, date) + 1
  {
    var x := NextPlanNo(s, date).value;
    NextPlanNoIsFresh(s, date);
    NextPlanNoIsFresh(u, date);
    NextIndexMeaning(s, date);
    NextIndexMeaning(u, date);
    PlanNoParts(date, 999);
    InUseIff(s, Prefix(date));
    InUseIff(u, Prefix(date));
    hide NextPlanNo, NumbersWith, InUse, NextIndex;
    if NextPlanNo(u, date).Success? {
      NextAfterGiven(NumbersWith(s, Prefix(date)), NumbersWith(u, Prefix(date)), date, x, NextPlanNo(u, date).value);
      PlanNoParts(date, NextIndex(u, date));
      PlanNoParts(date, NextIndex(s, date));
    } else {
      PlanNoParts(date, NextIndex(s, date));
      assert PlanNo(date, 999) == x;
    }
  }

  lemma SameNumbersWith(s: Store, id: PlanId, plan: Plan, prefix: string)
    requires id in s.t.plans && plan.number == s.t.plans[id].number
    ensures NumbersWith(WithPlan(s, id, plan), prefix) == NumbersWith(s, prefix)
  {
    var u := WithPlan(s, id, plan);
    hide StartsWith;
    assert u.t.lines == s.t.lines;
    forall x ensures x in PlanNosWith(u, prefix) <==> x in PlanNosWith(s, prefix) {
      if x in PlanNosWith(s, prefix) {
        var p :| p in s.t.plans && StartsWith(s.t.plans[p].number, prefix) && s.t.plans[p].number == x;
        assert p in u.t.plans && u.t.plans[p].number == x;
      }
      if x in PlanNosWith(u, prefix) {
        var p :| p in u.t.plans && StartsWith(u.t.plans[p].number, prefix) && u.t.plans[p].number == x;
        assert p in s.t.plans && s.t.plans[p].number == x;
      }
    }
  }

  lemma OneMoreNumberWith(s: Store, id: PlanId, plan: Plan, prefix: string)
    requires id in s.t.plans && StartsWith(plan.number, prefix)
    ensures plan.number in NumbersWith(WithPlan(s, id, plan), prefix)
    ensures NumbersWith(WithPlan(s, id, plan), prefix) <= NumbersWith(s, prefix) + {plan.number}
  {
    var u := WithPlan(s, id, plan);
    hide StartsWith;
    assert u.t.lines == s.t.lines && u.t.plans[id] == plan;
    forall x | x in PlanNosWith(u, prefix) ensures x in PlanNosWith(s, prefix) + {plan.number} {
      var p :| p in u.t.plans && StartsWith(u.t.plans[p].number, prefix) && u.t.plans[p].number == x;
      assert p != id ==> p in s.t.plans && s.t.plans[p].number == x;
    }
  }

  predicate Redates(s: Store, ref: Reference, date: Date)
    requires ref.id in s.t.plans
  {
    s.t.plans[ref.id].body.planDate != date
  }

  /** How many of the plans the batch gives a new date. */
  function CountRedated(s: Store, refs: seq<Reference>, date: Date): nat
    requires AllThere(s, refs)
  {
    if refs == [] then 0 else
      assert IsThere(s, refs[0]) && AllThere(s, refs[1..]);
      Count(Redates(s, refs[0], date)) + CountRedated(s, refs[1..], date)
  }

  predicate IsThere(s: Store, ref: Reference) {
    ref.id in s.t.plans
  }

  predicate AllThere(s: Store, refs: seq<Reference>) {
    forall i :: 0 <= i < |refs| ==> IsThere(s, refs[i])
  }

  predicate VersionMatches(s: Store, ref: Reference)
    requires IsThere(s, ref)
  {
    ref.version == s.t.plans[ref.id].body.version
  }

  predicate VersionsMatch(s: Store, refs: seq<Reference>)
    requires AllThere(s, refs)
  {
    forall i :: 0 <= i < |refs| ==> IsThere(s, refs[i]) && VersionMatches(s, refs[i])
  }

  /** One plan of the batch: it succeeds if its version is right and there is a number left for it. */
  lemma PatchOneMeaning(s: Store, ref: Reference, patch: PlanPatch, date: Date)
    requires Valid(s) && IsThere(s, ref) && patch.planDate == Some(date)
    ensures var o := PatchPlan(s, ref, patch);
            && (o.result.Success? <==>
                  VersionMatches(s, ref) && NextIndex(s, date) + Count(Redates(s, ref, date)) <= 1000)
            && (o.result.Success? ==>
                  && ref.id in o.store.t.plans
                  && o.store.t.plans[ref.id].number
                     == (if Redates(s, ref, date) && NextIndex(s, date) <= 999 then PlanNo(date, NextIndex(s, date))
                         else s.t.plans[ref.id].number)
                  && o.store.t.plans[ref.id].body.planDate == date
                  && NextIndex(o.store, date) == NextIndex(s, date) + Count(Redates(s, ref, date)))
  {
    hide Valid, Items, WellNumbered, NextIndex, NextPlanNo, NumbersWith, PatchPlan;
    ValidIsWellNumbered(s);
    NextIndexMeaning(s, date);
    PatchOneShape(s, ref, patch, date);
    if PatchPlan(s, ref, patch).result.Success? {
      PatchPlanKeeps(s, ref, patch);
      ValidIsWellNumbered(PatchPlan(s, ref, patch).store);
      PatchOneGivesOut(s, PatchPlan(s, ref, patch).store, ref, date);
    }
  }

  lemma PatchOneShape(s: Store, ref: Reference, patch: PlanPatch, date: Date)
    requires IsThere(s, ref) && patch.planDate == Some(date)
    ensures var o := PatchPlan(s, ref, patch);
            && (o.result.Success? <==>
                  VersionMatches(s, ref) && (Redates(s, ref, date) ==> NextPlanNo(s, date).Success?))
            && (o.result.Success? ==>
                  && ref.id in o.store.t.plans && o.store == WithPlan(s, ref.id, o.store.t.plans[ref.id])
                  && o.store.t.plans[ref.id].number
                     == (if Redates(s, ref, date) then NextPlanNo(s, date).value else s.t.plans[ref.id].number)
                  && o.store.t.plans[ref.id].body.planDate == date)
  {
    hide NextPlanNo;
  }

  lemma PatchOneGivesOut(s: Store, u: Store, ref: Reference, date: Date)
    requires WellNumbered(s) && WellNumbered(u) && IsThere(s, ref) && ref.id in u.t.plans
    requires u == WithPlan(s, ref.id, u.t.plans[ref.id])
    requires Redates(s, ref, date) ==>
               NextPlanNo(s, date).Success? && u.t.plans[ref.id].number == NextPlanNo(s, date).value
    requires !Redates(s, ref, date) ==> u.t.plans[ref.id].number == s.t.plans[ref.id].number
    ensures NextIndex(u, date) == NextIndex(s, date) + Count(Redates(s, ref, date))
  {
    hide WellNumbered, NextIndex, NextPlanNo, NumbersWith;
    if Redates(s, ref, date) {
      NextPlanNoNamesDate(s, date);
      hide StartsWith;
      OneMoreNumberWith(s, ref.id, u.t.plans[ref.id], Prefix(date));
      GivingOut(s, u, date);
    } else {
      SameNumbersWith(s, ref.id, u.t.plans[ref.id], Prefix(date));
      SameNext(s, u, date);
    }
  }

  lemma SameNext(s: Store, u: Store, date: Date)
    requires WellNumbered(s) && WellNumbered(u) && NumbersWith(u, Prefix(date)) == NumbersWith(s, Prefix(date))
    ensures NextIndex(u, date) == NextIndex(s, date)
  {
    NextPlanNoIsFresh(s, date);
    NextPlanNoIsFresh(u, date);
    PlanNoParts(date, 999);
    InUseIff(s, Prefix(date));
    InUseIff(u, Prefix(date));
    hide NextPlanNo, NumbersWith, InUse;
    if NextPlanNo(s, date).Success? {
      SameNextNumber(NumbersWith(s, Prefix(date)), date, NextPlanNo(s, date).value, NextPlanNo(u, date).value);
    }
  }

  lemma SameNextNumber(numbers: set<string>, date: Date, x: string, y: string)
    requires IsNextNumber(numbers, date, x) && IsNextNumber(numbers, date, y)
    ensures Index(x) == Index(y)
  {
    if Index(x) > 1 {
      PlanNoParts(date, Index(x) - 1);
    }
    if Index(y) > 1 {
      PlanNoParts(date, Index(y) - 1);
    }
  }

  lemma PatchOneKeepsOthers(s: Store, ref: Reference, patch: PlanPatch, p: PlanId)
    requires ref.id in s.t.plans && p in s.t.plans && p != ref.id
    ensures var u := PatchPlan(s, ref, patch).store; p in u.t.plans && u.t.plans[p] == s.t.plans[p]
  {
  }

  lemma {:induction false} PatchAllKeepsOthers(s: Store, refs: seq<Reference>, patch: PlanPatch, p: PlanId)
    requires AllThere(s, refs) && p in s.t.plans && forall i :: 0 <= i < |refs| ==> refs[i].id != p
    ensures forall i :: 0 <= i < |refs| ==> refs[i].id in s.t.plans
    ensures var u := PatchPlans(s, refs, patch).store; p in u.t.plans && u.t.plans[p] == s.t.plans[p]
    decreases |refs|
  {
    assert forall i :: 0 <= i < |refs| ==> IsThere(s, refs[i]) ==> refs[i].id in s.t.plans;
    if refs != [] {
      PatchOneKeepsOthers(s, refs[0], patch, p);
      PatchPlanKeepsIds(s, refs[0], patch);
      var first := PatchPlan(s, refs[0], patch);
      hide PatchPlan;
      if first.result.Success? {
        assert forall i :: 0 <= i < |refs[1..]| ==> refs[1..][i] == refs[i + 1];
        PatchAllKeepsOthers(first.store, refs[1..], patch, p);
      }
    }
  }

  /** Plans that are the same in both stores count the same. */
  lemma {:induction false} SameCounts(s: Store, u: Store, refs: seq<Reference>, date: Date)
    requires AllThere(s, refs) && AllThere(u, refs)
    requires forall i :: 0 <= i < |refs| ==>
               IsThere(s, refs[i]) && IsThere(u, refs[i]) && u.t.plans[refs[i].id] == s.t.plans[refs[i].id]
    ensures CountRedated(u, refs, date) == CountRedated(s, refs, date)
    ensures VersionsMatch(u, refs) <==> VersionsMatch(s, refs)
    decreases |refs|
  {
    if refs != [] {
      assert IsThere(s, refs[0]) && IsThere(u, refs[0]);
      assert forall i :: 0 <= i < |refs[1..]| ==> refs[1..][i] == refs[i + 1];
      SameCounts(s, u, refs[1..], date);
    }
  }

  /** The index the plan at position i of the batch gets, if it gets a new one. */
  function GivenIndex(s: Store, refs: seq<Reference>, i: nat, date: Date): nat
    requires AllThere(s, refs) && i < |refs|
  {
    NextIndex(s, date) + CountRedated(s, refs[..i], date)
  }

  /** Position i of the batch holds the number it had, or the one given out to it. */
  ghost predicate Numbered(s: Store, u: Store, refs: seq<Reference>, i: nat, date: Date)
    requires AllThere(s, refs) && i < |refs|
  {
    && IsThere(s, refs[i]) && refs[i].id in u.t.plans
    && (if Redates(s, refs[i], date)
        then GivenIndex(s, refs, i, date) <= 999
             && u.t.plans[refs[i].id].number == PlanNo(date, GivenIndex(s, refs, i, date))
        else u.t.plans[refs[i].id].number == s.t.plans[refs[i].id].number)
  }

  /**
   A batch that moves plans to one date succeeds exactly if every version is right and the date has enough
   numbers left for the plans that change their date; and it gives these, in the order of the batch, the
   numbers that follow the highest one in use.
   */
  lemma {:induction false} BatchRenumbersInARow(s: Store, refs: seq<Reference>, patch: PlanPatch, date: Date)
    requires Valid(s) && AllThere(s, refs) && DistinctReferences(refs) && patch.planDate == Some(date)
    ensures forall i :: 0 <= i < |refs| ==> refs[i].id in s.t.plans
    ensures PatchPlans(s, refs, patch).result.Success?
            <==> VersionsMatch(s, refs) && NextIndex(s, date) + CountRedated(s, refs, date) <= 1000
    ensures PatchPlans(s, refs, patch).result.Success? ==>
              forall i :: 0 <= i < |refs| ==> Numbered(s, PatchPlans(s, refs, patch).store, refs, i, date)
    decreases |refs|
  {
    hide Valid, Items, NextIndex, PatchPlan, Redates, VersionMatches, Numbered;
    assert forall i :: 0 <= i < |refs| ==> IsThere(s, refs[i]) ==> refs[i].id in s.t.plans;
    ValidHasNext(s, date);
    if refs != [] {
      var rest := refs[1..];
      assert forall i :: 0 <= i < |rest| ==> rest[i] == refs[i + 1];
      assert IsThere(s, refs[0]);
      var first := PatchPlan(s, refs[0], patch);
      PatchOneMeaning(s, refs[0], patch, date);
      VersionsMatchStep(s, refs);
      if first.result.Success? {
        PatchPlanKeeps(s, refs[0], patch);
        RestIsTheSame(s, refs, patch, date);
        BatchRenumbersInARow(first.store, rest, patch, date);
        if PatchPlans(s, refs, patch).result.Success? {
          FirstAndRestNumbered(s, refs, patch, date);
        }
      }
    }
  }

  lemma ValidHasNext(s: Store, date: Date)
    requires Valid(s)
    ensures 1 <= NextIndex(s, date) <= 1000
  {
    ValidIsWellNumbered(s);
    NextIndexMeaning(s, date);
  }

  lemma VersionsMatchStep(s: Store, refs: seq<Reference>)
    requires AllThere(s, refs) && refs != []
    ensures IsThere(s, refs[0]) && AllThere(s, refs[1..])
    ensures VersionsMatch(s, refs) <==> VersionMatches(s, refs[0]) && VersionsMatch(s, refs[1..])
  {
    hide VersionMatches;
    assert IsThere(s, refs[0]);
    assert forall i :: 0 <= i < |refs[1..]| ==> refs[1..][i] == refs[i + 1];
    assert refs == [refs[0]] + refs[1..];
    if VersionMatches(s, refs[0]) && VersionsMatch(s, refs[1..]) {
      forall i | 0 <= i < |refs| ensures IsThere(s, refs[i]) && VersionMatches(s, refs[i]) {
        assert i > 0 ==> refs[i] == refs[1..][i - 1];
      }
    }
  }

  /** After the first plan of the batch the others are as they were. */
  lemma RestIsTheSame(s: Store, refs: seq<Reference>, patch: PlanPatch, date: Date)
    requires AllThere(s, refs) && refs != [] && DistinctReferences(refs)
    ensures IsThere(s, refs[0])
    ensures var u := PatchPlan(s, refs[0], patch).store;
            && AllThere(u, refs[1..]) && AllThere(s, refs[1..])
            && CountRedated(u, refs[1..], date) == CountRedated(s, refs[1..], date)
            && (VersionsMatch(u, refs[1..]) <==> VersionsMatch(s, refs[1..]))
  {
    assert IsThere(s, refs[0]);
    var u := PatchPlan(s, refs[0], patch).store;
    var rest := refs[1..];
    hide PatchPlan;
    forall i | 0 <= i < |rest|
      ensures IsThere(s, rest[i]) && IsThere(u, rest[i]) && u.t.plans[rest[i].id] == s.t.plans[rest[i].id]
    {
      assert rest[i] == refs[i + 1] && IsThere(s, refs[i + 1]);
      PatchOneKeepsOthers(s, refs[0], patch, rest[i].id);
    }
    SameCounts(s, u, rest, date);
  }

  lemma FirstAndRestNumbered(s: Store, refs: seq<Reference>, patch: PlanPatch, date: Date)
    requires Valid(s) && AllThere(s, refs) && refs != [] && DistinctReferences(refs)
    requires patch.planDate == Some(date)
    requires IsThere(s, refs[0]) && PatchPlan(s, refs[0], patch).result.Success?
    requires var u := PatchPlan(s, refs[0], patch).store;
             && AllThere(u, refs[1..]) && (forall i :: 0 <= i < |refs[1..]| ==> refs[1..][i].id in u.t.plans)
             && forall i :: 0 <= i < |refs[1..]| ==>
                  Numbered(u, PatchPlans(u, refs[1..], patch).store, refs[1..], i, date)
    ensures forall i :: 0 <= i < |refs| ==> refs[i].id in s.t.plans
    ensures forall i :: 0 <= i < |refs| ==> Numbered(s, PatchPlans(s, refs, patch).store, refs, i, date)
  {
    hide PatchPlan, PatchPlans, Valid, NextIndex, Numbered, Redates;
    assert forall i :: 0 <= i < |refs| ==> IsThere(s, refs[i]) ==> refs[i].id in s.t.plans;
    var u := PatchPlan(s, refs[0], patch).store;
    PatchOneMeaning(s, refs[0], patch, date);
    FirstNumbered(s, refs, patch, date);
    forall i | 0 < i < |refs| ensures Numbered(s, PatchPlans(s, refs, patch).store, refs, i, date) {
      assert Numbered(u, PatchPlans(u, refs[1..], patch).store, refs[1..], i - 1, date);
      LaterNumbered(s, u, refs, i, patch, date);
    }
  }

  lemma FirstNumbered(s: Store, refs: seq<Reference>, patch: PlanPatch, date: Date)
    requires Valid(s) && AllThere(s, refs) && refs != [] && DistinctReferences(refs)
    requires patch.planDate == Some(date)
    requires IsThere(s, refs[0]) && PatchPlan(s, refs[0], patch).result.Success?
    requires AllThere(PatchPlan(s, refs[0], patch).store, refs[1..])
    ensures forall i :: 0 <= i < |refs| ==> refs[i].id in s.t.plans
    ensures Numbered(s, PatchPlans(s, refs, patch).store, refs, 0, date)
  {
    hide PatchPlan, Valid, NextIndex;
    assert forall i :: 0 <= i < |refs| ==> IsThere(s, refs[i]) ==> refs[i].id in s.t.plans;
    PatchOneMeaning(s, refs[0], patch, date);
    PatchAllKeepsOthers(PatchPlan(s, refs[0], patch).store, refs[1..], patch, refs[0].id);
    assert refs[..0] == [];
  }

  lemma LaterNumbered(s: Store, u: Store, refs: seq<Reference>, i: nat, patch: PlanPatch, date: Date)
    requires AllThere(s, refs) && 0 < i < |refs| && DistinctReferences(refs) && IsThere(s, refs[0])
    requires PatchPlan(s, refs[0], patch).result.Success? && u == PatchPlan(s, refs[0], patch).store
    requires AllThere(u, refs[1..])
    requires NextIndex(u, date) == NextIndex(s, date) + Count(Redates(s, refs[0], date))
    requires forall k :: 0 <= k < |refs[1..]| ==> refs[1..][k].id in u.t.plans
    requires Numbered(u, PatchPlans(u, refs[1..], patch).store, refs[1..], i - 1, date)
    ensures forall k :: 0 <= k < |refs| ==> refs[k].id in s.t.plans
    ensures Numbered(s, PatchPlans(s, refs, patch).store, refs, i, date)
  {
    assert forall k :: 0 <= k < |refs| ==> IsThere(s, refs[k]) ==> refs[k].id in s.t.plans;
    assert PatchPlans(s, refs, patch) == PatchPlans(u, refs[1..], patch);
    hide PatchPlan, PatchPlans, NextIndex;
    assert refs[1..][i - 1] == refs[i];
    PatchOneKeepsOthers(s, refs[0], patch, refs[i].id);
    GivenIndexStep(s, u, refs, i, patch, date);
    hide GivenIndex;
    assert IsThere(s, refs[i]);
  }

  lemma GivenIndexStep(s: Store, u: Store, refs: seq<Reference>, i: nat, patch: PlanPatch, date: Date)
    requires AllThere(s, refs) && 0 < i < |refs| && DistinctReferences(refs) && IsThere(s, refs[0])
    requires u == PatchPlan(s, refs[0], patch).store && AllThere(u, refs[1..])
    requires NextIndex(u, date) == NextIndex(s, date) + Count(Redates(s, refs[0], date))
    ensures GivenIndex(u, refs[1..], i - 1, date) == GivenIndex(s, refs, i, date)
  {
    var front := refs[..i];
    assert front[1..] == refs[1..][..i - 1] && front[0] == refs[0];
    assert AllThere(s, front);
    RestIsTheSame(s, front, patch, date);
  }

  // ---------------------------------------------------------------- when a batch succeeds

  lemma {:induction false} UndatedBatchSucceedsIff(s: Store, refs: seq<Reference>, patch: PlanPatch)
    requires AllThere(s, refs) && DistinctReferences(refs) && patch.planDate.None?
    ensures forall i :: 0 <= i < |refs| ==> refs[i].id in s.t.plans
    ensures PatchPlans(s, refs, patch).result.Success? <==> VersionsMatch(s, refs)
    decreases |refs|
  {
    assert forall i :: 0 <= i < |refs| ==> IsThere(s, refs[i]) ==> refs[i].id in s.t.plans;
    if refs != [] {
      assert IsThere(s, refs[0]);
      assert forall i :: 0 <= i < |refs[1..]| ==> refs[1..][i] == refs[i + 1];
      VersionsMatchStep(s, refs);
      if PatchPlan(s, refs[0], patch).result.Success? {
        RestIsTheSame(s, refs, patch, s.t.plans[refs[0].id].body.planDate);
        UndatedBatchSucceedsIff(PatchPlan(s, refs[0], patch).store, refs[1..], patch);
      }
    }
  }

  /** A batch succeeds exactly for distinct plans at their versions, if a common new date has enough numbers left. */
  lemma UpdatePlansSucceedsIff(s: Store, refs: seq<Reference>, patch: PlanPatch)
    requires Valid(s)
    ensures UpdatePlans(s, refs, patch).result.Success?
            <==> && DistinctReferences(refs) && AllThere(s, refs) && VersionsMatch(s, refs)
                 && (patch.planDate.Some? ==>
                       NextIndex(s, patch.planDate.value) + CountRedated(s, refs, patch.planDate.value) <= 1000)
  {
    assert AllThere(s, refs) <==> forall i :: 0 <= i < |refs| ==> refs[i].id in s.t.plans by {
      assert forall i :: 0 <= i < |refs| ==> (IsThere(s, refs[i]) <==> refs[i].id in s.t.plans);
    }
    hide Valid, PatchPlans, VersionsMatch, NextIndex, CountRedated, IsThere;
    if DistinctReferences(refs) && AllThere(s, refs) {
      match patch.planDate
      case Some(date) => BatchRenumbersInARow(s, refs, patch, date);
      case None => UndatedBatchSucceedsIff(s, refs, patch);
    }
  }
}
