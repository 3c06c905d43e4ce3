/**
 What the record services leave in the rows, said of the payload and the rows before the call: the header and the
 lines of a move, an edited record, a patched batch, and that nothing else changes.
 */
module RecordRows {
  import opened Options
  import opened Sets
  import opened Tables
  import opened Purchases
  import opened PurchaseRestore
  import opened PurchaseRows

  // ---------------------------------------------------------------- moving plans

  /** The header of a new record: the payload, with empty texts stored as none. */
  predicate IsMovedHeader(h: Header, d: MoveData) {
    && (if d.purchaseOrderNo.Some? then StoredText(d.purchaseOrderNo.value, h.purchaseOrderNo)
        else h.purchaseOrderNo == Some(d.defaultOrderNo))
    && StoredText(d.contractNo, h.contractNo) && StoredText(d.vesselNo, h.vesselNo)
    && StoredText(d.consolidationPort, h.consolidationPort) && h.consolidationDate == d.consolidationDate
    && h.sailingDate == d.sailingDate && h.remark == d.recordRemark && h.purchaseDate == Some(d.purchaseDate)
    && h.version == 1
  }

  /** The line of a moved plan: the plan's number, date, business fields and images, and what the payload adds. */
  predicate IsCopy(l: Line, plan: Plan, p: PlanId, header: HeaderId, d: MoveData) {
    var a, b := plan.body, l.body;
    && l.number == plan.number && l.plan == Some(p) && l.header == header
    && b.planDate == a.planDate && b.materialCode == a.materialCode && b.category == a.category
    && b.demandDepartment == a.demandDepartment && b.name == a.name && b.modelSpec == a.modelSpec
    && b.unitName == a.unitName && b.actualDemandPerson == a.actualDemandPerson
    && b.purchaseResponsible == a.purchaseResponsible && b.planRemark == a.remark
    && b.stockMaterial == a.stockMaterial && b.purchaseQty == a.plannedQty && b.usage == a.usage
    && b.subitemNo == a.subitemNo && b.images == a.images
    && b.status == d.status && StoredText(d.traceNo, b.traceNo) && b.salesperson == d.salesperson && b.version == 1
  }

  /** How many of the plans come before p. */
  function PlaceIn(ids: set<PlanId>, p: PlanId): nat {
    |set q | q in ids && q < p|
  }

  lemma PlacesShift(ids: set<PlanId>, least: PlanId, p: PlanId)
    requires least in ids && p in ids && forall q :: q in ids ==> least <= q
    ensures if p == least then PlaceIn(ids, p) == 0 else PlaceIn(ids, p) == PlaceIn(ids - {least}, p) + 1
  {
    var before, rest := set q | q in ids && q < p, set q | q in ids - {least} && q < p;
    if p == least {
      assert before == {};
    } else {
      assert before == rest + {least} && least !in rest;
    }
  }

  /** The lines of the plans, from the given id on, in the order of the plan ids. */
  ghost predicate LinesAdded(s: Store, u: Store, ids: set<PlanId>, header: HeaderId, d: MoveData)
    requires ids <= s.t.plans.Keys
  {
    && u.nextLine == s.nextLine + |ids|
    && (forall l :: l in s.t.lines && l < s.nextLine ==> l in u.t.lines && u.t.lines[l] == s.t.lines[l])
    && (forall l :: l in u.t.lines <==> l in s.t.lines || s.nextLine <= l < u.nextLine)
    && (forall p :: p in ids ==>
          var l := s.nextLine + PlaceIn(ids, p); l < u.nextLine && IsCopy(u.t.lines[l], s.t.plans[p], p, header, d))
  }

  lemma {:induction false} AddLinesAdds(s: Store, ids: set<PlanId>, header: HeaderId, d: MoveData)
    requires ids <= s.t.plans.Keys
    ensures LinesAdded(s, AddLines(s, ids, header, d), ids, header, d)
    ensures var u := AddLines(s, ids, header, d);
            u == s.(t := s.t.(lines := u.t.lines), nextLine := u.nextLine)
    decreases |ids|
  {
    if ids == {} {
    } else {
      var p := Least(ids);
      var first := AddLine(s, Snapshot(s.t.plans[p], p, header, d));
      AddLinesAdds(first, ids - {p}, header, d);
      var u := AddLines(first, ids - {p}, header, d);
      assert IsCopy(first.t.lines[s.nextLine], s.t.plans[p], p, header, d);
      hide AddLines, Snapshot, IsCopy;
      AddedThenRest(s, first, u, ids, p, header, d);
      assert u == AddLines(s, ids, header, d);
    }
  }

  lemma AddedThenRest(s: Store, first: Store, u: Store, ids: set<PlanId>, p: PlanId, header: HeaderId, d: MoveData)
    requires ids <= s.t.plans.Keys && p in ids && (forall q :: q in ids ==> p <= q) && first.t.plans == s.t.plans
    requires first.nextLine == s.nextLine + 1 && s.nextLine in first.t.lines
    requires first.t.lines == s.t.lines[s.nextLine := first.t.lines[s.nextLine]]
    requires IsCopy(first.t.lines[s.nextLine], s.t.plans[p], p, header, d)
    requires LinesAdded(first, u, ids - {p}, header, d)
    ensures LinesAdded(s, u, ids, header, d)
  {
    hide IsCopy, PlaceIn;
    assert |ids| == |ids - {p}| + 1;
    forall q | q in ids
      ensures var l := s.nextLine + PlaceIn(ids, q);
              l < u.nextLine && IsCopy(u.t.lines[l], s.t.plans[q], q, header, d)
    {
      PlacesShift(ids, p, q);
    }
  }

  /**
   A move succeeds exactly for coded plans without a record line; it adds one header, and one line per plan in the
   order of the plan ids, and touches nothing else.
   */
  lemma MoveStores(s: Store, ids: set<PlanId>, d: MoveData)
    requires Valid(s)
    ensures var o := MovePlans(s, ids, d);
            && (o.result.Success? <==>
                  && ids <= s.t.plans.Keys
                  && forall p :: p in ids ==> Given(s.t.plans[p].body.materialCode)
                                              && forall l :: l in s.t.lines ==> s.t.lines[l].plan != Some(p))
            && (o.result.Failure? ==> o.store == s)
            && (o.result.Failure? ==>
                  o.result.error == if !(ids <= s.t.plans.Keys) then NotFound
                                    else if exists p :: p in ids && !Given(s.t.plans[p].body.materialCode)
                                    then MaterialCodeRequired else PlanAlreadyMoved)
    ensures var o := MovePlans(s, ids, d);
            var u := o.store;
            o.result.Success? ==>
              && o.result.value == s.nextHeader && s.nextHeader !in s.t.headers && ids <= s.t.plans.Keys
              && s.nextHeader in u.t.headers && IsMovedHeader(u.t.headers[s.nextHeader], d)
              && LinesAdded(s, u, ids, s.nextHeader, d) && (forall l :: l in s.t.lines ==> l < s.nextLine)
              && u.t.headers == s.t.headers[s.nextHeader := u.t.headers[s.nextHeader]]
              && u == s.(t := s.t.(headers := u.t.headers, lines := u.t.lines),
                         nextHeader := s.nextHeader + 1, nextLine := u.nextLine)
  {
    HeadersAreOld(s);
    MoveSucceeds(s, ids, d);
    hide Valid, IsMovedHeader, LinesAdded, NewHeader;
    if MovePlans(s, ids, d).result.Success? {
      var first := WithHeader(s, NewHeader(d));
      AddLinesAdds(first, ids, s.nextHeader, d);
      NewHeaderIsMoved(d);
      SameLinesAdded(s, first, MovePlans(s, ids, d).store, ids, s.nextHeader, d);
    }
  }

  lemma NewHeaderIsMoved(d: MoveData)
    ensures IsMovedHeader(NewHeader(d), d)
  {
  }

  lemma SameLinesAdded(s: Store, first: Store, u: Store, ids: set<PlanId>, header: HeaderId, d: MoveData)
    requires ids <= s.t.plans.Keys && first.t.plans == s.t.plans && first.t.lines == s.t.lines
    requires first.nextLine == s.nextLine && LinesAdded(first, u, ids, header, d)
    ensures LinesAdded(s, u, ids, header, d)
  {
    hide IsCopy, PlaceIn;
  }

  lemma MoveSucceeds(s: Store, ids: set<PlanId>, d: MoveData)
    ensures MovePlans(s, ids, d).result.Success?
            <==> && ids <= s.t.plans.Keys
                 && forall p :: p in ids ==> Given(s.t.plans[p].body.materialCode)
                                             && forall l :: l in s.t.lines ==> s.t.lines[l].plan != Some(p)
    ensures MovePlans(s, ids, d).result.Failure? ==> MovePlans(s, ids, d).store == s
    ensures MovePlans(s, ids, d).result.Failure? ==>
              MovePlans(s, ids, d).result.error
              == if !(ids <= s.t.plans.Keys) then NotFound
                 else if exists p :: p in ids && !Given(s.t.plans[p].body.materialCode)
                 then MaterialCodeRequired else PlanAlreadyMoved
  {
    if ids <= s.t.plans.Keys {
      forall p: PlanId ensures IsReferenced(s, p) <==> exists l :: l in s.t.lines && s.t.lines[l].plan == Some(p) {
        if l :| l in s.t.lines && s.t.lines[l].plan == Some(p) {
          assert References(s.t, l, p);
        }
      }
    }
    hide IsReferenced, AddLines;
  }

  // ---------------------------------------------------------------- editing one record

  /** The line and the header of an edited record hold the payload, with empty texts stored as none. */
  predicate RecordSays(b: LineBody, h: Header, w: RecordWrite) {
    && b.planDate == w.planDate && b.materialCode == w.materialCode && b.category == w.category
    && b.demandDepartment == w.demandDepartment && b.name == w.name && b.modelSpec == w.modelSpec
    && b.unitName == w.unitName && b.actualDemandPerson == w.actualDemandPerson
    && b.purchaseResponsible == w.purchaseResponsible && b.planRemark == w.planRemark
    && b.stockMaterial == w.stockMaterial && b.purchaseQty == w.purchaseQty && b.status == w.status
    && b.usage == w.usage && b.subitemNo == w.subitemNo && b.salesperson == w.salesperson && b.images == w.images
    && StoredText(w.traceNo, b.traceNo)
    && StoredText(w.purchaseOrderNo, h.purchaseOrderNo) && StoredText(w.contractNo, h.contractNo)
    && StoredText(w.vesselNo, h.vesselNo) && StoredText(w.consolidationPort, h.consolidationPort)
    && h.consolidationDate == w.consolidationDate && h.sailingDate == w.sailingDate
    && h.purchaseDate == w.purchaseDate && h.remark == w.recordRemark
  }

  /** Only lines and headers changed, and among those only the given ones. */
  ghost predicate OnlyRecords(s: Store, u: Store, lines: set<LineId>, headers: set<HeaderId>) {
    && u == s.(t := s.t.(lines := u.t.lines, headers := u.t.headers))
    && u.t.lines.Keys == s.t.lines.Keys && u.t.headers.Keys == s.t.headers.Keys
    && (forall l :: l in s.t.lines && l !in lines ==> u.t.lines[l] == s.t.lines[l])
    && (forall h :: h in s.t.headers && h !in headers ==> u.t.headers[h] == s.t.headers[h])
  }

  /**
   An edit succeeds exactly for an existing record at its header's version with images that exist; it rewrites the
   line, which keeps its number, plan and header, and the header, both under their next versions, and nothing else.
   */
  lemma UpdateRecordStores(s: Store, id: LineId, version: nat, w: RecordWrite)
    ensures var o := UpdateRecord(s, id, version, w);
            && (o.result.Success? <==>
                  && HasLine(s, id) && version == s.t.headers[s.t.lines[id].header].version
                  && forall f :: f in w.images ==> f in s.files)
            && (o.result.Failure? ==> o.store == s)
            && (HasLine(s, id) && version != s.t.headers[s.t.lines[id].header].version ==>
                  o.result == Failure(VersionConflict(version, s.t.headers[s.t.lines[id].header].version)))
            && (o.result.Success? ==>
                  var h := s.t.lines[id].header;
                  && OnlyRecords(s, o.store, {id}, {h})
                  && var line, header := o.store.t.lines[id], o.store.t.headers[h];
                     && RecordSays(line.body, header, w)
                     && line == s.t.lines[id].(body := line.body)
                     && line.body.version == s.t.lines[id].body.version + 1
                     && header.version == version + 1)
  {
    if HasLine(s, id) {
      RewrittenRecordSays(s.t.lines[id].body, s.t.headers[s.t.lines[id].header], w);
    }
    hide RewrittenLine, RewrittenHeader, RecordSays;
  }

  lemma RewrittenRecordSays(l: LineBody, h: Header, w: RecordWrite)
    ensures RecordSays(RewrittenLine(l, w), RewrittenHeader(h, w), w)
    ensures RewrittenLine(l, w).version == l.version + 1 && RewrittenHeader(h, w).version == h.version + 1
  {
  }

  // ---------------------------------------------------------------- batches of records

  predicate TextTakenOver(given: Option<Option<string>>, before: Option<string>, after: Option<string>) {
    match given
    case Some(text) => StoredText(text, after)
    case None => after == before
  }

  /** A header of the batch takes over the fields that are given, under its next version; the others stay. */
  predicate HeaderPatched(a: Header, b: Header, p: RecordPatch) {
    && TextTakenOver(p.purchaseOrderNo, a.purchaseOrderNo, b.purchaseOrderNo)
    && TextTakenOver(p.contractNo, a.contractNo, b.contractNo) && TextTakenOver(p.vesselNo, a.vesselNo, b.vesselNo)
    && TextTakenOver(p.consolidationPort, a.consolidationPort, b.consolidationPort)
    && TakenOver(p.consolidationDate, a.consolidationDate, b.consolidationDate)
    && TakenOver(p.sailingDate, a.sailingDate, b.sailingDate)
    && TakenOver(p.purchaseDate, a.purchaseDate, b.purchaseDate) && TakenOver(p.recordRemark, a.remark, b.remark)
    && b.version == a.version + 1
  }

  /** So does a line, except that its version counts the fields that are given; it keeps its plan and header. */
  predicate LinePatched(a: Line, b: Line, p: RecordPatch) {
    && b == a.(number := b.number, body := b.body)
    && TakenOver(p.planDate, a.body.planDate, b.body.planDate)
    && TakenOver(p.actualDemandPerson, a.body.actualDemandPerson, b.body.actualDemandPerson)
    && TakenOver(p.purchaseResponsible, a.body.purchaseResponsible, b.body.purchaseResponsible)
    && TakenOver(p.status, a.body.status, b.body.status)
    && TextTakenOver(p.traceNo, a.body.traceNo, b.body.traceNo)
    && TakenOver(p.salesperson, a.body.salesperson, b.body.salesperson)
    && b.body.version == a.body.version + GivenFields(p) + Count(b.body.planDate != a.body.planDate)
    && b.body == a.body.(planDate := b.body.planDate, actualDemandPerson := b.body.actualDemandPerson,
                         purchaseResponsible := b.body.purchaseResponsible, status := b.body.status,
                         traceNo := b.body.traceNo, salesperson := b.body.salesperson, version := b.body.version)
    && (b.body.planDate == a.body.planDate ==> b.number == a.number)
  }

  function GivenFields(p: RecordPatch): nat {
    Count(p.actualDemandPerson.Some?) + Count(p.purchaseResponsible.Some?) + Count(p.status.Some?)
    + Count(p.traceNo.Some?) + Count(p.salesperson.Some?)
  }

  predicate IsLinePatched(s: Store, u: Store, id: LineId, patch: RecordPatch) {
    id in s.t.lines && id in u.t.lines && LinePatched(s.t.lines[id], u.t.lines[id], patch)
  }

  lemma PatchLineStores(s: Store, id: LineId, patch: RecordPatch)
    requires id in s.t.lines && PatchLine(s, id, patch).result.Success?
    ensures var u := PatchLine(s, id, patch).store;
            OnlyRecords(s, u, {id}, {}) && IsLinePatched(s, u, id, patch)
  {
    hide NextPlanNo;
    var traceNo := s.t.lines[id].body.traceNo;
    assert TextTakenOver(patch.traceNo, traceNo, PatchText(patch.traceNo, traceNo));
  }

  lemma {:induction false} PatchLinesStore(s: Store, refs: seq<Reference>, patch: RecordPatch)
    requires DistinctReferences(refs) && forall i :: 0 <= i < |refs| ==> refs[i].id in s.t.lines
    requires PatchLines(s, refs, patch).result.Success?
    ensures var u := PatchLines(s, refs, patch).store;
            && OnlyRecords(s, u, IdsOf(refs), {})
            && forall i :: 0 <= i < |refs| ==> IsLinePatched(s, u, refs[i].id, patch)
    decreases |refs|
  {
    if refs != [] {
      var first := PatchLine(s, refs[0].id, patch);
      IdsStep(refs);
      PatchLinesStep(s, refs, patch);
      PatchLineStores(s, refs[0].id, patch);
      hide PatchLine, IsLinePatched, PatchLines, OnlyRecords, IdsOf;
      PatchLinesStore(first.store, refs[1..], patch);
      PatchedThenRest(s, first.store, PatchLines(first.store, refs[1..], patch).store, refs, patch);
    }
  }

  lemma PatchedThenRest(s: Store, first: Store, u: Store, refs: seq<Reference>, patch: RecordPatch)
    requires refs != [] && DistinctReferences(refs) && forall i :: 0 <= i < |refs| ==> refs[i].id in s.t.lines
    requires OnlyRecords(s, first, {refs[0].id}, {}) && IsLinePatched(s, first, refs[0].id, patch)
    requires OnlyRecords(first, u, IdsOf(refs[1..]), {})
    requires forall i :: 0 <= i < |refs[1..]| ==> IsLinePatched(first, u, refs[1..][i].id, patch)
    ensures OnlyRecords(s, u, IdsOf(refs), {}) && forall i :: 0 <= i < |refs| ==> IsLinePatched(s, u, refs[i].id, patch)
  {
    IdsStep(refs);
    OnlyRecordsThen(s, first, u, {refs[0].id}, IdsOf(refs[1..]), {}, {});
    hide OnlyRecords, IsLinePatched, IdsOf;
    forall i | 0 <= i < |refs| ensures IsLinePatched(s, u, refs[i].id, patch) {
      if i == 0 {
        PatchedBefore(s, first, u, IdsOf(refs[1..]), refs[0].id, patch);
      } else {
        assert refs[1..][i - 1] == refs[i];
        PatchedAfter(s, first, u, {refs[0].id}, refs[i].id, patch);
      }
    }
  }

  lemma PatchLinesStep(s: Store, refs: seq<Reference>, patch: RecordPatch)
    requires refs != [] && forall i :: 0 <= i < |refs| ==> refs[i].id in s.t.lines
    requires PatchLines(s, refs, patch).result.Success?
    ensures PatchLine(s, refs[0].id, patch).result.Success?
    ensures var first := PatchLine(s, refs[0].id, patch);
            && refs[0].id in first.store.t.lines
            && (forall i :: 0 <= i < |refs[1..]| ==> refs[1..][i].id in first.store.t.lines)
            && PatchLines(s, refs, patch) == PatchLines(first.store, refs[1..], patch)
  {
  }

  lemma OnlyRecordsThen(s: Store, u: Store, w: Store, a: set<LineId>, b: set<LineId>,
                        g: set<HeaderId>, h: set<HeaderId>)
    requires OnlyRecords(s, u, a, g) && OnlyRecords(u, w, b, h)
    ensures OnlyRecords(s, w, a + b, g + h)
  {
  }

  lemma PatchedAfter(s: Store, u: Store, w: Store, others: set<LineId>, l: LineId, patch: RecordPatch)
    requires OnlyRecords(s, u, others, {}) && l in s.t.lines && l !in others && IsLinePatched(u, w, l, patch)
    ensures IsLinePatched(s, w, l, patch)
  {
    hide LinePatched;
  }

  lemma PatchedBefore(s: Store, u: Store, w: Store, others: set<LineId>, l: LineId, patch: RecordPatch)
    requires OnlyRecords(u, w, others, {}) && l !in others && IsLinePatched(s, u, l, patch)
    ensures IsLinePatched(s, w, l, patch)
  {
    hide LinePatched;
  }

  lemma PatchHeadersStore(s: Store, headers: set<HeaderId>, patch: RecordPatch)
    ensures var u := PatchHeaders(s, headers, patch);
            && OnlyRecords(s, u, {}, headers)
            && forall h :: h in headers && h in s.t.headers ==> HeaderPatched(s.t.headers[h], u.t.headers[h], patch)
  {
    forall h | h in s.t.headers ensures HeaderPatched(s.t.headers[h], PatchedHeader(s.t.headers[h], patch), patch) {
      PatchedHeaderSays(s.t.headers[h], patch);
    }
    hide PatchedHeader, HeaderPatched;
  }

  lemma PatchedHeaderSays(h: Header, patch: RecordPatch)
    ensures HeaderPatched(h, PatchedHeader(h, patch), patch)
  {
  }

  /** A batch that succeeds patches each named line and, once, each of their headers, and nothing else. */
  lemma UpdateRecordsStores(s: Store, refs: seq<Reference>, patch: RecordPatch)
    ensures var o := UpdateRecords(s, refs, patch);
            && (o.result.Failure? ==> o.store == s)
            && (o.result.Success? ==>
                  && DistinctReferences(refs) && (forall i :: 0 <= i < |refs| ==> HasLine(s, refs[i].id))
                  && OnlyRecords(s, o.store, IdsOf(refs), HeadersOf(s, refs))
                  && (forall i :: 0 <= i < |refs| ==> IsLinePatched(s, o.store, refs[i].id, patch))
                  && (forall i :: 0 <= i < |refs| ==> IsHeaderPatched(s, o.store, refs[i].id, patch)))
  {
    hide PatchLines, PatchHeaders, OnlyRecords, LinePatched, HeaderPatched, StaleReference;
    if UpdateRecords(s, refs, patch).result.Success? {
      var headers := HeadersOf(s, refs);
      var first := PatchHeaders(s, headers, patch);
      PatchHeadersStore(s, headers, patch);
      SameLinesPatched(s, first, headers);
      PatchLinesStore(first, refs, patch);
      var u := PatchLines(first, refs, patch).store;
      OnlyRecordsThen(s, first, u, {}, IdsOf(refs), headers, {});
      assert {} + IdsOf(refs) == IdsOf(refs) && headers + {} == headers;
      forall i | 0 <= i < |refs|
        ensures IsLinePatched(s, u, refs[i].id, patch) && IsHeaderPatched(s, u, refs[i].id, patch)
      {
        assert IsLinePatched(first, u, refs[i].id, patch) && s.t.lines[refs[i].id].header in headers;
        SameHeadersKept(first, u, IdsOf(refs));
      }
    }
  }

  predicate IsHeaderPatched(s: Store, u: Store, id: LineId, patch: RecordPatch)
    requires HasLine(s, id)
  {
    var h := s.t.lines[id].header;
    h in u.t.headers && HeaderPatched(s.t.headers[h], u.t.headers[h], patch)
  }

  lemma SameLinesPatched(s: Store, first: Store, headers: set<HeaderId>)
    requires OnlyRecords(s, first, {}, headers)
    ensures first.t.lines == s.t.lines && first.t.headers.Keys == s.t.headers.Keys
  {
  }

  lemma SameHeadersKept(first: Store, u: Store, lines: set<LineId>)
    requires OnlyRecords(first, u, lines, {})
    ensures u.t.headers == first.t.headers
  {
  }

  // ---------------------------------------------------------------- deletions

  /**
   Deleting a stock material succeeds exactly at the version named and without operations; it clears the links of
   plans to it, and no snapshot's.
   */
  lemma DeleteStockClears(s: Store, id: StockId, version: Option<nat>, hasOperations: bool)
    ensures var o := DeleteStock(s, id, version, hasOperations);
            && (o.result.Success? <==>
                  id in s.stock && (version.Some? ==> version.value == s.stock[id]) && !hasOperations)
            && (o.result.Failure? ==>
                  o.store == s
                  && o.result.error == if id !in s.stock then NotFound
                                       else if version.Some? && version.value != s.stock[id]
                                       then VersionConflict(version.value, s.stock[id]) else StockMaterialInUse)
    ensures var u := DeleteStock(s, id, version, hasOperations).store;
            DeleteStock(s, id, version, hasOperations).result.Success? ==>
            && u == s.(stock := s.stock - {id}, t := s.t.(plans := u.t.plans)) && u.t.plans.Keys == s.t.plans.Keys
            && forall p :: p in s.t.plans ==>
                 u.t.plans[p] == if s.t.plans[p].body.stockMaterial == Some(id)
                                 then s.t.plans[p].(body := s.t.plans[p].body.(stockMaterial := None))
                                 else s.t.plans[p]
  {
  }

  /** Deleting a plan takes an unreferenced one at the version named, and nothing else. */
  lemma DeletePlanDrops(s: Store, id: PlanId, version: Option<nat>)
    ensures var o := DeletePlan(s, id, version);
            && (o.result.Success? <==>
                  && id in s.t.plans && (version.Some? ==> version.value == s.t.plans[id].body.version)
                  && forall l :: l in s.t.lines ==> s.t.lines[l].plan != Some(id))
            && (o.result.Failure? ==>
                  o.result.error == if id !in s.t.plans then NotFound
                                    else if version.Some? && version.value != s.t.plans[id].body.version
                                    then VersionConflict(version.value, s.t.plans[id].body.version) else PlanInUse)
            && o.store == if o.result.Success? then s.(t := s.t.(plans := s.t.plans - {id})) else s
  {
    if l :| l in s.t.lines && s.t.lines[l].plan == Some(id) {
      assert References(s.t, l, id);
    }
  }
}
