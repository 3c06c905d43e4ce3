/**
 The purchase services as they run: tables that each request updates in place.  Every method is proved to
 leave exactly the store that Purchases.dfy specifies; a request that fails leaves the tables as they were.
 */
module PurchaseService {
  import opened Options
  import opened Sets
  import opened PlanNumbers
  import opened Tables
  import opened Purchases
  import opened PurchaseRuns
  import opened PurchaseRestore
  import opened RecordSync
  import Texts

  // ---------------------------------------------------------------- facts about the specification

  lemma PurgeTwice<N, P, L, H>(t: Tables<N, P, L, H>, a: set<nat>, b: set<nat>)
    ensures Purge(Purge(t, a), b) == Purge(t, a + b)
  {
    assert (t.plans - a) - b == t.plans - (a + b);
  }

  lemma PurgeNothing<N, P, L, H>(t: Tables<N, P, L, H>)
    ensures Purge(t, {}) == t
  {
  }

  lemma CleanupDrains(s: Store)
    requires Valid(s)
    ensures Drained(CleanupOnce(s)) == Drained(s)
  {
    hide Valid, Candidates, Smallest, Purge;
    CleanupKeeps(s);
    SmallestMeaning(BATCH_SIZE, Candidates(s));
    PurgeInTwo(s.t, Smallest(BATCH_SIZE, Candidates(s)), Candidates(s));
  }

  lemma PurgeInTwo<N, P, L, H>(t: Tables<N, P, L, H>, first: set<nat>, all: set<nat>)
    requires first <= all
    ensures Purge(Purge(t, first), all - first) == Purge(t, all)
  {
    PurgeTwice(t, first, all - first);
    assert first + (all - first) == all;
  }

  /** Each round takes fifty off the plans to delete, or the last of them. */
  lemma CleanupProgress(s: Store)
    requires Valid(s)
    ensures Valid(CleanupOnce(s))
    ensures var deleted := |Smallest(BATCH_SIZE, Candidates(s))|;
            && |Candidates(CleanupOnce(s))| + deleted == |Candidates(s)|
            && deleted == if |Candidates(s)| < 50 then |Candidates(s)| else 50
  {
    hide Valid, Candidates, Smallest, CleanupOnce;
    CleanupKeeps(s);
    SmallestMeaning(BATCH_SIZE, Candidates(s));
    CountUnion(Candidates(s), Candidates(CleanupOnce(s)), Smallest(BATCH_SIZE, Candidates(s)));
  }

  lemma NothingToDrain(s: Store)
    requires Candidates(s) == {}
    ensures Drained(s) == s && CleanupOnce(s) == s
  {
    PurgeNothing(s.t);
  }

  /** The clean-up as a whole deletes the referenced plans, no other plan, and nothing of any record. */
  lemma DrainMeaning(s: Store)
    requires Valid(s)
    ensures Valid(Drained(s)) && Candidates(Drained(s)) == {} && ReferencedPlans(Drained(s).t) == {}
    ensures Drained(s).t.plans == s.t.plans - ReferencedPlans(s.t)
    ensures Drained(s).t.lines == map l | l in s.t.lines :: s.t.lines[l].(plan := None)
    ensures Drained(s).t.headers == s.t.headers
  {
    DrainedIsValid(s);
    CandidatesAreReferenced(s);
    CandidatesAreReferenced(Drained(s));
    forall l | l in s.t.lines ensures Drained(s).t.lines[l] == s.t.lines[l].(plan := None) {
      DrainedKeepsLines(s, l);
    }
  }

  lemma PatchedIds(s: Store, refs: seq<Reference>, i: nat, patch: PlanPatch)
    requires i < |refs| && forall j :: i <= j < |refs| ==> refs[j].id in s.t.plans
    ensures PatchPlan(s, refs[i], patch).store.t.plans.Keys == s.t.plans.Keys
    ensures PatchPlans(s, refs[i..], patch)
            == var first := PatchPlan(s, refs[i], patch);
               if first.result.Failure? then first else PatchPlans(first.store, refs[i + 1..], patch)
  {
    PatchPlanKeepsIds(s, refs[i], patch);
    assert refs[i..][1..] == refs[i + 1..];
  }

  lemma PatchedLineIds(s: Store, refs: seq<Reference>, i: nat, patch: RecordPatch)
    requires i < |refs| && forall j :: i <= j < |refs| ==> refs[j].id in s.t.lines
    ensures PatchLine(s, refs[i].id, patch).store.t.lines.Keys == s.t.lines.Keys
    ensures PatchLines(s, refs[i..], patch)
            == var first := PatchLine(s, refs[i].id, patch);
               if first.result.Failure? then first else PatchLines(first.store, refs[i + 1..], patch)
  {
    PatchLineKeepsIds(s, refs[i].id, patch);
    assert refs[i..][1..] == refs[i + 1..];
  }

  lemma StaleRest(s: Store, refs: seq<Reference>, i: nat)
    requires i < |refs| && forall j :: 0 <= j < |refs| ==> HasLine(s, refs[j].id)
    ensures assert HasLine(s, refs[i].id);
            var version := s.t.headers[s.t.lines[refs[i].id].header].version;
            StaleReference(s, refs[i..])
            == if refs[i].version != version then Some(VersionConflict(refs[i].version, version))
               else StaleReference(s, refs[i + 1..])
  {
    assert refs[i..][1..] == refs[i + 1..];
  }

  lemma SyncOneHeader(headers: map<HeaderId, Header>, done: set<HeaderId>, h: HeaderId, d: SyncData)
    requires h in headers && h !in done
    ensures SyncHeaders(headers, done, d)[h] == headers[h]
    ensures SyncHeaders(headers, done + {h}, d) == SyncHeaders(headers, done, d)[h := SyncedHeader(headers[h], d)]
    ensures |ChangedHeaders(headers, done + {h}, d)|
            == |ChangedHeaders(headers, done, d)| + Count(HeaderChanges(headers[h], d))
  {
    hide SyncedHeader, HeaderChanges;
    if HeaderChanges(headers[h], d) {
      CountKeys(ChangedHeaders(headers, done + {h}, d), ChangedHeaders(headers, done, d), h);
    } else {
      assert ChangedHeaders(headers, done + {h}, d) == ChangedHeaders(headers, done, d);
    }
  }

  lemma SyncOneLine(lines: map<LineId, Line>, done: set<LineId>, l: LineId, d: SyncData)
    requires l in lines && l !in done
    ensures SyncLines(lines, done, d)[l] == lines[l]
    ensures SyncLines(lines, done + {l}, d) == SyncLines(lines, done, d)[l := SyncedLine(lines[l], d)]
    ensures |ChangedLines(lines, done + {l}, d)|
            == |ChangedLines(lines, done, d)| + Count(LineChanges(lines[l].body, d))
  {
    hide SyncedLine, LineChanges;
    if LineChanges(lines[l].body, d) {
      CountKeys(ChangedLines(lines, done + {l}, d), ChangedLines(lines, done, d), l);
    } else {
      assert ChangedLines(lines, done + {l}, d) == ChangedLines(lines, done, d);
    }
  }

  lemma SyncNothing(headers: map<HeaderId, Header>, lines: map<LineId, Line>, d: SyncData)
    ensures SyncHeaders(headers, {}, d) == headers && SyncLines(lines, {}, d) == lines
    ensures ChangedHeaders(headers, {}, d) == {} && ChangedLines(lines, {}, d) == {}
  {
  }

  class PurchaseDesk {
    var plans: map<PlanId, Plan>
    var lines: map<LineId, Line>
    var headers: map<HeaderId, Header>
    var stock: map<StockId, nat>
    var files: set<FileId>
    var nextPlan: PlanId
    var nextLine: LineId
    var nextHeader: HeaderId

    function Contents(): Store
      reads this
    {
      Store(Tables(plans, lines, headers), stock, files, nextPlan, nextLine, nextHeader)
    }

    constructor (files: set<FileId>)
      ensures Valid(Contents()) && Items(Contents()) == 0 && this.files == files
    {
      plans, lines, headers := map[], map[], map[];
      stock := map[];
      this.files := files;
      nextPlan, nextLine, nextHeader := 1, 1, 1;
      new;
      assert ReferencedPlans(Contents().t) == {} && OwningHeaders(Contents().t) == {};
    }

    // -------------------------------------------------------------- plans

    method CreatePlan(w: PlanWrite, today: Date) returns (result: Result<PlanId, Error>)
      modifies this
      ensures Outcome(Contents(), result) == Purchases.CreatePlan(old(Contents()), w, today)
    {
      var error := LinkError(Contents(), w.stockMaterial, w.images);
      if error.Some? {
        return Failure(error.value);
      }
      var planDate := GetOr(w.planDate, today);
      var planNo := NextPlanNo(Contents(), planDate);
      if planNo.Failure? {
        return Failure(planNo.error);
      }
      result := Success(nextPlan);
      plans := plans[nextPlan := NewPlan(w, planNo.value, planDate)];
      nextPlan := nextPlan + 1;
    }

    method UpdatePlan(id: PlanId, version: nat, w: PlanWrite) returns (result: Result<PlanId, Error>)
      modifies this
      ensures Outcome(Contents(), result) == Purchases.UpdatePlan(old(Contents()), id, version, w)
    {
      hide NextPlanNo, LinkError;
      if id !in plans {
        return Failure(NotFound);
      }
      var plan := plans[id];
      if version != plan.body.version {
        return Failure(VersionConflict(version, plan.body.version));
      }
      var error := LinkError(Contents(), w.stockMaterial, w.images);
      if error.Some? {
        return Failure(error.value);
      }
      if w.planDate.Some? && w.planDate.value != plan.body.planDate {
        var planNo := NextPlanNo(Contents(), w.planDate.value);
        if planNo.Failure? {
          return Failure(planNo.error);
        }
        plan := plan.(number := planNo.value, body := plan.body.(planDate := w.planDate.value));
      }
      var body := plan.body.(materialCode := w.materialCode, category := w.category, urgency := w.urgency);
      body := body.(demandDepartment := w.demandDepartment, name := w.name, modelSpec := w.modelSpec);
      body := body.(unitName := w.unitName, plannedQty := w.plannedQty, usage := w.usage, subitemNo := w.subitemNo);
      body := body.(remark := w.remark, stockMaterial := w.stockMaterial);
      if w.actualDemandPerson.Some? {
        body := body.(actualDemandPerson := w.actualDemandPerson.value);
      }
      if w.status.Some? {
        body := body.(status := w.status.value);
      }
      if Given(w.purchaseResponsible) {
        body := body.(purchaseResponsible := w.purchaseResponsible.value);
      }
      body := body.(images := w.images, version := body.version + 1);
      plans := plans[id := plan.(body := body)];
      result := Success(id);
    }

    method PatchOne(ref: Reference, patch: PlanPatch) returns (result: Result<(), Error>)
      requires ref.id in plans
      modifies this
      ensures Outcome(Contents(), result) == PatchPlan(old(Contents()), ref, patch)
    {
      var plan := plans[ref.id];
      if ref.version != plan.body.version {
        return Failure(VersionConflict(ref.version, plan.body.version));
      }
      if patch.planDate.Some? && patch.planDate.value != plan.body.planDate {
        var planNo := NextPlanNo(Contents(), patch.planDate.value);
        if planNo.Failure? {
          return Failure(planNo.error);
        }
        plan := plan.(number := planNo.value, body := plan.body.(planDate := patch.planDate.value));
      }
      plans := plans[ref.id := plan.(body := Patched(plan.body, patch))];
      result := Success(());
    }

    /** All the plans of a batch or none: a failure on the way undoes what was written before it. */
    method UpdatePlans(refs: seq<Reference>, patch: PlanPatch) returns (result: Result<(), Error>)
      modifies this
      ensures Outcome(Contents(), result) == Purchases.UpdatePlans(old(Contents()), refs, patch)
    {
      if !DistinctReferences(refs) || exists i :: 0 <= i < |refs| && refs[i].id !in plans {
        return Failure(NotFound);
      }
      var saved := plans;
      for i := 0 to |refs|
        invariant Contents() == old(Contents()).(t := old(Contents()).t.(plans := plans))
        invariant forall j :: i <= j < |refs| ==> refs[j].id in plans
        invariant PatchPlans(old(Contents()), refs, patch) == PatchPlans(Contents(), refs[i..], patch)
      {
        PatchedIds(Contents(), refs, i, patch);
        var one := PatchOne(refs[i], patch);
        if one.Failure? {
          plans := saved;
          return one;
        }
      }
      result := Success(());
    }

    method DeletePlan(id: PlanId, version: Option<nat>) returns (result: Result<(), Error>)
      modifies this
      ensures Outcome(Contents(), result) == Purchases.DeletePlan(old(Contents()), id, version)
    {
      if id !in plans {
        return Failure(NotFound);
      }
      var actual := plans[id].body.version;
      if version.Some? && version.value != actual {
        return Failure(VersionConflict(version.value, actual));
      }
      if IsReferenced(Contents(), id) {
        return Failure(PlanInUse);
      }
      plans := plans - {id};
      result := Success(());
    }

    method DeleteStock(id: StockId, version: Option<nat>, hasOperations: bool) returns (result: Result<(), Error>)
      modifies this
      ensures Outcome(Contents(), result) == Purchases.DeleteStock(old(Contents()), id, version, hasOperations)
    {
      if id !in stock {
        return Failure(NotFound);
      }
      if version.Some? && version.value != stock[id] {
        return Failure(VersionConflict(version.value, stock[id]));
      }
      if hasOperations {
        return Failure(StockMaterialInUse);
      }
      plans := map p | p in plans :: Unlinked(plans[p], id);
      stock := stock - {id};
      result := Success(());
    }

    method SaveStock(id: StockId, version: nat)
      modifies this
      ensures Contents() == old(Contents()).(stock := old(stock)[id := version])
    {
      stock := stock[id := version];
    }

    // -------------------------------------------------------------- records

    /** One header, and one line for each plan in the order of their ids. */
    method MovePlans(ids: set<PlanId>, d: MoveData) returns (result: Result<HeaderId, Error>)
      modifies this
      ensures Outcome(Contents(), result) == Purchases.MovePlans(old(Contents()), ids, d)
    {
      var error := MoveError(Contents(), ids);
      if error.Some? {
        return Failure(error.value);
      }
      var header := nextHeader;
      headers := headers[header := NewHeader(d)];
      nextHeader := nextHeader + 1;
      ghost var start := Contents();
      var rest := ids;
      while rest != {}
        invariant rest <= plans.Keys && ids <= start.t.plans.Keys
        invariant AddLines(start, ids, header, d) == AddLines(Contents(), rest, header, d)
        decreases |rest|
      {
        var p := Least(rest);
        lines := lines[nextLine := Snapshot(plans[p], p, header, d)];
        nextLine := nextLine + 1;
        rest := rest - {p};
      }
      result := Success(header);
    }

    method UpdateRecord(id: LineId, version: nat, w: RecordWrite) returns (result: Result<(), Error>)
      modifies this
      ensures Outcome(Contents(), result) == Purchases.UpdateRecord(old(Contents()), id, version, w)
    {
      if id !in lines || lines[id].header !in headers {
        return Failure(NotFound);
      }
      var line := lines[id];
      var header := headers[line.header];
      if version != header.version {
        return Failure(VersionConflict(version, header.version));
      }
      if exists f :: f in w.images && f !in files {
        return Failure(InvalidImageId);
      }
      header := header.(purchaseOrderNo := NonEmpty(w.purchaseOrderNo), contractNo := NonEmpty(w.contractNo));
      header := header.(vesselNo := NonEmpty(w.vesselNo), consolidationDate := w.consolidationDate);
      header := header.(consolidationPort := NonEmpty(w.consolidationPort), sailingDate := w.sailingDate);
      header := header.(purchaseDate := w.purchaseDate, remark := w.recordRemark, version := header.version + 1);
      var body := line.body.(traceNo := NonEmpty(w.traceNo), salesperson := w.salesperson, planDate := w.planDate);
      body := body.(materialCode := w.materialCode, category := w.category, demandDepartment := w.demandDepartment);
      body := body.(name := w.name, modelSpec := w.modelSpec, unitName := w.unitName);
      body := body.(actualDemandPerson := w.actualDemandPerson, purchaseResponsible := w.purchaseResponsible);
      body := body.(planRemark := w.planRemark, stockMaterial := w.stockMaterial, purchaseQty := w.purchaseQty);
      body := body.(status := w.status, usage := w.usage, subitemNo := w.subitemNo, images := w.images);
      headers := headers[line.header := header];
      lines := lines[id := line.(body := body.(version := body.version + 1))];
      result := Success(());
    }

    method CheckVersions(refs: seq<Reference>) returns (error: Option<Error>)
      requires forall i :: 0 <= i < |refs| ==> HasLine(Contents(), refs[i].id)
      ensures error == StaleReference(Contents(), refs)
    {
      for i := 0 to |refs|
        invariant StaleReference(Contents(), refs) == StaleReference(Contents(), refs[i..])
      {
        StaleRest(Contents(), refs, i);
        assert HasLine(Contents(), refs[i].id);
        var version := headers[lines[refs[i].id].header].version;
        if refs[i].version != version {
          return Some(VersionConflict(refs[i].version, version));
        }
      }
      error := None;
    }

    method PatchSelected(selected: set<HeaderId>, patch: RecordPatch)
      requires selected <= headers.Keys
      modifies this
      ensures Contents() == PatchHeaders(old(Contents()), selected, patch)
      ensures Contents() == old(Contents()).(t := old(Contents()).t.(headers := headers))
    {
      var rest := selected;
      while rest != {}
        invariant rest <= selected
        invariant headers == map h | h in old(headers) ::
                    if h in selected - rest then PatchedHeader(old(headers)[h], patch) else old(headers)[h]
        invariant Contents() == old(Contents()).(t := old(Contents()).t.(headers := headers))
        decreases |rest|
      {
        var h :| h in rest;
        headers := headers[h := PatchedHeader(headers[h], patch)];
        rest := rest - {h};
      }
    }

    method PatchOneLine(id: LineId, patch: RecordPatch) returns (result: Result<(), Error>)
      requires id in lines
      modifies this
      ensures Outcome(Contents(), result) == PatchLine(old(Contents()), id, patch)
      ensures Contents() == old(Contents()).(t := old(Contents()).t.(lines := lines))
    {
      var line := lines[id];
      if patch.planDate.Some? && patch.planDate.value != line.body.planDate {
        var planNo := NextPlanNo(Contents(), patch.planDate.value);
        if planNo.Failure? {
          return Failure(planNo.error);
        }
        line := line.(number := planNo.value,
                      body := line.body.(planDate := patch.planDate.value, version := line.body.version + 1));
      }
      lines := lines[id := line.(body := PatchedLine(line.body, patch))];
      result := Success(());
    }

    /** The lines in turn; on a failure those before it are written already. */
    method PatchListed(refs: seq<Reference>, patch: RecordPatch) returns (result: Result<(), Error>)
      requires forall i :: 0 <= i < |refs| ==> refs[i].id in lines
      modifies this
      ensures Outcome(Contents(), result) == PatchLines(old(Contents()), refs, patch)
      ensures Contents() == old(Contents()).(t := old(Contents()).t.(lines := lines))
    {
      hide PatchLine;
      for i := 0 to |refs|
        invariant Contents() == old(Contents()).(t := old(Contents()).t.(lines := lines))
        invariant forall j :: i <= j < |refs| ==> refs[j].id in lines
        invariant PatchLines(old(Contents()), refs, patch) == PatchLines(Contents(), refs[i..], patch)
      {
        PatchedLineIds(Contents(), refs, i, patch);
        var one := PatchOneLine(refs[i].id, patch);
        if one.Failure? {
          return one;
        }
      }
      result := Success(());
    }

    /** Each selected header once, then each line in turn; a failure undoes everything. */
    method UpdateRecords(refs: seq<Reference>, patch: RecordPatch) returns (result: Result<(), Error>)
      modifies this
      ensures Outcome(Contents(), result) == Purchases.UpdateRecords(old(Contents()), refs, patch)
    {
      hide PatchLines, PatchHeaders, StaleReference;
      if !DistinctReferences(refs) || exists i :: 0 <= i < |refs| && !HasLine(Contents(), refs[i].id) {
        return Failure(NotFound);
      }
      var stale := CheckVersions(refs);
      if stale.Some? {
        return Failure(stale.value);
      }
      var savedHeaders, savedLines := headers, lines;
      PatchSelected(HeadersOf(Contents(), refs), patch);
      result := PatchListed(refs, patch);
      if result.Failure? {
        headers, lines := savedHeaders, savedLines;
      }
    }

    method RestorePlan(id: LineId, version: Option<nat>) returns (result: Result<PlanId, Error>)
      modifies this
      ensures Outcome(Contents(), result) == Purchases.RestorePlan(old(Contents()), id, version)
    {
      if id !in lines || lines[id].header !in headers {
        return Failure(NotFound);
      }
      var line := lines[id];
      var header := headers[line.header];
      if version.Some? && version.value != header.version {
        return Failure(VersionConflict(version.value, header.version));
      }
      if line.plan.Some? && line.plan.value in plans {
        plans := plans[line.plan.value := Reopened(plans[line.plan.value])];
        result := Success(line.plan.value);
      } else {
        if line.body.stockMaterial.Some? && line.body.stockMaterial.value !in stock {
          return Failure(ForeignKeyViolation);
        }
        plans := plans[nextPlan := Rebuilt(line)];
        result := Success(nextPlan);
        nextPlan := nextPlan + 1;
      }
      if exists k :: k in lines && k != id && lines[k].header == line.header {
        headers := headers[line.header := header.(version := header.version + 1)];
      } else {
        headers := headers - {line.header};
      }
      lines := lines - {id};
    }

    // -------------------------------------------------------------- external data

    static method FillHeader(stored: Header, d: SyncData) returns (header: Header, changed: bool)
      ensures header == SyncedHeader(stored, d) && changed == HeaderChanges(stored, d)
    {
      header, changed := stored, false;
      if Fills(d.contractNo, header.contractNo) {
        header, changed := header.(contractNo := Some(Texts.Strip(d.contractNo.value))), true;
      }
      if Fills(d.vesselNo, header.vesselNo) {
        header, changed := header.(vesselNo := Some(Texts.Strip(d.vesselNo.value))), true;
      }
      if Fills(d.consolidationPort, header.consolidationPort) {
        header, changed := header.(consolidationPort := Some(Texts.Strip(d.consolidationPort.value))), true;
      }
      if d.consolidationDate.Some? && header.consolidationDate.None? {
        header, changed := header.(consolidationDate := d.consolidationDate), true;
      }
      if d.sailingDate.Some? && header.sailingDate.None? {
        header, changed := header.(sailingDate := d.sailingDate), true;
      }
      if changed {
        header := header.(version := header.version + 1);
      }
    }

    static method FillLine(stored: Line, d: SyncData) returns (line: Line, changed: bool)
      ensures line == SyncedLine(stored, d) && changed == LineChanges(stored.body, d)
    {
      line, changed := stored, false;
      if Fills(d.salesperson, line.body.salesperson) {
        line, changed := line.(body := line.body.(salesperson := Some(Texts.Strip(d.salesperson.value)))), true;
      }
      if Moves(line.body.status, d.status) {
        line, changed := line.(body := line.body.(status := Texts.Strip(d.status.value))), true;
      }
      if changed {
        line := line.(body := line.body.(version := line.body.version + 1));
      }
    }

    method SyncSelectedHeaders(ids: set<HeaderId>, d: SyncData) returns (affected: nat)
      requires ids <= headers.Keys
      modifies this`headers
      ensures headers == SyncHeaders(old(headers), ids, d) && affected == |ChangedHeaders(old(headers), ids, d)|
    {
      hide SyncedHeader, HeaderChanges;
      SyncNothing(headers, lines, d);
      affected := 0;
      var rest := ids;
      while rest != {}
        invariant rest <= ids
        invariant headers == SyncHeaders(old(headers), ids - rest, d)
        invariant affected == |ChangedHeaders(old(headers), ids - rest, d)|
        decreases |rest|
      {
        var h :| h in rest;
        SyncOneHeader(old(headers), ids - rest, h, d);
        assert ids - (rest - {h}) == (ids - rest) + {h};
        var header, changed := FillHeader(headers[h], d);
        headers := headers[h := header];
        if changed {
          affected := affected + 1;
        }
        rest := rest - {h};
      }
      assert ids - rest == ids;
    }

    method SyncSelectedLines(ids: set<LineId>, d: SyncData) returns (affected: nat)
      requires ids <= lines.Keys
      modifies this`lines
      ensures lines == SyncLines(old(lines), ids, d) && affected == |ChangedLines(old(lines), ids, d)|
    {
      hide SyncedLine, LineChanges;
      SyncNothing(headers, lines, d);
      affected := 0;
      var rest := ids;
      while rest != {}
        invariant rest <= ids
        invariant lines == SyncLines(old(lines), ids - rest, d)
        invariant affected == |ChangedLines(old(lines), ids - rest, d)|
        decreases |rest|
      {
        var l := Least(rest);
        SyncOneLine(old(lines), ids - rest, l, d);
        assert ids - (rest - {l}) == (ids - rest) + {l};
        var line, changed := FillLine(lines[l], d);
        lines := lines[l := line];
        if changed {
          affected := affected + 1;
        }
        rest := rest - {l};
      }
      assert ids - rest == ids;
    }

    method ApplyTraceSync(trace: string, d: SyncData) returns (result: Result<Affected, SyncError>)
      modifies this
      ensures SyncOutcome(Contents(), result) == ApplySync(old(Contents()), trace, d)
    {
      var t := Texts.Strip(trace);
      if t == "" {
        return Failure(EmptyTrace);
      }
      var ids := LinesOf(Contents(), t);
      if ids == {} {
        return Failure(NoSuchRecord);
      }
      hide SyncHeaders, SyncLines, ChangedHeaders, ChangedLines, Texts.Strip;
      var affectedHeaders := SyncSelectedHeaders(HeadersOfLines(Contents(), ids), d);
      var affectedLines := SyncSelectedLines(ids, d);
      result := Success(Affected(affectedHeaders, affectedLines));
    }

    // -------------------------------------------------------------- cleaning up

    /** One batch: unlink the next plans in line from their records, then delete them. */
    method CleanupOnce() returns (deleted: nat)
      modifies this
      ensures Contents() == Purchases.CleanupOnce(old(Contents()))
      ensures deleted == |Smallest(BATCH_SIZE, Candidates(old(Contents())))|
    {
      var ids := Smallest(BATCH_SIZE, Candidates(Contents()));
      if ids == {} {
        PurgeNothing(Contents().t);
        return 0;
      }
      lines := map l | l in lines ::
        if lines[l].plan.Some? && lines[l].plan.value in ids then lines[l].(plan := None) else lines[l];
      plans := plans - ids;
      deleted := |ids|;
    }

    /** The nightly worker's loop: batch after batch until one deletes nothing. */
    method Drain()
      requires Valid(Contents())
      modifies this
      ensures Contents() == Drained(old(Contents()))
    {
      hide Valid, Items, Drained, Candidates, Smallest, ReferencedPlans, Purchases.CleanupOnce;
      CleanupProgress(Contents());
      CleanupDrains(Contents());
      var deleted := CleanupOnce();
      while deleted > 0
        invariant Valid(Contents())
        invariant Drained(Contents()) == Drained(old(Contents()))
        invariant deleted == 0 ==> Candidates(Contents()) == {}
        decreases |Candidates(Contents())| + if deleted > 0 then 1 else 0
      {
        CleanupProgress(Contents());
        CleanupDrains(Contents());
        deleted := CleanupOnce();
      }
      NothingToDrain(Contents());
    }
  }
}
