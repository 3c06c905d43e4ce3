/**
 Purchase plans and purchase records: the tables of the purchase life cycle and what each service call
 of material_service.py, purchase_request_service.py and purchase_plan_cleanup_service.py does to them.

 A plan is moved into a record line, which keeps a snapshot of it and a reference to it; a worker later
 clears the reference and deletes the plan; a restore turns the line back into a plan.
 */
module Purchases {
  import opened Options
  import opened Texts
  import opened Sets
  import opened PlanNumbers
  import opened Tables

  type PlanId = nat
  type LineId = nat
  type HeaderId = nat
  type StockId = nat
  type FileId = string

  datatype PlanStatus = Normal | Deferred | Archived

  const NORMAL_URGENCY := "正常"

  datatype Error =
    | NotFound
    | VersionConflict(expected: nat, actual: nat)
    | InvalidImageId
    | PlanDailyLimitExceeded
    | PlanInUse
    | StockMaterialInUse
    | MaterialCodeRequired
    | PlanAlreadyMoved
    | ForeignKeyViolation

  /** A plan, apart from its number. */
  datatype PlanBody = PlanBody(
    planDate: Date,
    materialCode: Option<string>,
    category: Option<string>,
    urgency: string,
    demandDepartment: string,
    name: string,
    modelSpec: string,
    unitName: string,
    actualDemandPerson: string,
    purchaseResponsible: string,
    plannedQty: int,
    usage: string,
    subitemNo: Option<string>,
    remark: Option<string>,
    stockMaterial: Option<StockId>,
    status: PlanStatus,
    images: seq<FileId>,
    version: nat)

  type Plan = PlanRow<string, PlanBody>

  /** The snapshot and the record fields of a line, apart from its number, plan reference and header. */
  datatype LineBody = LineBody(
    planDate: Date,
    materialCode: Option<string>,
    category: Option<string>,
    demandDepartment: string,
    name: string,
    modelSpec: string,
    unitName: string,
    actualDemandPerson: string,
    purchaseResponsible: string,
    planRemark: Option<string>,
    stockMaterial: Option<StockId>,
    purchaseQty: int,
    status: string,
    usage: string,
    subitemNo: Option<string>,
    traceNo: Option<string>,
    salesperson: Option<string>,
    images: seq<FileId>,
    version: nat)

  type Line = LineRow<string, LineBody>

  datatype Header = Header(
    purchaseOrderNo: Option<string>,
    contractNo: Option<string>,
    vesselNo: Option<string>,
    consolidationDate: Option<Date>,
    consolidationPort: Option<string>,
    sailingDate: Option<Date>,
    remark: Option<string>,
    purchaseDate: Option<Date>,
    version: nat)

  /** The stock materials are known by their versions; what else they hold does not matter here. */
  datatype Store = Store(
    t: Tables<string, PlanBody, LineBody, Header>,
    stock: map<StockId, nat>,
    files: set<FileId>,
    nextPlan: PlanId,
    nextLine: LineId,
    nextHeader: HeaderId)

  // ---------------------------------------------------------------- plan numbers

  function PlanNosWith(s: Store, prefix: string): set<string> {
    set p | p in s.t.plans && StartsWith(s.t.plans[p].number, prefix) :: s.t.plans[p].number
  }

  function SnapshotNosWith(s: Store, prefix: string): set<string> {
    set l | l in s.t.lines && StartsWith(s.t.lines[l].number, prefix) :: s.t.lines[l].number
  }

  /** next_purchase_plan_no: one more than the lexicographically last number of either table. */
  function NextPlanNo(s: Store, date: Date): Result<string, Error> {
    var prefix := Prefix(date);
    var next := NumberAfter(Later(MaxText(PlanNosWith(s, prefix)), MaxText(SnapshotNosWith(s, prefix))), date);
    if next.Some? then Success(next.value) else Failure(PlanDailyLimitExceeded)
  }

  // ---------------------------------------------------------------- the invariant

  predicate WellNumbered(s: Store) {
    && (forall p :: p in s.t.plans ==> IsPlanNo(s.t.plans[p].number))
    && (forall l :: l in s.t.lines ==> IsPlanNo(s.t.lines[l].number))
  }

  predicate StockLinksAreSound(s: Store) {
    forall p :: p in s.t.plans && s.t.plans[p].body.stockMaterial.Some? ==>
      s.t.plans[p].body.stockMaterial.value in s.stock
  }

  predicate IdsAreSound(s: Store) {
    && (forall p :: p in s.t.plans ==> p < s.nextPlan)
    && (forall l :: l in s.t.lines ==> l < s.nextLine)
    && (forall h :: h in s.t.headers ==> h < s.nextHeader)
  }

  /** What holds of each row by itself. */
  predicate RowsAreSound(s: Store) {
    WellNumbered(s) && StockLinksAreSound(s) && IdsAreSound(s)
  }

  /**
   What every service call keeps: plan numbers and snapshots are well-formed, the tables are sound (see
   Tables.Sound), and no plan links a missing stock material.
   */
  ghost predicate Valid(s: Store) {
    RowsAreSound(s) && Sound(s.t)
  }

  predicate IsReferenced(s: Store, p: PlanId) {
    exists l :: l in s.t.lines && References(s.t, l, p)
  }

  function WithPlan(s: Store, id: PlanId, plan: Plan): Store {
    s.(t := PutPlan(s.t, id, plan))
  }

  function WithLine(s: Store, id: LineId, line: Line): Store {
    s.(t := PutLine(s.t, id, line))
  }

  // ---------------------------------------------------------------- plans

  /** The payload of a plan creation or update. */
  datatype PlanWrite = PlanWrite(
    planDate: Option<Date>,
    materialCode: Option<string>,
    category: Option<string>,
    urgency: string,
    demandDepartment: string,
    name: string,
    modelSpec: string,
    unitName: string,
    actualDemandPerson: Option<string>,
    purchaseResponsible: Option<string>,
    plannedQty: int,
    usage: string,
    subitemNo: Option<string>,
    remark: Option<string>,
    stockMaterial: Option<StockId>,
    status: Option<PlanStatus>,
    images: seq<FileId>)

  datatype Outcome<+T> = Outcome(store: Store, result: Result<T, Error>)

  function OrElse(text: Option<string>, default: string): string {
    if Given(text) then text.value else default
  }

  function GetOr<T>(o: Option<T>, default: T): T {
    if o.Some? then o.value else default
  }

  /** _validate_stock_link and _files */
  function LinkError(s: Store, stockMaterial: Option<StockId>, images: seq<FileId>): Option<Error> {
    if stockMaterial.Some? && stockMaterial.value !in s.stock then Some(NotFound)
    else if exists f :: f in images && f !in s.files then Some(InvalidImageId)
    else None
  }

  function NewPlan(w: PlanWrite, planNo: string, planDate: Date): Plan {
    var responsible := OrElse(w.purchaseResponsible, "\\");
    PlanRow(planNo,
      PlanBody(planDate, w.materialCode, w.category, w.urgency, w.demandDepartment, w.name, w.modelSpec,
               w.unitName, OrElse(w.actualDemandPerson, responsible), responsible, w.plannedQty, w.usage, w.subitemNo,
               w.remark, w.stockMaterial, GetOr(w.status, Normal), w.images, 1))
  }

  function AddPlan(s: Store, plan: Plan): Store {
    WithPlan(s, s.nextPlan, plan).(nextPlan := s.nextPlan + 1)
  }

  /** create_purchase_material, with today's date in Shanghai as a parameter */
  function CreatePlan(s: Store, w: PlanWrite, today: Date): Outcome<PlanId> {
    var error := LinkError(s, w.stockMaterial, w.images);
    var planDate := GetOr(w.planDate, today);
    var planNo := NextPlanNo(s, planDate);
    if error.Some? then Outcome(s, Failure(error.value))
    else if planNo.Failure? then Outcome(s, Failure(planNo.error))
    else Outcome(AddPlan(s, NewPlan(w, planNo.value, planDate)), Success(s.nextPlan))
  }

  /** A new date brings a new number; otherwise number and date stay. */
  function Redated(s: Store, plan: Plan, date: Option<Date>): Result<Plan, Error> {
    if date.None? || date.value == plan.body.planDate then Success(plan)
    else
      var planNo := NextPlanNo(s, date.value);
      if planNo.Failure? then Failure(planNo.error)
      else Success(PlanRow(planNo.value, plan.body.(planDate := date.value)))
  }

  function Rewritten(plan: PlanBody, w: PlanWrite): PlanBody {
    plan.(materialCode := w.materialCode, category := w.category, urgency := w.urgency,
          demandDepartment := w.demandDepartment, name := w.name, modelSpec := w.modelSpec,
          unitName := w.unitName, plannedQty := w.plannedQty, usage := w.usage, subitemNo := w.subitemNo,
          remark := w.remark, stockMaterial := w.stockMaterial,
          actualDemandPerson := GetOr(w.actualDemandPerson, plan.actualDemandPerson),
          status := GetOr(w.status, plan.status),
          purchaseResponsible := OrElse(w.purchaseResponsible, plan.purchaseResponsible),
          images := w.images, version := plan.version + 1)
  }

  /** update_purchase_material */
  function UpdatePlan(s: Store, id: PlanId, version: nat, w: PlanWrite): Outcome<PlanId> {
    if id !in s.t.plans then Outcome(s, Failure(NotFound))
    else
      var plan := s.t.plans[id];
      var error := LinkError(s, w.stockMaterial, w.images);
      var redated := Redated(s, plan, w.planDate);
      if version != plan.body.version then Outcome(s, Failure(VersionConflict(version, plan.body.version)))
      else if error.Some? then Outcome(s, Failure(error.value))
      else if redated.Failure? then Outcome(s, Failure(redated.error))
      else Outcome(WithPlan(s, id, redated.value.(body := Rewritten(redated.value.body, w))), Success(id))
  }

  /** The fields a batch update of plans sets, each if present. */
  datatype PlanPatch = PlanPatch(
    planDate: Option<Date>,
    category: Option<Option<string>>,
    urgency: Option<string>,
    demandDepartment: Option<string>,
    actualDemandPerson: Option<string>,
    purchaseResponsible: Option<string>,
    subitemNo: Option<Option<string>>,
    usage: Option<string>,
    status: Option<PlanStatus>)

  datatype Reference = Reference(id: nat, version: nat)

  predicate DistinctReferences(refs: seq<Reference>) {
    forall i, j :: 0 <= i < j < |refs| ==> refs[i].id != refs[j].id
  }

  function Patched(plan: PlanBody, patch: PlanPatch): PlanBody {
    plan.(category := GetOr(patch.category, plan.category),
          urgency := GetOr(patch.urgency, plan.urgency),
          demandDepartment := GetOr(patch.demandDepartment, plan.demandDepartment),
          actualDemandPerson := GetOr(patch.actualDemandPerson, plan.actualDemandPerson),
          purchaseResponsible := GetOr(patch.purchaseResponsible, plan.purchaseResponsible),
          subitemNo := GetOr(patch.subitemNo, plan.subitemNo),
          usage := GetOr(patch.usage, plan.usage),
          status := GetOr(patch.status, plan.status),
          version := plan.version + 1)
  }

  function PatchPlan(s: Store, ref: Reference, patch: PlanPatch): Outcome<()>
    requires ref.id in s.t.plans
  {
    var plan := s.t.plans[ref.id];
    var redated := Redated(s, plan, patch.planDate);
    if ref.version != plan.body.version then Outcome(s, Failure(VersionConflict(ref.version, plan.body.version)))
    else if redated.Failure? then Outcome(s, Failure(redated.error))
    else Outcome(WithPlan(s, ref.id, redated.value.(body := Patched(redated.value.body, patch))), Success(()))
  }

  /** The loop of batch_update_purchase_materials: each plan sees the numbers given to those before it. */
  function PatchPlans(s: Store, refs: seq<Reference>, patch: PlanPatch): Outcome<()>
    requires forall i :: 0 <= i < |refs| ==> refs[i].id in s.t.plans
    decreases |refs|
  {
    if refs == [] then Outcome(s, Success(())) else
      var first := PatchPlan(s, refs[0], patch);
      if first.result.Failure? then first else PatchPlans(first.store, refs[1..], patch)
  }

  /**
   batch_update_purchase_materials: an id named twice counts as not found, and a failure rolls the whole
   batch back.
   */
  function UpdatePlans(s: Store, refs: seq<Reference>, patch: PlanPatch): Outcome<()> {
    if !DistinctReferences(refs) then Outcome(s, Failure(NotFound))
    else if exists i :: 0 <= i < |refs| && refs[i].id !in s.t.plans then Outcome(s, Failure(NotFound))
    else
      var patched := PatchPlans(s, refs, patch);
      if patched.result.Failure? then Outcome(s, patched.result) else patched
  }

  /** delete_purchase_material */
  function DeletePlan(s: Store, id: PlanId, version: Option<nat>): Outcome<()> {
    if id !in s.t.plans then Outcome(s, Failure(NotFound))
    else
      var actual := s.t.plans[id].body.version;
      if version.Some? && version.value != actual then Outcome(s, Failure(VersionConflict(version.value, actual)))
      else if IsReferenced(s, id) then Outcome(s, Failure(PlanInUse))
      else Outcome(s.(t := DropPlans(s.t, {id})), Success(()))
  }

  function Unlinked(plan: Plan, id: StockId): Plan {
    if plan.body.stockMaterial == Some(id) then plan.(body := plan.body.(stockMaterial := None)) else plan
  }

  /** delete_stock_material, told whether the material has stock operations; snapshots keep their link. */
  function DeleteStock(s: Store, id: StockId, version: Option<nat>, hasOperations: bool): Outcome<()> {
    if id !in s.stock then Outcome(s, Failure(NotFound))
    else if version.Some? && version.value != s.stock[id] then
      Outcome(s, Failure(VersionConflict(version.value, s.stock[id])))
    else if hasOperations then Outcome(s, Failure(StockMaterialInUse))
    else
      Outcome(s.(stock := s.stock - {id},
                 t := s.t.(plans := map p | p in s.t.plans :: Unlinked(s.t.plans[p], id))), Success(()))
  }

  // ---------------------------------------------------------------- moving plans into a record

  datatype MoveData = MoveData(
    purchaseOrderNo: Option<Option<string>>,
    defaultOrderNo: string,
    traceNo: Option<string>,
    contractNo: Option<string>,
    vesselNo: Option<string>,
    consolidationDate: Option<Date>,
    consolidationPort: Option<string>,
    sailingDate: Option<Date>,
    purchaseDate: Date,
    salesperson: Option<string>,
    status: string,
    recordRemark: Option<string>)

  /** Python's `value or None` */
  function NonEmpty(text: Option<string>): Option<string> {
    if Given(text) then text else None
  }

  function NewHeader(d: MoveData): Header {
    Header(if d.purchaseOrderNo.Some? then NonEmpty(d.purchaseOrderNo.value) else Some(d.defaultOrderNo),
           NonEmpty(d.contractNo), NonEmpty(d.vesselNo), d.consolidationDate, NonEmpty(d.consolidationPort),
           d.sailingDate, d.recordRemark, Some(d.purchaseDate), 1)
  }

  /** The record line of a moved plan: a copy of its business fields and a reference to it. */
  function Snapshot(plan: Plan, id: PlanId, header: HeaderId, d: MoveData): Line {
    var b := plan.body;
    LineRow(plan.number, Some(id), header,
      LineBody(b.planDate, b.materialCode, b.category, b.demandDepartment, b.name, b.modelSpec, b.unitName,
               b.actualDemandPerson, b.purchaseResponsible, b.remark, b.stockMaterial, b.plannedQty, d.status,
               b.usage, b.subitemNo, NonEmpty(d.traceNo), d.salesperson, b.images, 1))
  }

  function AddLine(s: Store, line: Line): Store {
    WithLine(s, s.nextLine, line).(nextLine := s.nextLine + 1)
  }

  /** One line per plan, in the order of the plan ids. */
  function AddLines(s: Store, ids: set<PlanId>, header: HeaderId, d: MoveData): Store
    requires ids <= s.t.plans.Keys
    decreases |ids|
  {
    if ids == {} then s else
      var p := Least(ids);
      AddLines(AddLine(s, Snapshot(s.t.plans[p], p, header, d)), ids - {p}, header, d)
  }

  function WithHeader(s: Store, header: Header): Store {
    s.(t := s.t.(headers := s.t.headers[s.nextHeader := header]), nextHeader := s.nextHeader + 1)
  }

  function MoveError(s: Store, ids: set<PlanId>): Option<Error> {
    if !(ids <= s.t.plans.Keys) then Some(NotFound)
    else if exists p :: p in ids && !Given(s.t.plans[p].body.materialCode) then Some(MaterialCodeRequired)
    else if exists p :: p in ids && IsReferenced(s, p) then Some(PlanAlreadyMoved)
    else None
  }

  /** move_plans_to_record */
  function MovePlans(s: Store, ids: set<PlanId>, d: MoveData): Outcome<HeaderId> {
    var error := MoveError(s, ids);
    if error.Some? then Outcome(s, Failure(error.value))
    else Outcome(AddLines(WithHeader(s, NewHeader(d)), ids, s.nextHeader, d), Success(s.nextHeader))
  }

  // ---------------------------------------------------------------- records

  datatype RecordWrite = RecordWrite(
    planDate: Date,
    materialCode: Option<string>,
    category: Option<string>,
    demandDepartment: string,
    name: string,
    modelSpec: string,
    unitName: string,
    actualDemandPerson: string,
    purchaseResponsible: string,
    purchaseQty: int,
    usage: string,
    subitemNo: Option<string>,
    planRemark: Option<string>,
    stockMaterial: Option<StockId>,
    images: seq<FileId>,
    purchaseOrderNo: Option<string>,
    traceNo: Option<string>,
    contractNo: Option<string>,
    vesselNo: Option<string>,
    consolidationDate: Option<Date>,
    consolidationPort: Option<string>,
    sailingDate: Option<Date>,
    purchaseDate: Option<Date>,
    salesperson: Option<string>,
    status: string,
    recordRemark: Option<string>)

  function RewrittenHeader(h: Header, w: RecordWrite): Header {
    Header(NonEmpty(w.purchaseOrderNo), NonEmpty(w.contractNo), NonEmpty(w.vesselNo), w.consolidationDate,
           NonEmpty(w.consolidationPort), w.sailingDate, w.recordRemark, w.purchaseDate, h.version + 1)
  }

  function RewrittenLine(l: LineBody, w: RecordWrite): LineBody {
    LineBody(w.planDate, w.materialCode, w.category, w.demandDepartment, w.name,
         w.modelSpec, w.unitName, w.actualDemandPerson, w.purchaseResponsible, w.planRemark, w.stockMaterial,
             w.purchaseQty, w.status, w.usage, w.subitemNo, NonEmpty(w.traceNo), w.salesperson, w.images, l.version + 1)
  }

  predicate HasLine(s: Store, id: LineId) {
    id in s.t.lines && s.t.lines[id].header in s.t.headers
  }

  /** update_purchase_record: the date may change here, but the number is kept. */
  function UpdateRecord(s: Store, id: LineId, version: nat, w: RecordWrite): Outcome<()> {
    if !HasLine(s, id) then Outcome(s, Failure(NotFound))
    else
      var line := s.t.lines[id];
      var header := s.t.headers[line.header];
      if version != header.version then Outcome(s, Failure(VersionConflict(version, header.version)))
      else if exists f :: f in w.images && f !in s.files then Outcome(s, Failure(InvalidImageId))
      else
        Outcome(WithLine(s.(t := s.t.(headers := s.t.headers[line.header := RewrittenHeader(header, w)])), id,
                         line.(body := RewrittenLine(line.body, w))), Success(()))
  }

  /** The fields a batch update of records sets, each if present. */
  datatype RecordPatch = RecordPatch(
    planDate: Option<Date>,
    purchaseOrderNo: Option<Option<string>>,
    traceNo: Option<Option<string>>,
    contractNo: Option<Option<string>>,
    vesselNo: Option<Option<string>>,
    consolidationDate: Option<Option<Date>>,
    consolidationPort: Option<Option<string>>,
    sailingDate: Option<Option<Date>>,
    purchaseDate: Option<Option<Date>>,
    actualDemandPerson: Option<string>,
    purchaseResponsible: Option<string>,
    salesperson: Option<Option<string>>,
    status: Option<string>,
    recordRemark: Option<Option<string>>)

  function PatchText(change: Option<Option<string>>, stored: Option<string>): Option<string> {
    if change.Some? then NonEmpty(change.value) else stored
  }

  function PatchedHeader(h: Header, p: RecordPatch): Header {
    Header(PatchText(p.purchaseOrderNo, h.purchaseOrderNo), PatchText(p.contractNo, h.contractNo),
           PatchText(p.vesselNo, h.vesselNo), GetOr(p.consolidationDate, h.consolidationDate),
           PatchText(p.consolidationPort, h.consolidationPort), GetOr(p.sailingDate, h.sailingDate),
           GetOr(p.recordRemark, h.remark), GetOr(p.purchaseDate, h.purchaseDate), h.version + 1)
  }

  function Count(b: bool): nat {
    if b then 1 else 0
  }

  function PatchedLine(l: LineBody, p: RecordPatch): LineBody {
    l.(actualDemandPerson := GetOr(p.actualDemandPerson, l.actualDemandPerson),
       purchaseResponsible := GetOr(p.purchaseResponsible, l.purchaseResponsible),
       status := GetOr(p.status, l.status),
       traceNo := PatchText(p.traceNo, l.traceNo),
       salesperson := GetOr(p.salesperson, l.salesperson),
       version := l.version + Count(p.actualDemandPerson.Some?) + Count(p.purchaseResponsible.Some?)
                  + Count(p.status.Some?) + Count(p.traceNo.Some?) + Count(p.salesperson.Some?))
  }

  /** A record line given a new date is given a new number with it. */
  function RedatedLine(s: Store, l: Line, date: Option<Date>): Result<Line, Error> {
    if date.None? || date.value == l.body.planDate then Success(l)
    else
      var planNo := NextPlanNo(s, date.value);
      if planNo.Failure? then Failure(planNo.error)
      else Success(l.(number := planNo.value, body := l.body.(planDate := date.value, version := l.body.version + 1)))
  }

  function PatchLine(s: Store, id: LineId, patch: RecordPatch): Outcome<()>
    requires id in s.t.lines
  {
    var redated := RedatedLine(s, s.t.lines[id], patch.planDate);
    if redated.Failure? then Outcome(s, Failure(redated.error))
    else Outcome(WithLine(s, id, redated.value.(body := PatchedLine(redated.value.body, patch))), Success(()))
  }

  function PatchLines(s: Store, refs: seq<Reference>, patch: RecordPatch): Outcome<()>
    requires forall i :: 0 <= i < |refs| ==> refs[i].id in s.t.lines
    decreases |refs|
  {
    if refs == [] then Outcome(s, Success(())) else
      var first := PatchLine(s, refs[0].id, patch);
      if first.result.Failure? then first else PatchLines(first.store, refs[1..], patch)
  }

  function HeadersOf(s: Store, refs: seq<Reference>): set<HeaderId>
    requires forall i :: 0 <= i < |refs| ==> refs[i].id in s.t.lines
  {
    set i | 0 <= i < |refs| :: s.t.lines[refs[i].id].header
  }

  function PatchHeaders(s: Store, headers: set<HeaderId>, patch: RecordPatch): Store {
    s.(t := s.t.(headers := map h | h in s.t.headers ::
         if h in headers then PatchedHeader(s.t.headers[h], patch) else s.t.headers[h]))
  }

  /** The first reference whose version is not its header's. */
  function StaleReference(s: Store, refs: seq<Reference>): Option<Error>
    requires forall i :: 0 <= i < |refs| ==> HasLine(s, refs[i].id)
  {
    if refs == [] then None else
      assert HasLine(s, refs[0].id);
      var version := s.t.headers[s.t.lines[refs[0].id].header].version;
      if refs[0].version != version then Some(VersionConflict(refs[0].version, version))
      else StaleReference(s, refs[1..])
  }

  /** batch_update_purchase_records: each header once, then each line in turn; all or nothing. */
  function UpdateRecords(s: Store, refs: seq<Reference>, patch: RecordPatch): Outcome<()> {
    if !DistinctReferences(refs) then Outcome(s, Failure(NotFound))
    else if exists i :: 0 <= i < |refs| && !HasLine(s, refs[i].id) then Outcome(s, Failure(NotFound))
    else
      var stale := StaleReference(s, refs);
      var patched := PatchLines(PatchHeaders(s, HeadersOf(s, refs), patch), refs, patch);
      if stale.Some? then Outcome(s, Failure(stale.value))
      else if patched.result.Failure? then Outcome(s, patched.result)
      else patched
  }

  // ---------------------------------------------------------------- restoring a plan from a record

  /** The plan rebuilt from a line whose plan has been cleaned up. */
  function Rebuilt(l: Line): Plan {
    var b := l.body;
    PlanRow(l.number,
      PlanBody(b.planDate, b.materialCode, b.category, NORMAL_URGENCY, b.demandDepartment, b.name, b.modelSpec,
               b.unitName, b.actualDemandPerson, b.purchaseResponsible, b.purchaseQty, b.usage, b.subitemNo,
               b.planRemark, b.stockMaterial, Normal, b.images, 1))
  }

  predicate HasOtherLine(s: Store, id: LineId)
    requires id in s.t.lines
  {
    exists k :: k in s.t.lines && k != id && s.t.lines[k].header == s.t.lines[id].header
  }

  function HeadersWithout(s: Store, id: LineId): map<HeaderId, Header>
    requires HasLine(s, id)
  {
    var h := s.t.lines[id].header;
    if HasOtherLine(s, id) then s.t.headers[h := s.t.headers[h].(version := s.t.headers[h].version + 1)]
    else s.t.headers - {h}
  }

  /** The line goes, and with the last line of a record its header. */
  function WithoutLine(s: Store, id: LineId): Store
    requires HasLine(s, id)
  {
    s.(t := DropLine(s.t, id, HeadersWithout(s, id)))
  }

  function Reopened(plan: Plan): Plan {
    plan.(body := plan.body.(status := Normal, version := plan.body.version + 1))
  }

  /** restore_purchase_record_to_plan; the rebuilt plan must not point at a deleted stock material. */
  function RestorePlan(s: Store, id: LineId, version: Option<nat>): Outcome<PlanId> {
    if !HasLine(s, id) then Outcome(s, Failure(NotFound))
    else
      var line := s.t.lines[id];
      var actual := s.t.headers[line.header].version;
      if version.Some? && version.value != actual then Outcome(s, Failure(VersionConflict(version.value, actual)))
      else if line.plan.Some? && line.plan.value in s.t.plans then
        var p := line.plan.value;
        Outcome(WithoutLine(WithPlan(s, p, Reopened(s.t.plans[p])), id), Success(p))
      else if line.body.stockMaterial.Some? && line.body.stockMaterial.value !in s.stock then
        Outcome(s, Failure(ForeignKeyViolation))
      else Outcome(WithoutLine(AddPlan(s, Rebuilt(line)), id), Success(s.nextPlan))
  }

  // ---------------------------------------------------------------- cleaning up moved plans

  const BATCH_SIZE: nat := 50

  /** Plans that a line with a non-blank number snapshot references. */
  function Candidates(s: Store): set<PlanId> {
    set p | p in s.t.plans && exists l :: l in s.t.lines && References(s.t, l, p) && Trim(s.t.lines[l].number) != ""
  }

  /** ORDER BY id LIMIT n */
  function Smallest(n: nat, ids: set<nat>): set<nat>
    decreases n
  {
    if n == 0 || ids == {} then {} else {Least(ids)} + Smallest(n - 1, ids - {Least(ids)})
  }

  function Purged(s: Store, ids: set<PlanId>): Store {
    s.(t := Purge(s.t, ids))
  }

  /** cleanup_moved_plans_once */
  function CleanupOnce(s: Store): Store {
    Purged(s, Smallest(BATCH_SIZE, Candidates(s)))
  }
}
