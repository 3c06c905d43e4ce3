/**
 The stock ledger: operations, their lines and the cached balances, and what each request of
 inventory_service.py does to them.

 Quantities are integers in tenths (the QTY column has one decimal place); times are integer
 microseconds.  A line is identified by its operation and its material, which the table declares
 unique.  All functions here speak about one immutable Store value; LedgerService.dfy holds the
 mutable object whose methods are proved to perform exactly these steps.
 */
module Ledger {
  import opened Options
  import opened Sums

  type OperationId = nat
  datatype MaterialId = MaterialId(id: nat)

  datatype OperationType = Inbound | Outbound

  datatype SourceType = Manual | MiniProgram | Reversal | Initialization

  datatype Error =
    | NotFound
    | VersionConflict(expected: nat, actual: nat)
    | BalanceMissing
    | InvalidSourceType
    | InvalidReceiver
    | InvalidReceiverUnit
    | ReceiverRequired
    | BusinessReasonRequired
    | InvalidReversalLine
    | InsufficientQuantity(remaining: int)
    | DuplicateMaterial
    | MaterialInUse

  datatype LineKey = LineKey(operation: OperationId, material: MaterialId)

  datatype Line = Line(quantity: int, remaining: int, before: int, after: int, version: nat)

  datatype Operation = Operation(
    kind: OperationType,
    occurredAt: int,
    source: SourceType,
    reason: string,
    receiverUnit: Option<string>,
    receiverName: Option<string>,
    subitem: Option<string>,
    reversalOf: Option<OperationId>,
    requestId: string,
    userName: Option<string>,
    version: nat)

  datatype Balance = Balance(quantity: int, version: nat)

  datatype Store = Store(
    operations: map<OperationId, Operation>,
    lines: map<LineKey, Line>,
    balances: map<MaterialId, Balance>,
    nextId: OperationId)

  datatype LineWrite = LineWrite(material: MaterialId, quantity: int)

  /** The fields that a creation and an edit have in common. */
  datatype OperationData = OperationData(
    occurredAt: int,
    source: SourceType,
    reason: string,
    receiverUnit: Option<string>,
    receiverName: Option<string>,
    subitem: Option<string>,
    lines: seq<LineWrite>)

  datatype Request =
    | Create(kind: OperationType, requestId: string, data: OperationData, user: Option<string>)
    | Reverse(original: OperationId, requestId: string, reason: string, lines: seq<LineWrite>, now: int)
    | Edit(id: OperationId, version: nat, kind: OperationType, data: OperationData)
    | AddMaterial(material: MaterialId)
    | DropMaterial(material: MaterialId)

  /** The answer is the id of the operation or of the material. */
  datatype Outcome = Outcome(store: Store, result: Result<nat, Error>)

  // ---------------------------------------------------------------- order and totals

  /** The order of the replay query: by time, then by operation id. */
  predicate Precedes(s: Store, a: OperationId, b: OperationId)
    requires a in s.operations && b in s.operations
  {
    s.operations[a].occurredAt < s.operations[b].occurredAt
    || (s.operations[a].occurredAt == s.operations[b].occurredAt && a < b)
  }

  /** Every line belongs to a stored operation. */
  predicate Linked(s: Store) {
    forall k :: k in s.lines ==> k.operation in s.operations
  }

  function OperationsOn(s: Store, m: MaterialId): set<OperationId> {
    set o | o in s.operations && LineKey(o, m) in s.lines
  }

  function MaterialsOf(s: Store, o: OperationId): set<MaterialId> {
    set k | k in s.lines && k.operation == o :: k.material
  }

  /** What the line of operation o adds to the stock of material m. */
  function Delta(s: Store, o: OperationId, m: MaterialId): int
    requires o in s.operations && LineKey(o, m) in s.lines
  {
    if s.operations[o].kind.Inbound? then s.lines[LineKey(o, m)].quantity
    else -s.lines[LineKey(o, m)].quantity
  }

  ghost function Deltas(s: Store, m: MaterialId): map<OperationId, int>
    requires Linked(s)
  {
    map o | o in OperationsOn(s, m) :: Delta(s, o, m)
  }

  ghost function EarlierDeltas(s: Store, o: OperationId, m: MaterialId): map<OperationId, int>
    requires Linked(s) && o in s.operations
  {
    map p | p in OperationsOn(s, m) && Precedes(s, p, o) :: Delta(s, p, m)
  }

  /** The stock of m just before operation o. */
  ghost function StockBefore(s: Store, o: OperationId, m: MaterialId): int
    requires Linked(s) && o in s.operations
  {
    Sum(EarlierDeltas(s, o, m))
  }

  ghost function Stock(s: Store, m: MaterialId): int
    requires Linked(s)
  {
    Sum(Deltas(s, m))
  }

  // ---------------------------------------------------------------- the timeline of a material

  lemma {:induction false} EarliestExists(s: Store, ids: set<OperationId>)
    requires ids != {} && ids <= s.operations.Keys
    ensures exists o :: o in ids && forall p :: p in ids ==> p == o || Precedes(s, o, p)
    decreases |ids|
  {
    var o :| o in ids;
    if ids == {o} {
    } else {
      assert o in ids - {o} + {o};
      EarliestExists(s, ids - {o});
      var e :| e in ids - {o} && forall p :: p in ids - {o} ==> p == e || Precedes(s, e, p);
      if Precedes(s, o, e) {
        assert forall p :: p in ids ==> p == o || Precedes(s, o, p);
      } else {
        assert forall p :: p in ids ==> p == e || Precedes(s, e, p);
      }
    }
  }

  function Earliest(s: Store, ids: set<OperationId>): (o: OperationId)
    requires ids != {} && ids <= s.operations.Keys
    ensures o in ids && forall p :: p in ids ==> p == o || Precedes(s, o, p)
  {
    EarliestExists(s, ids);
    var o :| o in ids && forall p :: p in ids ==> p == o || Precedes(s, o, p);
    o
  }

  function Sorted(s: Store, ids: set<OperationId>): seq<OperationId>
    requires ids <= s.operations.Keys
    decreases |ids|
  {
    if ids == {} then [] else
      var o := Earliest(s, ids);
      [o] + Sorted(s, ids - {o})
  }

  /** The operations on m in the order in which replay visits them. */
  function Timeline(s: Store, m: MaterialId): seq<OperationId>
    requires Linked(s)
  {
    Sorted(s, OperationsOn(s, m))
  }

  predicate InOrder(s: Store, t: seq<OperationId>) {
    (forall i :: 0 <= i < |t| ==> t[i] in s.operations)
    && forall i, j :: 0 <= i < j < |t| ==> Precedes(s, t[i], t[j])
  }

  lemma {:induction false} SortedMeaning(s: Store, ids: set<OperationId>)
    requires ids <= s.operations.Keys
    ensures InOrder(s, Sorted(s, ids))
    ensures forall o :: o in Sorted(s, ids) <==> o in ids
    decreases |ids|
  {
    if ids != {} {
      var o := Earliest(s, ids);
      var rest := Sorted(s, ids - {o});
      SortedMeaning(s, ids - {o});
      assert forall i :: 0 <= i < |rest| ==> rest[i] in rest;
      assert forall i :: 0 < i < |rest| + 1 ==> ([o] + rest)[i] == rest[i - 1];
      assert forall p :: p in ids ==> p == o || p in rest;
    }
  }

  lemma TimelineMeaning(s: Store, m: MaterialId)
    requires Linked(s)
    ensures InOrder(s, Timeline(s, m))
    ensures forall o :: o in Timeline(s, m) <==> LineKey(o, m) in s.lines
    ensures forall i :: 0 <= i < |Timeline(s, m)| ==> LineKey(Timeline(s, m)[i], m) in s.lines
  {
    SortedMeaning(s, OperationsOn(s, m));
    assert forall o :: LineKey(o, m) in s.lines ==> LineKey(o, m).operation in s.operations;
    assert forall i :: 0 <= i < |Timeline(s, m)| ==> Timeline(s, m)[i] in Timeline(s, m);
  }

  // ---------------------------------------------------------------- the stored running totals

  /**
   The ledger of m adds up: along its timeline the first line starts from zero, every line starts
   where the one before it ended and moves by its own signed quantity, and the balance is where the
   last line ended.
   */
  predicate Chained(s: Store, m: MaterialId)
    requires Linked(s)
  {
    && m in s.balances
    && var t := Timeline(s, m);
       && (forall i :: 0 <= i < |t| ==>
             && LineKey(t[i], m) in s.lines
             && s.lines[LineKey(t[i], m)].after == s.lines[LineKey(t[i], m)].before + Delta(s, t[i], m))
       && (|t| > 0 ==> s.lines[LineKey(t[0], m)].before == 0)
       && (forall i :: 0 < i < |t| ==>
             s.lines[LineKey(t[i], m)].before == s.lines[LineKey(t[i - 1], m)].after)
       && s.balances[m].quantity == if |t| == 0 then 0 else s.lines[LineKey(t[|t| - 1], m)].after
  }

  /** The same, line by line and without walking: each stored total is the sum it stands for. */
  ghost predicate Totalled(s: Store, m: MaterialId)
    requires Linked(s)
  {
    && m in s.balances
    && s.balances[m].quantity == Stock(s, m)
    && forall o :: LineKey(o, m) in s.lines ==>
         && s.lines[LineKey(o, m)].before == StockBefore(s, o, m)
         && s.lines[LineKey(o, m)].after == StockBefore(s, o, m) + Delta(s, o, m)
  }

  // ---------------------------------------------------------------- invariants

  /** Referential integrity and the column constraints. */
  ghost predicate WellFormed(s: Store) {
    && Linked(s)
    && (forall k :: k in s.lines ==>
          k.material in s.balances && 0 < s.lines[k].quantity && 0 <= s.lines[k].remaining <= s.lines[k].quantity)
    && (forall o :: o in s.operations ==> o < s.nextId)
    && (forall o :: o in s.operations && s.operations[o].reversalOf.Some? ==>
          s.operations[o].reversalOf.value < o && s.operations[o].reversalOf.value in s.operations)
    && UniqueRequests(s)
  }

  predicate UniqueRequests(s: Store) {
    forall a, b :: a in s.operations && b in s.operations && a != b ==>
      s.operations[a].requestId != s.operations[b].requestId
  }

  /** What every request keeps: integrity, and a ledger that adds up for every material in the store. */
  ghost predicate Valid(s: Store) {
    WellFormed(s) && forall m :: m in s.balances ==> Chained(s, m)
  }

  // ---------------------------------------------------------------- replay

  ghost function Restamped(s: Store, k: LineKey): Line
    requires Linked(s) && k in s.lines
  {
    var before := StockBefore(s, k.operation, k.material);
    s.lines[k].(before := before, after := before + Delta(s, k.operation, k.material))
  }

  /** The store after replay_materials(ids). */
  ghost function Replayed(s: Store, ids: set<MaterialId>): Store
    requires Linked(s)
  {
    s.(lines := map k | k in s.lines :: if k.material in ids then Restamped(s, k) else s.lines[k],
       balances := map m | m in s.balances ::
         if m in ids then Balance(Stock(s, m), s.balances[m].version + 1) else s.balances[m])
  }

  // ---------------------------------------------------------------- requests

  /** What the request schemas guarantee about the lines of a payload. */
  predicate ValidWrites(writes: seq<LineWrite>) {
    && |writes| > 0
    && (forall i :: 0 <= i < |writes| ==> 0 < writes[i].quantity)
    && (forall i, j :: 0 <= i < j < |writes| ==> writes[i].material != writes[j].material)
  }

  predicate ValidRequest(r: Request) {
    match r
    case Create(_, _, data, _) => ValidWrites(data.lines)
    case Reverse(_, _, reason, lines, _) => ValidWrites(lines) && reason != ""
    case Edit(_, _, _, data) => ValidWrites(data.lines)
    case _ => true
  }

  function Quantities(writes: seq<LineWrite>): map<MaterialId, int> {
    if writes == [] then map[] else
      var last := writes[|writes| - 1];
      Quantities(writes[..|writes| - 1])[last.material := last.quantity]
  }

  function KeysOf(o: OperationId, ms: set<MaterialId>): set<LineKey> {
    set m | m in ms :: LineKey(o, m)
  }

  function SemanticsError(kind: OperationType, source: SourceType,
                          receiverUnit: Option<string>, receiverName: Option<string>): Option<Error> {
    if source.Initialization? && !kind.Inbound? then Some(InvalidSourceType)
    else if source.MiniProgram? && !kind.Outbound? then Some(InvalidSourceType)
    else if kind.Inbound? && Given(receiverName) then Some(InvalidReceiver)
    else if kind.Inbound? && Given(receiverUnit) then Some(InvalidReceiverUnit)
    else if kind.Outbound? && !source.Reversal? && !Given(receiverName) then Some(ReceiverRequired)
    else None
  }

  /** The checks of create_operation that need no database row, in their order. */
  function CreateError(kind: OperationType, data: OperationData,
                       reversalOf: Option<OperationId>, user: Option<string>): Option<Error> {
    if data.source.MiniProgram? && user.None? then Some(InvalidSourceType)
    else if user.Some? && !data.source.MiniProgram? then Some(InvalidSourceType)
    else if data.source.Reversal? && reversalOf.None? then Some(InvalidSourceType)
    else if kind.Outbound? && data.reason == "" then Some(BusinessReasonRequired)
    else SemanticsError(kind, data.source, data.receiverUnit, data.receiverName)
  }

  function StoredSource(source: SourceType): SourceType {
    if source.MiniProgram? then Manual else source
  }

  /** The first line of a reversal that the original does not have, or not enough of. */
  function ReversalFault(s: Store, original: OperationId, writes: seq<LineWrite>): Option<Error> {
    if writes == [] then None else
      var k := LineKey(original, writes[0].material);
      if k !in s.lines then Some(InvalidReversalLine)
      else if writes[0].quantity > s.lines[k].remaining then Some(InsufficientQuantity(s.lines[k].remaining))
      else ReversalFault(s, original, writes[1..])
  }

  function NewLine(quantity: int): Line {
    Line(quantity, quantity, 0, 0, 1)
  }

  function NewLines(o: OperationId, q: map<MaterialId, int>): map<LineKey, Line> {
    map k | k in KeysOf(o, q.Keys) :: NewLine(q[k.material])
  }

  /** A new operation with its lines, not yet replayed. */
  function Inserted(s: Store, op: Operation, q: map<MaterialId, int>): Store {
    s.(operations := s.operations[s.nextId := op],
       lines := s.lines + NewLines(s.nextId, q),
       nextId := s.nextId + 1)
  }

  /** The reversed quantities taken off what is left of the original's lines. */
  function Debited(s: Store, original: OperationId, q: map<MaterialId, int>): Store {
    s.(lines := map k | k in s.lines ::
         if k.operation == original && k.material in q
         then s.lines[k].(remaining := s.lines[k].remaining - q[k.material]) else s.lines[k])
  }

  function Settled(s: Store, original: Option<OperationId>, q: map<MaterialId, int>): Store {
    if original.Some? then Debited(s, original.value, q) else s
  }

  function NewOperation(kind: OperationType, requestId: string, data: OperationData,
                        reversalOf: Option<OperationId>, user: Option<string>): Operation {
    Operation(kind, data.occurredAt, StoredSource(data.source), data.reason, data.receiverUnit,
              data.receiverName, data.subitem, reversalOf, requestId, user, 1)
  }

  function FindRequest(s: Store, requestId: string): (o: Option<OperationId>)
    requires UniqueRequests(s)
    ensures o.Some? ==> o.value in s.operations && s.operations[o.value].requestId == requestId
    ensures o.None? ==> forall a :: a in s.operations ==> s.operations[a].requestId != requestId
  {
    if exists a :: a in s.operations && s.operations[a].requestId == requestId then
      var a :| a in s.operations && s.operations[a].requestId == requestId;
      Some(a)
    else None
  }

  /** create_operation, for a fresh operation and for a reversal of `original` alike. */
  ghost function Created(s: Store, kind: OperationType, requestId: string, data: OperationData,
                         original: Option<OperationId>, user: Option<string>): Outcome
    requires WellFormed(s) && ValidWrites(data.lines)
  {
    var q := Quantities(data.lines);
    var existing := FindRequest(s, requestId);
    var error := CreateError(kind, data, original, user);
    if existing.Some? then Outcome(s, Success(existing.value))
    else if error.Some? then Outcome(s, Failure(error.value))
    else if !(q.Keys <= s.balances.Keys) then Outcome(s, Failure(BalanceMissing))
    else if original.Some? && ReversalFault(s, original.value, data.lines).Some? then
      Outcome(s, Failure(ReversalFault(s, original.value, data.lines).value))
    else
      var s' := Settled(Inserted(s, NewOperation(kind, requestId, data, original, user), q), original, q);
      InsertedIsLinked(s, NewOperation(kind, requestId, data, original, user), q, original);
      Outcome(Replayed(s', q.Keys), Success(s.nextId))
  }

  lemma InsertedIsLinked(s: Store, op: Operation, q: map<MaterialId, int>, original: Option<OperationId>)
    requires Linked(s)
    ensures Linked(Settled(Inserted(s, op, q), original, q))
  {
  }

  function OppositeKind(kind: OperationType): OperationType {
    if kind.Inbound? then Outbound else Inbound
  }

  /** The payload reverse_operation builds: stamped now, but strictly after the original. */
  function ReversalData(original: Operation, reason: string, writes: seq<LineWrite>, now: int): OperationData {
    OperationData(if now > original.occurredAt + 1 then now else original.occurredAt + 1,
                  Reversal, reason, None, None, original.subitem, writes)
  }

  function EditError(op: Operation, version: nat, kind: OperationType, data: OperationData): Option<Error> {
    if version != op.version then Some(VersionConflict(version, op.version))
    else if op.userName.Some? && !data.source.MiniProgram? then Some(InvalidSourceType)
    else if op.userName.None? && data.source.MiniProgram? then Some(InvalidSourceType)
    else if kind.Outbound? && data.reason == "" then Some(BusinessReasonRequired)
    else SemanticsError(kind, data.source, data.receiverUnit, data.receiverName)
  }

  function EditedHeader(op: Operation, kind: OperationType, data: OperationData): Operation {
    op.(kind := kind, occurredAt := data.occurredAt, source := StoredSource(data.source),
        reason := data.reason, receiverUnit := data.receiverUnit, receiverName := data.receiverName,
        subitem := data.subitem, version := op.version + 1)
  }

  function Min(a: int, b: int): int {
    if a < b then a else b
  }

  function EditedLine(s: Store, k: LineKey, quantity: int): Line {
    if k in s.lines then
      s.lines[k].(quantity := quantity, remaining := Min(s.lines[k].remaining, quantity),
                  version := s.lines[k].version + 1)
    else NewLine(quantity)
  }

  function EditedLines(s: Store, id: OperationId, q: map<MaterialId, int>): map<LineKey, Line> {
    map k | k in KeysOf(id, q.Keys) :: EditedLine(s, k, q[k.material])
  }

  /** An edited operation and its lines, not yet replayed; lines the edit does not name are deleted. */
  function Rewritten(s: Store, id: OperationId, kind: OperationType, data: OperationData): Store
    requires id in s.operations
  {
    var q := Quantities(data.lines);
    s.(operations := s.operations[id := EditedHeader(s.operations[id], kind, data)],
       lines := (s.lines - KeysOf(id, MaterialsOf(s, id))) + EditedLines(s, id, q))
  }

  /** update_operation */
  ghost function Edited(s: Store, id: OperationId, version: nat, kind: OperationType, data: OperationData): Outcome
    requires WellFormed(s) && id in s.operations
  {
    var q := Quantities(data.lines);
    var touched := MaterialsOf(s, id) + q.Keys;
    var error := EditError(s.operations[id], version, kind, data);
    if error.Some? then Outcome(s, Failure(error.value))
    else if !(touched <= s.balances.Keys) then Outcome(s, Failure(BalanceMissing))
    else Outcome(Replayed(Rewritten(s, id, kind, data), touched), Success(id))
  }

  /** create_stock_material, as far as the ledger goes: a card with a zero balance. */
  function MaterialAdded(s: Store, m: MaterialId): Outcome {
    if m in s.balances then Outcome(s, Failure(DuplicateMaterial))
    else Outcome(s.(balances := s.balances[m := Balance(0, 1)]), Success(m.id))
  }

  predicate IsUsed(s: Store, m: MaterialId) {
    exists k :: k in s.lines && k.material == m
  }

  /** delete_stock_material, as far as the ledger goes: a card goes only while nothing was booked on it. */
  function MaterialDropped(s: Store, m: MaterialId): Outcome {
    if m !in s.balances then Outcome(s, Failure(NotFound))
    else if IsUsed(s, m) then Outcome(s, Failure(MaterialInUse))
    else Outcome(s.(balances := s.balances - {m}), Success(m.id))
  }

  /** One request against the ledger. */
  ghost function Apply(s: Store, r: Request): Outcome
    requires WellFormed(s) && ValidRequest(r)
  {
    match r
    case Create(kind, requestId, data, user) => Created(s, kind, requestId, data, None, user)
    case Reverse(original, requestId, reason, lines, now) =>
      if original !in s.operations then Outcome(s, Failure(NotFound)) else
        var op := s.operations[original];
        Created(s, OppositeKind(op.kind), requestId, ReversalData(op, reason, lines, now), Some(original), None)
    case Edit(id, version, kind, data) =>
      if id !in s.operations then Outcome(s, Failure(NotFound)) else Edited(s, id, version, kind, data)
    case AddMaterial(m) => MaterialAdded(s, m)
    case DropMaterial(m) => MaterialDropped(s, m)
  }
}
