/**
 What a request does to the totals of the operations it does not name: a back-dated operation shifts exactly
 the totals after it, a reversal leaves its original's alone, and an edit shifts every other line by what the
 edited operation adds before it now less what it added before it then.
 */
module LedgerShifts {
  import opened Options
  import opened Sums
  import opened Ledger
  import opened LedgerReplay
  import opened LedgerRuns
  import opened LedgerRows

  // ---------------------------------------------------------------- back-dated operations

  /** From s to c the balance of k's material moved, and k's totals moved with it if k sorts after n. */
  ghost predicate Shifts(s: Store, c: Store, n: OperationId, k: LineKey, moved: int)
    requires k in s.lines && k.material in s.balances
  {
    && k in c.lines && k.material in c.balances && n in c.operations && k.operation in c.operations
    && c.balances[k.material].quantity == s.balances[k.material].quantity + moved
    && c.lines[k].before == s.lines[k].before + (if Precedes(c, n, k.operation) then moved else 0)
    && c.lines[k].after == s.lines[k].after + (if Precedes(c, n, k.operation) then moved else 0)
  }

  lemma TouchedLineShifts(s: Store, g: Store, ids: set<MaterialId>, n: OperationId, k: LineKey)
    requires Linked(s) && Linked(g) && k in s.lines && g.balances == s.balances
    requires k.material in ids && AddsOperation(s, g, n, k.material) && Totalled(s, k.material)
    ensures LineKey(n, k.material) in g.lines
    ensures Shifts(s, Replayed(g, ids), n, k, Delta(g, n, k.material))
  {
    assert k == LineKey(k.operation, k.material);
    InsertionShifts(s, g, n, k.material);
  }

  lemma GrowthShifts(s: Store, g: Store, op: Operation, q: map<MaterialId, int>, k: LineKey)
    requires WellFormed(s) && Grows(s, g, op, q) && Linked(g) && k in s.lines && Totalled(s, k.material)
    requires op.reversalOf.Some? ==> op.reversalOf.value < s.nextId
    ensures k.material in q ==>
              Shifts(s, Replayed(g, q.Keys), s.nextId, k, if op.kind.Inbound? then q[k.material] else -q[k.material])
    ensures k.material !in q ==>
              && k in Replayed(g, q.Keys).lines && Replayed(g, q.Keys).lines[k] == s.lines[k]
              && Replayed(g, q.Keys).balances[k.material] == s.balances[k.material]
  {
    GrownBasics(s, g, op, q, k);
    hide Grows, WellFormed, Shifts, Totalled, AddsOperation, Replayed, Linked;
    if k.material in q {
      GrownAddsOn(s, g, op, q, k.material);
      TouchedLineShifts(s, g, q.Keys, s.nextId, k);
      GrownDelta(s, g, op, q, k.material);
    } else {
      OtherLineStays(s, g, op, q, k);
    }
  }

  lemma GrownBasics(s: Store, g: Store, op: Operation, q: map<MaterialId, int>, k: LineKey)
    requires WellFormed(s) && Grows(s, g, op, q) && k in s.lines
    ensures Linked(s) && g.balances == s.balances && k.material in s.balances
  {
  }

  lemma GrownDelta(s: Store, g: Store, op: Operation, q: map<MaterialId, int>, m: MaterialId)
    requires Grows(s, g, op, q) && m in q
    ensures s.nextId in g.operations && LineKey(s.nextId, m) in g.lines
    ensures Delta(g, s.nextId, m) == if op.kind.Inbound? then q[m] else -q[m]
  {
    assert LineKey(s.nextId, m).operation == s.nextId;
  }

  lemma OtherLineStays(s: Store, g: Store, op: Operation, q: map<MaterialId, int>, k: LineKey)
    requires WellFormed(s) && Grows(s, g, op, q) && Linked(g) && k in s.lines && k.material !in q
    ensures k in Replayed(g, q.Keys).lines && Replayed(g, q.Keys).lines[k] == s.lines[k]
    ensures k.material in s.balances && Replayed(g, q.Keys).balances[k.material] == s.balances[k.material]
  {
    hide UniqueRequests;
  }

  /** What an operation with this payload adds to m. */
  function AddedByPayload(kind: OperationType, data: OperationData, m: MaterialId): int {
    var q := Quantities(data.lines);
    if m !in q then 0 else if kind.Inbound? then q[m] else -q[m]
  }

  /** The totals of operation o on m and the balance of m moved by the given amounts. */
  ghost predicate MovedBy(s: Store, e: Store, o: OperationId, m: MaterialId, line: int, balance: int)
    requires LineKey(o, m) in s.lines && m in s.balances
  {
    && LineKey(o, m) in e.lines && m in e.balances
    && e.lines[LineKey(o, m)].before == s.lines[LineKey(o, m)].before + line
    && e.lines[LineKey(o, m)].after == s.lines[LineKey(o, m)].after + line
    && e.balances[m].quantity == s.balances[m].quantity + balance
  }

  lemma LineIsKnown(s: Store, o: OperationId, m: MaterialId)
    requires WellFormed(s) && LineKey(o, m) in s.lines
    ensures m in s.balances && o in s.operations && o < s.nextId
  {
    assert LineKey(o, m).operation == o;
  }

  /** Sorting after the new operation is being dated after the payload. */
  lemma DatedByPayload(s: Store, c: Store, data: OperationData, o: OperationId, m: MaterialId, moved: int)
    requires LineKey(o, m) in s.lines && m in s.balances && Shifts(s, c, s.nextId, LineKey(o, m), moved)
    requires o in s.operations && o < s.nextId && c.operations[o] == s.operations[o]
    requires c.operations[s.nextId].occurredAt == data.occurredAt
    ensures MovedBy(s, c, o, m, if data.occurredAt < s.operations[o].occurredAt then moved else 0, moved)
  {
  }

  /**
   A new operation, wherever its date puts it, adds its signed quantity to the balance and to both totals of every
   line dated after it; the totals of the lines up to its date and of other materials stay.
   */
  lemma CreationShifts(s: Store, kind: OperationType, requestId: string, data: OperationData,
                       original: Option<OperationId>, user: Option<string>, o: OperationId, m: MaterialId)
    requires Valid(s) && ValidWrites(data.lines)
    requires original.Some? ==> original.value in s.operations
    requires Created(s, kind, requestId, data, original, user).store != s
    requires LineKey(o, m) in s.lines
    ensures m in s.balances && o in s.operations
    ensures MovedBy(s, Created(s, kind, requestId, data, original, user).store, o, m,
                    if data.occurredAt < s.operations[o].occurredAt then AddedByPayload(kind, data, m) else 0,
                    AddedByPayload(kind, data, m))
  {
    var q := Quantities(data.lines);
    var g, op := CreatedGrows(s, kind, requestId, data, original, user);
    CreationStores(s, kind, requestId, data, original, user);
    LineIsKnown(s, o, m);
    ChainedIffTotalled(s, m);
    hide Valid, WellFormed, Created, Shifts, MovedBy, Chained, Quantities, Grows, HasLinesOf, DebitsOriginal;
    ValidParts(s);
    GrowthShifts(s, g, op, q, LineKey(o, m));
    var c := Created(s, kind, requestId, data, original, user).store;
    if m in q {
      DatedByPayload(s, c, data, o, m, AddedByPayload(kind, data, m));
    } else {
      NotMoved(s, c, o, m);
    }
  }

  lemma ValidParts(s: Store)
    requires Valid(s)
    ensures WellFormed(s) && Linked(s) && forall o :: o in s.operations ==> o < s.nextId
  {
  }

  lemma NotMoved(s: Store, c: Store, o: OperationId, m: MaterialId)
    requires LineKey(o, m) in s.lines && m in s.balances && LineKey(o, m) in c.lines && m in c.balances
    requires c.lines[LineKey(o, m)] == s.lines[LineKey(o, m)] && c.balances[m] == s.balances[m]
    ensures MovedBy(s, c, o, m, 0, 0)
  {
  }

  /** The stock of m at a time, operations of that very time included. */
  ghost function StockAt(s: Store, m: MaterialId, time: int): int
    requires Linked(s)
  {
    Sum(map o | o in OperationsOn(s, m) && s.operations[o].occurredAt <= time :: Delta(s, o, m))
  }

  /** The lines of a new operation start from the stock at its date. */
  lemma CreationStartsFromStock(s: Store, kind: OperationType, requestId: string, data: OperationData,
                                original: Option<OperationId>, user: Option<string>, m: MaterialId)
    requires Valid(s) && ValidWrites(data.lines)
    requires original.Some? ==> original.value in s.operations
    requires Created(s, kind, requestId, data, original, user).store != s
    requires exists i :: 0 <= i < |data.lines| && data.lines[i].material == m
    ensures var c, k := Created(s, kind, requestId, data, original, user).store, LineKey(s.nextId, m);
            && k in c.lines && c.lines[k].before == StockAt(s, m, data.occurredAt)
            && c.lines[k].after == StockAt(s, m, data.occurredAt) + AddedByPayload(kind, data, m)
  {
    CreationStores(s, kind, requestId, data, original, user);
    CreatedKeepsValid(s, kind, requestId, data, original, user);
    var c := Created(s, kind, requestId, data, original, user).store;
    hide Created, Quantities, Chained;
    ChainedIffTotalled(c, m);
    hide Valid, WellFormed;
    ValidParts(s);
    ValidParts(c);
    AddedAsStored(s, c, kind, data, m);
    EarlierAreUpToDate(s, c, original, data, m);
  }

  lemma AddedAsStored(s: Store, c: Store, kind: OperationType, data: OperationData, m: MaterialId)
    requires Linked(c) && ValidWrites(data.lines) && s.nextId in c.operations && c.operations[s.nextId].kind == kind
    requires HasLinesOf(c, s.nextId, data.lines)
    requires exists i :: 0 <= i < |data.lines| && data.lines[i].material == m
    ensures LineKey(s.nextId, m) in c.lines && Delta(c, s.nextId, m) == AddedByPayload(kind, data, m)
    ensures m in Quantities(data.lines)
  {
    QuantitiesMeaning(data.lines);
    hide Quantities;
  }

  lemma EarlierAreUpToDate(s: Store, c: Store, original: Option<OperationId>, data: OperationData, m: MaterialId)
    requires Linked(s) && Linked(c) && (forall o :: o in s.operations ==> o < s.nextId)
    requires OthersStay(s, c, s.nextId) && DebitsOriginal(s, c, original, data.lines)
    requires s.nextId in c.operations && c.operations[s.nextId].occurredAt == data.occurredAt
    ensures StockBefore(c, s.nextId, m) == StockAt(s, m, data.occurredAt)
  {
    OnIff(s, m);
    OnIff(c, m);
    hide TakenBy;
    var upTo := map o | o in OperationsOn(s, m) && s.operations[o].occurredAt <= data.occurredAt :: Delta(s, o, m);
    assert EarlierDeltas(c, s.nextId, m) == upTo;
  }

  /** A reversal is stamped after its original, so it never changes what the original's lines say. */
  lemma ReversalKeepsOriginalTotals(s: Store, r: Request, m: MaterialId)
    requires Valid(s) && ValidRequest(r) && r.Reverse? && LineKey(r.original, m) in s.lines
    ensures var a, k := Apply(s, r).store, LineKey(r.original, m);
            && k in a.lines && a.lines[k].before == s.lines[k].before && a.lines[k].after == s.lines[k].after
    ensures var a := Apply(s, r).store;
            a != s ==> && r.original in s.operations && s.nextId in a.operations
                       && a.operations[s.nextId].occurredAt > s.operations[r.original].occurredAt
  {
    if Apply(s, r).store != s {
      ReversalStores(s, r);
      var op := s.operations[r.original];
      CreationShifts(s, OppositeKind(op.kind), r.requestId, ReversalData(op, r.reason, r.lines, r.now),
                     Some(r.original), None, r.original, m);
      hide Created, Valid, AddedByPayload;
    }
  }

  // ---------------------------------------------------------------- edits

  /** Operations other than n have the same facts about m in both stores. */
  ghost predicate SameFactsBut(a: Store, b: Store, n: OperationId, m: MaterialId)
    requires Linked(a) && Linked(b)
  {
    forall o :: o != n ==>
      && (LineKey(o, m) in a.lines <==> LineKey(o, m) in b.lines)
      && (LineKey(o, m) in a.lines ==>
            && a.lines[LineKey(o, m)].quantity == b.lines[LineKey(o, m)].quantity
            && a.operations[o].kind == b.operations[o].kind
            && a.operations[o].occurredAt == b.operations[o].occurredAt)
  }

  /** What operation n adds to the stock of m. */
  function Added(s: Store, n: OperationId, m: MaterialId): int
    requires Linked(s)
  {
    if LineKey(n, m) in s.lines then Delta(s, n, m) else 0
  }

  /** What operation n adds to the stock of m before operation o. */
  function AddedBefore(s: Store, n: OperationId, m: MaterialId, o: OperationId): int
    requires Linked(s) && n in s.operations && o in s.operations
  {
    if Precedes(s, n, o) then Added(s, n, m) else 0
  }

  /** The totals of a store against those of a store without operation n's line. */
  lemma WithoutLineShifts(v: Store, s: Store, n: OperationId, m: MaterialId)
    requires Linked(v) && Linked(s) && n in s.operations && SameFactsBut(v, s, n, m) && LineKey(n, m) !in v.lines
    ensures Stock(s, m) == Stock(v, m) + Added(s, n, m)
    ensures forall o :: LineKey(o, m) in v.lines ==>
              o in s.operations && StockBefore(s, o, m) == StockBefore(v, o, m) + AddedBefore(s, n, m, o)
              && Delta(s, o, m) == Delta(v, o, m)
  {
    hide Stock, StockBefore;
    if LineKey(n, m) in s.lines {
      InsertionShifts(v, s, n, m);
    } else {
      SameFactsSameSums(v, s, m);
    }
  }

  /** What a successful edit leaves in the rows, running totals aside. */
  lemma EditedRows(s: Store, id: OperationId, version: nat, kind: OperationType, data: OperationData)
    requires WellFormed(s) && id in s.operations && Edited(s, id, version, kind, data).result.Success?
    ensures var e, q := Edited(s, id, version, kind, data).store, Quantities(data.lines);
            && e.operations == s.operations[id := EditedHeader(s.operations[id], kind, data)]
            && e.balances.Keys == s.balances.Keys
            && (forall k: LineKey :: k in e.lines <==> if k.operation == id then k.material in q else k in s.lines)
            && (forall k: LineKey :: k in e.lines ==>
                  e.lines[k].quantity == if k.operation == id then q[k.material] else s.lines[k].quantity)
  {
    hide WellFormed, Edited, Rewritten, Stock, StockBefore, Quantities;
    EditedIsReplayed(s, id, version, kind, data);
    RewrittenRewrites(s, id, kind, data);
  }

  /** The edited operation sorts before operation o, as the payload dates it. */
  predicate PrecedesByPayload(s: Store, id: OperationId, data: OperationData, o: OperationId)
    requires o in s.operations
  {
    data.occurredAt < s.operations[o].occurredAt || (data.occurredAt == s.operations[o].occurredAt && id < o)
  }

  lemma TotalledMoves(v: Store, s: Store, e: Store, id: OperationId, o: OperationId, m: MaterialId)
    requires Linked(v) && Linked(s) && Linked(e) && Totalled(s, m) && Totalled(e, m)
    requires id in s.operations && SameFactsBut(v, s, id, m) && SameFactsBut(v, e, id, m) && id in e.operations
    requires LineKey(id, m) !in v.lines && LineKey(o, m) in v.lines
    ensures o in s.operations && o in e.operations && LineKey(o, m) in s.lines
    ensures MovedBy(s, e, o, m, AddedBefore(e, id, m, o) - AddedBefore(s, id, m, o),
                    Added(e, id, m) - Added(s, id, m))
  {
    hide Stock, StockBefore, AddedBefore, Added, Delta;
    WithoutLineShifts(v, s, id, m);
    WithoutLineShifts(v, e, id, m);
  }

  /**
   A successful edit moves both totals of every other line by what the edited operation now adds before it less
   what it added before it until then, and the balance by what it adds less what it added.  Where it did not come
   before the line and still does not, and on materials it neither had nor has, nothing moves.
   */
  lemma EditShifts(s: Store, id: OperationId, version: nat, kind: OperationType, data: OperationData,
                   o: OperationId, m: MaterialId)
    requires Valid(s) && id in s.operations && ValidWrites(data.lines)
    requires Edited(s, id, version, kind, data).result.Success?
    requires LineKey(o, m) in s.lines && o != id
    ensures m in s.balances && o in s.operations
    ensures MovedBy(s, Edited(s, id, version, kind, data).store, o, m,
                    (if PrecedesByPayload(s, id, data, o) then AddedByPayload(kind, data, m) else 0)
                    - AddedBefore(s, id, m, o),
                    AddedByPayload(kind, data, m) - Added(s, id, m))
  {
    hide Edited, Quantities, UniqueRequests, Chained, Totalled, MovedBy, SameFactsBut, Precedes, Added, AddedByPayload;
    var e := Edited(s, id, version, kind, data).store;
    EditedKeepsValid(s, id, version, kind, data);
    EditedRows(s, id, version, kind, data);
    LineIsKnown(s, o, m);
    ChainedIffTotalled(s, m);
    ChainedIffTotalled(e, m);
    var v := WithoutLine(s, e, id, kind, data, o, m);
    TotalledMoves(v, s, e, id, o, m);
    EditedAdds(s, e, id, kind, data, o, m);
  }

  lemma WithoutLine(s: Store, e: Store, id: OperationId, kind: OperationType, data: OperationData,
                    o: OperationId, m: MaterialId) returns (v: Store)
    requires Linked(s) && Linked(e) && id in s.operations && o != id && LineKey(o, m) in s.lines
    requires e.operations == s.operations[id := EditedHeader(s.operations[id], kind, data)]
    requires forall k: LineKey :: k.operation != id ==> (k in e.lines <==> k in s.lines)
    requires forall k: LineKey :: k in e.lines && k.operation != id ==> e.lines[k].quantity == s.lines[k].quantity
    ensures Linked(v) && SameFactsBut(v, s, id, m) && SameFactsBut(v, e, id, m)
    ensures LineKey(id, m) !in v.lines && LineKey(o, m) in v.lines
  {
    v := s.(lines := s.lines - {LineKey(id, m)});
  }

  lemma EditedAdds(s: Store, e: Store, id: OperationId, kind: OperationType, data: OperationData,
                   o: OperationId, m: MaterialId)
    requires Linked(e) && id in s.operations && o in s.operations && o != id
    requires e.operations == s.operations[id := EditedHeader(s.operations[id], kind, data)]
    requires LineKey(id, m) in e.lines <==> m in Quantities(data.lines)
    requires m in Quantities(data.lines) ==> e.lines[LineKey(id, m)].quantity == Quantities(data.lines)[m]
    ensures Added(e, id, m) == AddedByPayload(kind, data, m)
    ensures AddedBefore(e, id, m, o)
            == if PrecedesByPayload(s, id, data, o) then AddedByPayload(kind, data, m) else 0
  {
    hide Quantities;
  }
}
