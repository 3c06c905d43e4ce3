/**
 What every request keeps, and what whole runs of requests keep: the ledger adds up after each of
 them, and retries are invisible.
 */
module LedgerRuns {
  import opened Options
  import opened Ledger
  import opened LedgerReplay

  // ---------------------------------------------------------------- payload lines

  lemma {:induction false} QuantitiesMeaning(writes: seq<LineWrite>)
    requires forall i, j :: 0 <= i < j < |writes| ==> writes[i].material != writes[j].material
    ensures forall i :: 0 <= i < |writes| ==>
              writes[i].material in Quantities(writes) && Quantities(writes)[writes[i].material] == writes[i].quantity
    ensures forall m :: m in Quantities(writes) ==> exists i :: 0 <= i < |writes| && writes[i].material == m
  {
    if writes != [] {
      var front := writes[..|writes| - 1];
      QuantitiesMeaning(front);
      forall m | m in Quantities(writes) ensures exists i :: 0 <= i < |writes| && writes[i].material == m {
        if m == writes[|writes| - 1].material {
          assert writes[|writes| - 1].material == m;
        } else {
          assert m in Quantities(front);
          var i :| 0 <= i < |front| && front[i].material == m;
          assert writes[i].material == m;
        }
      }
    }
  }

  lemma QuantitiesPositive(writes: seq<LineWrite>)
    requires ValidWrites(writes)
    ensures forall m :: m in Quantities(writes) ==> 0 < Quantities(writes)[m]
  {
    QuantitiesMeaning(writes);
  }

  lemma {:induction false} NoFaultMeaning(s: Store, original: OperationId, writes: seq<LineWrite>)
    requires ReversalFault(s, original, writes).None?
    ensures forall i :: 0 <= i < |writes| ==>
              LineKey(original, writes[i].material) in s.lines
              && writes[i].quantity <= s.lines[LineKey(original, writes[i].material)].remaining
  {
    if writes != [] {
      NoFaultMeaning(s, original, writes[1..]);
      assert forall i :: 0 < i < |writes| ==> writes[i] == writes[1..][i - 1];
    }
  }

  /** A reversal that passes the checks stays within what is left of the original. */
  lemma ReversalFits(s: Store, original: OperationId, writes: seq<LineWrite>)
    requires ValidWrites(writes) && ReversalFault(s, original, writes).None?
    ensures forall m :: m in Quantities(writes) ==>
              LineKey(original, m) in s.lines
              && Quantities(writes)[m] <= s.lines[LineKey(original, m)].remaining
  {
    QuantitiesMeaning(writes);
    NoFaultMeaning(s, original, writes);
  }

  // ---------------------------------------------------------------- one request

  lemma ReplayKeepsWellFormed(s: Store, ids: set<MaterialId>)
    requires WellFormed(s)
    ensures WellFormed(Replayed(s, ids))
  {
  }

  lemma KeysOfMeaning(o: OperationId, ms: set<MaterialId>)
    ensures forall k: LineKey :: k in KeysOf(o, ms) <==> k.operation == o && k.material in ms
  {
    forall k: LineKey | k.operation == o && k.material in ms ensures k in KeysOf(o, ms) {
      assert k == LineKey(o, k.material);
    }
  }

  /** g is s with operation op entered under the next id and, for a reversal, the original debited. */
  ghost predicate Grows(s: Store, g: Store, op: Operation, q: map<MaterialId, int>) {
    && g.operations == s.operations[s.nextId := op]
    && g.balances == s.balances
    && g.nextId == s.nextId + 1
    && (forall k: LineKey :: k in g.lines <==> k in s.lines || (k.operation == s.nextId && k.material in q))
    && (forall m :: m in q ==> g.lines[LineKey(s.nextId, m)] == NewLine(q[m]))
    && (forall k :: k in s.lines ==>
          g.lines[k] == if op.reversalOf == Some(k.operation) && k.material in q
                        then s.lines[k].(remaining := s.lines[k].remaining - q[k.material]) else s.lines[k])
  }

  lemma SettledGrows(s: Store, op: Operation, q: map<MaterialId, int>)
    requires WellFormed(s)
    requires op.reversalOf.Some? ==> op.reversalOf.value < s.nextId
    ensures Grows(s, Settled(Inserted(s, op, q), op.reversalOf, q), op, q)
  {
    KeysOfMeaning(s.nextId, q.Keys);
    assert forall k :: k in s.lines ==> k.operation < s.nextId;
    var i := Inserted(s, op, q);
    assert forall k: LineKey :: k in i.lines <==> k in s.lines || (k.operation == s.nextId && k.material in q);
  }

  /** A successful creation replays a store grown by its operation. */
  lemma CreatedGrows(s: Store, kind: OperationType, requestId: string, data: OperationData,
                     original: Option<OperationId>, user: Option<string>) returns (g: Store, op: Operation)
    requires WellFormed(s) && ValidWrites(data.lines)
    requires original.Some? ==> original.value in s.operations
    requires Created(s, kind, requestId, data, original, user).store != s
    ensures var q := Quantities(data.lines);
            && op == NewOperation(kind, requestId, data, original, user)
            && Linked(g) && Created(s, kind, requestId, data, original, user).store == Replayed(g, q.Keys)
            && Grows(s, g, op, q)
            && q.Keys <= s.balances.Keys
            && FindRequest(s, requestId).None?
            && (original.Some? ==> ReversalFault(s, original.value, data.lines).None?)
  {
    op := NewOperation(kind, requestId, data, original, user);
    var q := Quantities(data.lines);
    g := Settled(Inserted(s, op, q), original, q);
    SettledGrows(s, op, q);
  }

  lemma GrownHasUniqueRequests(s: Store, g: Store, op: Operation)
    requires UniqueRequests(s) && g.operations == s.operations[s.nextId := op]
    requires forall o :: o in s.operations ==> s.operations[o].requestId != op.requestId
    ensures UniqueRequests(g)
  {
  }

  lemma GrownIsWellFormed(s: Store, g: Store, op: Operation, q: map<MaterialId, int>)
    requires WellFormed(s) && Grows(s, g, op, q) && q.Keys <= s.balances.Keys
    requires forall m :: m in q ==> 0 < q[m]
    requires forall o :: o in s.operations ==> s.operations[o].requestId != op.requestId
    requires op.reversalOf.Some? ==>
               op.reversalOf.value in s.operations
               && forall m :: m in q ==> LineKey(op.reversalOf.value, m) in s.lines
                                         && q[m] <= s.lines[LineKey(op.reversalOf.value, m)].remaining
    ensures WellFormed(g)
  {
    GrownHasUniqueRequests(s, g, op);
    hide UniqueRequests;
    forall k | k in g.lines
      ensures k.operation in g.operations && k.material in g.balances
      ensures 0 < g.lines[k].quantity && 0 <= g.lines[k].remaining <= g.lines[k].quantity
    {
      GrownLine(s, g, op, q, k);
    }
    hide Grows;
  }

  lemma GrownLine(s: Store, g: Store, op: Operation, q: map<MaterialId, int>, k: LineKey)
    requires WellFormed(s) && Grows(s, g, op, q) && q.Keys <= s.balances.Keys && k in g.lines
    requires forall m :: m in q ==> 0 < q[m]
    requires op.reversalOf.Some? ==>
               forall m :: m in q ==> LineKey(op.reversalOf.value, m) in s.lines
                                      && q[m] <= s.lines[LineKey(op.reversalOf.value, m)].remaining
    ensures k.operation in g.operations && k.material in g.balances
    ensures 0 < g.lines[k].quantity && 0 <= g.lines[k].remaining <= g.lines[k].quantity
  {
    hide UniqueRequests;
    assert k == LineKey(k.operation, k.material);
    if k in s.lines {
      assert 0 < s.lines[k].quantity;
    }
  }

  lemma GrownAdds(s: Store, g: Store, op: Operation, q: map<MaterialId, int>)
    requires WellFormed(s) && Grows(s, g, op, q) && Linked(g)
    ensures forall m :: m in q ==> AddsOperation(s, g, s.nextId, m)
    ensures forall m :: m !in q ==> SameFacts(s, g, m)
  {
    forall m | m in q ensures AddsOperation(s, g, s.nextId, m) {
      GrownAddsOn(s, g, op, q, m);
    }
    forall m | m !in q ensures SameFacts(s, g, m) {
      GrownKeepsOthers(s, g, op, q, m);
    }
    hide Grows, WellFormed, AddsOperation, SameFacts;
  }

  lemma GrownAddsOn(s: Store, g: Store, op: Operation, q: map<MaterialId, int>, m: MaterialId)
    requires WellFormed(s) && Grows(s, g, op, q) && Linked(g) && m in q
    ensures AddsOperation(s, g, s.nextId, m)
  {
    hide UniqueRequests;
    assert forall k :: k in s.lines ==> k.operation < s.nextId;
    assert LineKey(s.nextId, m).operation == s.nextId;
  }

  lemma GrownKeepsOthers(s: Store, g: Store, op: Operation, q: map<MaterialId, int>, m: MaterialId)
    requires WellFormed(s) && Grows(s, g, op, q) && Linked(g) && m !in q
    ensures SameFacts(s, g, m)
  {
    hide UniqueRequests;
    assert forall k :: k in s.lines ==> k.operation < s.nextId;
  }

  lemma CreatedKeepsValid(s: Store, kind: OperationType, requestId: string, data: OperationData,
                          original: Option<OperationId>, user: Option<string>)
    requires Valid(s) && ValidWrites(data.lines)
    requires original.Some? ==> original.value in s.operations
    ensures Valid(Created(s, kind, requestId, data, original, user).store)
  {
    if Created(s, kind, requestId, data, original, user).store != s {
      var q := Quantities(data.lines);
      var g, op := CreatedGrows(s, kind, requestId, data, original, user);
      QuantitiesPositive(data.lines);
      if original.Some? {
        ReversalFits(s, original.value, data.lines);
      }
      GrownIsWellFormed(s, g, op, q);
      GrownAdds(s, g, op, q);
      ReplayCoversChanges(s, g, q.Keys);
      ReplayKeepsWellFormed(g, q.Keys);
    }
  }

  /** w is s with operation id and its lines replaced by what an edit says. */
  ghost predicate Rewrites(s: Store, w: Store, id: OperationId, op: Operation, q: map<MaterialId, int>) {
    && w.operations == s.operations[id := op]
    && w.balances == s.balances && w.nextId == s.nextId
    && (forall k: LineKey :: k in w.lines <==> if k.operation == id then k.material in q else k in s.lines)
    && (forall k: LineKey :: k in w.lines ==>
          w.lines[k] == if k.operation == id then EditedLine(s, k, q[k.material]) else s.lines[k])
  }

  lemma RewrittenRewrites(s: Store, id: OperationId, kind: OperationType, data: OperationData)
    requires id in s.operations
    ensures Rewrites(s, Rewritten(s, id, kind, data), id, EditedHeader(s.operations[id], kind, data),
                     Quantities(data.lines))
  {
    var q := Quantities(data.lines);
    KeysOfMeaning(id, q.Keys);
    KeysOfMeaning(id, MaterialsOf(s, id));
    assert forall k :: k in s.lines && k.operation == id ==> k.material in MaterialsOf(s, id);
  }

  lemma RewrittenIsWellFormed(s: Store, w: Store, id: OperationId, op: Operation, q: map<MaterialId, int>)
    requires WellFormed(s) && id in s.operations && Rewrites(s, w, id, op, q)
    requires op.reversalOf == s.operations[id].reversalOf && op.requestId == s.operations[id].requestId
    requires q.Keys <= s.balances.Keys && forall m :: m in q ==> 0 < q[m]
    ensures WellFormed(w)
  {
    forall k | k in w.lines
      ensures k.operation in w.operations && k.material in w.balances
      ensures 0 < w.lines[k].quantity && 0 <= w.lines[k].remaining <= w.lines[k].quantity
    {
      assert k in s.lines ==> 0 < s.lines[k].quantity;
    }
  }

  lemma RewritingKeepsOthers(s: Store, w: Store, id: OperationId, op: Operation, q: map<MaterialId, int>, m: MaterialId)
    requires WellFormed(s) && WellFormed(w) && id in s.operations && Rewrites(s, w, id, op, q)
    requires m !in MaterialsOf(s, id) && m !in q
    ensures SameFacts(s, w, m)
    ensures forall o :: LineKey(o, m) in s.lines ==> w.lines[LineKey(o, m)] == s.lines[LineKey(o, m)]
  {
    assert forall o :: LineKey(o, m) in s.lines && o == id ==> LineKey(o, m).material in MaterialsOf(s, id);
  }

  lemma EditedKeepsValid(s: Store, id: OperationId, version: nat, kind: OperationType, data: OperationData)
    requires Valid(s) && id in s.operations && ValidWrites(data.lines)
    ensures Valid(Edited(s, id, version, kind, data).store)
  {
    if Edited(s, id, version, kind, data).store != s {
      var q := Quantities(data.lines);
      var w := Rewritten(s, id, kind, data);
      var touched := MaterialsOf(s, id) + q.Keys;
      var op := EditedHeader(s.operations[id], kind, data);
      RewrittenRewrites(s, id, kind, data);
      QuantitiesPositive(data.lines);
      RewrittenIsWellFormed(s, w, id, op, q);
      forall m | m in s.balances && m !in touched
        ensures SameFacts(s, w, m)
        ensures forall o :: LineKey(o, m) in s.lines ==> w.lines[LineKey(o, m)] == s.lines[LineKey(o, m)]
      {
        RewritingKeepsOthers(s, w, id, op, q, m);
      }
      ReplayCoversChanges(s, w, touched);
      ReplayKeepsWellFormed(w, touched);
    }
  }

  /** A material on which nothing is booked adds up exactly with a zero balance. */
  lemma UnusedChainedIff(s: Store, m: MaterialId)
    requires Linked(s) && !IsUsed(s, m)
    ensures Chained(s, m) <==> m in s.balances && s.balances[m].quantity == 0
  {
    forall o ensures o !in OperationsOn(s, m) {
      assert LineKey(o, m) in s.lines ==> LineKey(o, m).material == m;
    }
    assert OperationsOn(s, m) == {};
  }

  lemma SameRowsStayChained(s: Store, u: Store, m: MaterialId)
    requires Linked(s) && u.operations == s.operations && u.lines == s.lines && Chained(s, m)
    requires m in u.balances && u.balances[m] == s.balances[m]
    ensures Linked(u) && Chained(u, m)
  {
    ChainedIffTotalled(s, m);
    ChainedIffTotalled(u, m);
    hide Chained, Stock, StockBefore;
    SameFactsSameSums(s, u, m);
  }

  lemma SameRowsStayWellFormed(s: Store, u: Store)
    requires WellFormed(s) && u.operations == s.operations && u.lines == s.lines && u.nextId == s.nextId
    requires forall k :: k in u.lines ==> k.material in u.balances
    ensures WellFormed(u)
  {
  }

  lemma MaterialAddedKeepsValid(s: Store, m: MaterialId)
    requires Valid(s)
    ensures Valid(MaterialAdded(s, m).store)
  {
    var u := MaterialAdded(s, m).store;
    if m !in s.balances {
      SameRowsStayWellFormed(s, u);
      assert !IsUsed(u, m);
      UnusedChainedIff(u, m);
      hide Chained, WellFormed;
      forall n | n in s.balances ensures Chained(u, n) {
        SameRowsStayChained(s, u, n);
      }
    }
  }

  lemma MaterialDroppedKeepsValid(s: Store, m: MaterialId)
    requires Valid(s)
    ensures Valid(MaterialDropped(s, m).store)
  {
    var u := MaterialDropped(s, m).store;
    if u != s {
      SameRowsStayWellFormed(s, u);
      hide Chained, WellFormed;
      forall n | n in u.balances ensures Chained(u, n) {
        SameRowsStayChained(s, u, n);
      }
    }
  }

  /** A stock material that can be deleted has nothing in stock. */
  lemma DroppedHasNoStock(s: Store, m: MaterialId)
    requires Valid(s) && MaterialDropped(s, m).result.Success?
    ensures m in s.balances && s.balances[m].quantity == 0
  {
    UnusedChainedIff(s, m);
  }

  /**
   After every request, successful or not, the ledger of every material in the store adds up, although
   only the touched materials were replayed; and what is left of a line never leaves its range.
   */
  lemma ApplyKeepsValid(s: Store, r: Request)
    requires Valid(s) && ValidRequest(r)
    ensures Valid(Apply(s, r).store)
  {
    match r
    case Create(kind, requestId, data, user) =>
      CreatedKeepsValid(s, kind, requestId, data, None, user);
    case Reverse(original, requestId, reason, lines, now) =>
      if original in s.operations {
        var op := s.operations[original];
        CreatedKeepsValid(s, OppositeKind(op.kind), requestId, ReversalData(op, reason, lines, now), Some(original),
                          None);
      }
    case Edit(id, version, kind, data) =>
      if id in s.operations {
        EditedKeepsValid(s, id, version, kind, data);
      }
    case AddMaterial(m) => MaterialAddedKeepsValid(s, m);
    case DropMaterial(m) => MaterialDroppedKeepsValid(s, m);
  }

  // ---------------------------------------------------------------- runs

  ghost predicate ValidRequests(rs: seq<Request>) {
    forall i :: 0 <= i < |rs| ==> ValidRequest(rs[i])
  }

  ghost function Run(s: Store, rs: seq<Request>): (r: Store)
    requires Valid(s) && ValidRequests(rs)
    ensures Valid(r)
    decreases |rs|
  {
    if rs == [] then s else
      ApplyKeepsValid(s, rs[0]);
      Run(Apply(s, rs[0]).store, rs[1..])
  }

  /** A ledger with stock cards and no history. */
  predicate Empty(s: Store) {
    && s.operations == map[] && s.lines == map[]
    && forall m :: m in s.balances ==> s.balances[m].quantity == 0
  }

  /** Every ledger reached from an empty one adds up, for every material, after every run of requests. */
  lemma EveryRunAddsUp(s: Store, rs: seq<Request>)
    requires Empty(s) && ValidRequests(rs)
    ensures Valid(s)
    ensures forall m :: m in Run(s, rs).balances ==>
              Chained(Run(s, rs), m) && Totalled(Run(s, rs), m)
  {
    forall m | m in s.balances ensures Chained(s, m) {
      assert OperationsOn(s, m) == {};
    }
    forall m | m in Run(s, rs).balances ensures Totalled(Run(s, rs), m) {
      ChainedIffTotalled(Run(s, rs), m);
    }
  }

  // ---------------------------------------------------------------- retries

  function RequestIdOf(r: Request): Option<string> {
    match r
    case Create(_, requestId, _, _) => Some(requestId)
    case Reverse(_, requestId, _, _, _) => Some(requestId)
    case _ => None
  }

  /** A creation or reversal whose request id is already stored. */
  ghost predicate IsRetry(s: Store, r: Request) {
    RequestIdOf(r).Some?
    && exists o :: o in s.operations && s.operations[o].requestId == RequestIdOf(r).value
  }

  lemma RetryChangesNothing(s: Store, r: Request)
    requires Valid(s) && ValidRequest(r) && IsRetry(s, r)
    ensures Apply(s, r).store == s
    ensures Apply(s, r).result.Success? <==> (r.Reverse? ==> r.original in s.operations)
    ensures Apply(s, r).result.Success? ==>
              Apply(s, r).result.value in s.operations
              && s.operations[Apply(s, r).result.value].requestId == RequestIdOf(r).value
  {
  }

  /** The requests of a run that are not retries at the moment they arrive. */
  ghost function WithoutRetries(s: Store, rs: seq<Request>): (kept: seq<Request>)
    requires Valid(s) && ValidRequests(rs)
    ensures ValidRequests(kept)
    decreases |rs|
  {
    if rs == [] then [] else
      ApplyKeepsValid(s, rs[0]);
      var rest := WithoutRetries(Apply(s, rs[0]).store, rs[1..]);
      if IsRetry(s, rs[0]) then rest else [rs[0]] + rest
  }

  /** Clients may repeat requests as they like: dropping every retry leaves the same final ledger. */
  lemma {:induction false} RetriesAreInvisible(s: Store, rs: seq<Request>)
    requires Valid(s) && ValidRequests(rs)
    ensures Run(s, WithoutRetries(s, rs)) == Run(s, rs)
    decreases |rs|
  {
    if rs != [] {
      ApplyKeepsValid(s, rs[0]);
      var next := Apply(s, rs[0]).store;
      RetriesAreInvisible(next, rs[1..]);
      if IsRetry(s, rs[0]) {
        RetryChangesNothing(s, rs[0]);
      } else {
        var kept := WithoutRetries(s, rs);
        assert kept[1..] == WithoutRetries(next, rs[1..]);
      }
    }
  }

  ghost predicate KeepsIdentities(a: Store, b: Store) {
    && a.operations.Keys <= b.operations.Keys
    && forall o :: o in a.operations ==>
         && b.operations[o].requestId == a.operations[o].requestId
         && b.operations[o].reversalOf == a.operations[o].reversalOf
  }

  lemma CreatedKeepsIdentities(s: Store, kind: OperationType, requestId: string, data: OperationData,
                               original: Option<OperationId>, user: Option<string>)
    requires WellFormed(s) && ValidWrites(data.lines)
    requires original.Some? ==> original.value in s.operations
    ensures KeepsIdentities(s, Created(s, kind, requestId, data, original, user).store)
  {
    if Created(s, kind, requestId, data, original, user).store != s {
      var g, op := CreatedGrows(s, kind, requestId, data, original, user);
    }
  }

  lemma EditedKeepsIdentities(s: Store, id: OperationId, version: nat, kind: OperationType, data: OperationData)
    requires WellFormed(s) && id in s.operations
    ensures KeepsIdentities(s, Edited(s, id, version, kind, data).store)
  {
  }

  lemma ApplyKeepsIdentities(s: Store, r: Request)
    requires WellFormed(s) && ValidRequest(r)
    ensures KeepsIdentities(s, Apply(s, r).store)
  {
    match r
    case Create(kind, requestId, data, user) =>
      CreatedKeepsIdentities(s, kind, requestId, data, None, user);
    case Reverse(original, requestId, reason, lines, now) =>
      if original in s.operations {
        var op := s.operations[original];
        CreatedKeepsIdentities(s, OppositeKind(op.kind), requestId, ReversalData(op, reason, lines, now),
                               Some(original), None);
      }
    case Edit(id, version, kind, data) =>
      if id in s.operations {
        EditedKeepsIdentities(s, id, version, kind, data);
      }
    case _ =>
  }

  /** Operations are never dropped or renamed, and no two ever share an id or a request id. */
  lemma {:induction false} IdentitiesAreKept(s: Store, rs: seq<Request>)
    requires Valid(s) && ValidRequests(rs)
    ensures KeepsIdentities(s, Run(s, rs)) && UniqueRequests(Run(s, rs))
    decreases |rs|
  {
    if rs != [] {
      ApplyKeepsValid(s, rs[0]);
      ApplyKeepsIdentities(s, rs[0]);
      IdentitiesAreKept(Apply(s, rs[0]).store, rs[1..]);
    }
  }

  // ---------------------------------------------------------------- an edit that changes nothing

  function OwnQuantities(s: Store, id: OperationId): map<MaterialId, int> {
    map m | m in MaterialsOf(s, id) && LineKey(id, m) in s.lines :: s.lines[LineKey(id, m)].quantity
  }

  /** The payload says of operation id what is stored already. */
  ghost predicate SaysTheSame(s: Store, id: OperationId, kind: OperationType, data: OperationData)
    requires id in s.operations
  {
    && s.operations[id] == EditedHeader(s.operations[id], kind, data).(version := s.operations[id].version)
    && Quantities(data.lines) == OwnQuantities(s, id)
  }

  ghost predicate SameFigures(a: Store, b: Store) {
    && a.lines.Keys == b.lines.Keys
    && (forall k :: k in a.lines ==> b.lines[k].(version := a.lines[k].version) == a.lines[k])
    && a.balances.Keys == b.balances.Keys
    && (forall m :: m in a.balances ==> a.balances[m].quantity == b.balances[m].quantity)
  }

  lemma RewritingTheSame(s: Store, w: Store, id: OperationId, op: Operation)
    requires WellFormed(s) && id in s.operations && Rewrites(s, w, id, op, OwnQuantities(s, id))
    requires op == s.operations[id].(version := op.version)
    ensures SameFigures(s, w) && Linked(w)
    ensures forall m :: SameFacts(s, w, m)
  {
    RewritingSameLines(s, w, id, op);
    hide Rewrites, OwnQuantities, WellFormed;
    forall m ensures SameFacts(s, w, m) {
      SameLinesSameFacts(s, w, id, op, m);
    }
  }

  lemma RewritingSameLines(s: Store, w: Store, id: OperationId, op: Operation)
    requires WellFormed(s) && id in s.operations && Rewrites(s, w, id, op, OwnQuantities(s, id))
    ensures SameFigures(s, w) && w.operations == s.operations[id := op] && Linked(s) && Linked(w)
  {
    hide OwnQuantities, MaterialsOf, EditedLine;
    forall k: LineKey
      ensures k in s.lines <==> k in w.lines
      ensures k in s.lines ==> w.lines[k].(version := s.lines[k].version) == s.lines[k]
    {
      if k.operation == id {
        OwnQuantityAt(s, id, k);
      }
      if k in s.lines {
        assert 0 <= s.lines[k].remaining <= s.lines[k].quantity;
        EditedToTheSame(s, k);
      }
    }
  }

  lemma OwnQuantityAt(s: Store, id: OperationId, k: LineKey)
    requires k.operation == id
    ensures k.material in OwnQuantities(s, id) <==> k in s.lines
    ensures k in s.lines ==> OwnQuantities(s, id)[k.material] == s.lines[k].quantity
  {
    assert k == LineKey(k.operation, k.material);
    if k in s.lines {
      assert k.material in MaterialsOf(s, id);
    }
  }

  lemma EditedToTheSame(s: Store, k: LineKey)
    requires k in s.lines && s.lines[k].remaining <= s.lines[k].quantity
    ensures EditedLine(s, k, s.lines[k].quantity).(version := s.lines[k].version) == s.lines[k]
  {
  }

  lemma SameLinesSameFacts(s: Store, w: Store, id: OperationId, op: Operation, m: MaterialId)
    requires Linked(s) && Linked(w) && SameFigures(s, w) && id in s.operations && w.operations == s.operations[id := op]
    requires op == s.operations[id].(version := op.version)
    ensures SameFacts(s, w, m)
  {
    forall o | LineKey(o, m) in s.lines ensures s.lines[LineKey(o, m)].quantity == w.lines[LineKey(o, m)].quantity {
      assert w.lines[LineKey(o, m)].(version := s.lines[LineKey(o, m)].version) == s.lines[LineKey(o, m)];
    }
  }

  lemma SameFiguresStayTotalled(s: Store, w: Store, m: MaterialId)
    requires Linked(s) && Linked(w) && SameFigures(s, w) && SameFacts(s, w, m) && Totalled(s, m)
    ensures Totalled(w, m)
  {
    SameFactsSameSums(s, w, m);
  }

  lemma ReplayingSameFigures(s: Store, w: Store, ids: set<MaterialId>)
    requires Valid(s) && Linked(w) && SameFigures(s, w) && (forall m :: SameFacts(s, w, m)) && ids <= w.balances.Keys
    ensures SameFigures(s, Replayed(w, ids))
  {
    hide SameFacts, Totalled, Chained;
    forall m | m in ids ensures Chained(w, m) {
      ChainedIffTotalled(s, m);
      SameFiguresStayTotalled(s, w, m);
      ChainedIffTotalled(w, m);
    }
    ReplayFixpoint(w, ids);
  }

  /** Saving an operation as it is changes no quantity, no total and no balance, only versions. */
  lemma EditWithoutChanges(s: Store, id: OperationId, version: nat, kind: OperationType, data: OperationData)
    requires Valid(s) && id in s.operations && SaysTheSame(s, id, kind, data)
    requires Edited(s, id, version, kind, data).result.Success?
    ensures var e := Edited(s, id, version, kind, data).store;
            SameFigures(s, e) && e.operations == s.operations[id := s.operations[id].(version := version + 1)]
  {
    hide SameFacts, SameFigures, Replayed, Chained, Linked, UniqueRequests, Edited, Rewritten, OwnQuantities,
         Quantities,
         MaterialsOf, Rewrites;
    EditedIsReplayed(s, id, version, kind, data);
    var w := Rewritten(s, id, kind, data);
    var op := EditedHeader(s.operations[id], kind, data);
    RewrittenRewrites(s, id, kind, data);
    RewritingTheSame(s, w, id, op);
    ReplayingSameFigures(s, w, MaterialsOf(s, id) + Quantities(data.lines).Keys);
    ReplayKeepsOperations(w, MaterialsOf(s, id) + Quantities(data.lines).Keys);
  }

  lemma EditedIsReplayed(s: Store, id: OperationId, version: nat, kind: OperationType, data: OperationData)
    requires WellFormed(s) && id in s.operations && Edited(s, id, version, kind, data).result.Success?
    ensures var touched := MaterialsOf(s, id) + Quantities(data.lines).Keys;
            var w := Rewritten(s, id, kind, data);
            && Linked(w) && w.balances == s.balances && touched <= s.balances.Keys
            && version == s.operations[id].version
            && w.operations == s.operations[id := EditedHeader(s.operations[id], kind, data)]
            && Edited(s, id, version, kind, data).store == Replayed(w, touched)
  {
  }

  lemma ReplayKeepsOperations(s: Store, ids: set<MaterialId>)
    requires Linked(s)
    ensures Replayed(s, ids).operations == s.operations
  {
  }
}
