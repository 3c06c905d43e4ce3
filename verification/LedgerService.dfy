/**
 The stock ledger as inventory_service.py keeps it: tables that each request updates in place, row by
 row.  Every method is proved to leave exactly the store that Ledger.dfy specifies, and to keep the
 ledger of every material adding up.  A request that fails leaves the tables as they were.
 */
module LedgerService {
  import opened Options
  import opened Sums
  import opened Ledger
  import opened LedgerReplay
  import opened LedgerRuns

  // ---------------------------------------------------------------- facts about the specification

  lemma RestampedOnceMore(s: Store, done: set<MaterialId>, m: MaterialId, k: LineKey)
    requires Linked(s) && m !in done && k in s.lines && k.material == m
    ensures Linked(Replayed(s, done)) && k in Replayed(s, done).lines
    ensures Restamped(Replayed(s, done), k) == Restamped(s, k)
  {
    ReplayLeaves(s, done, m);
    hide Replayed, Stock, StockBefore;
    SameFactsSameSums(s, Replayed(s, done), m);
    assert k == LineKey(k.operation, m);
  }

  /** Replaying some materials changes nothing on another. */
  lemma ReplayLeaves(s: Store, done: set<MaterialId>, m: MaterialId)
    requires Linked(s) && m !in done
    ensures Linked(Replayed(s, done)) && SameFacts(s, Replayed(s, done), m)
    ensures forall k :: k in s.lines && k.material == m ==>
              k in Replayed(s, done).lines && Replayed(s, done).lines[k] == s.lines[k]
  {
    hide Restamped, Stock;
  }

  lemma ReplayOneMore(s: Store, done: set<MaterialId>, m: MaterialId)
    requires Linked(s) && m !in done
    ensures Linked(Replayed(s, done)) && Replayed(Replayed(s, done), {m}) == Replayed(s, done + {m})
  {
    ReplayLeaves(s, done, m);
    hide Restamped, Stock;
    var r := Replayed(s, done);
    SameFactsSameSums(s, r, m);
    forall k | k in s.lines && k.material == m ensures Restamped(r, k) == Restamped(s, k) {
      RestampedOnceMore(s, done, m, k);
    }
  }

  lemma QuantitiesStep(writes: seq<LineWrite>, i: nat)
    requires i < |writes|
    ensures Quantities(writes[..i + 1]) == Quantities(writes[..i])[writes[i].material := writes[i].quantity]
  {
    assert writes[..i + 1][..i] == writes[..i];
  }

  lemma NotYetWritten(writes: seq<LineWrite>, i: nat)
    requires ValidWrites(writes) && i < |writes|
    ensures writes[i].material !in Quantities(writes[..i])
  {
    QuantitiesMeaning(writes[..i]);
  }

  /** The lines of m visited so far carry their new totals. */
  ghost function PartlyReplayed(s: Store, m: MaterialId, done: seq<OperationId>): map<LineKey, Line>
    requires Linked(s)
  {
    map k | k in s.lines :: if k.material == m && k.operation in done then Restamped(s, k) else s.lines[k]
  }

  lemma PartlyReplayedGrows(s: Store, m: MaterialId, done: seq<OperationId>, o: OperationId)
    requires Linked(s) && LineKey(o, m) in s.lines && o !in done
    ensures PartlyReplayed(s, m, done)[LineKey(o, m)] == s.lines[LineKey(o, m)]
    ensures PartlyReplayed(s, m, done + [o])
            == PartlyReplayed(s, m, done)[LineKey(o, m) := Restamped(s, LineKey(o, m))]
  {
    assert forall k :: k in s.lines && k.material == m && k.operation == o ==> k == LineKey(o, m);
  }

  lemma PartlyReplayedWhole(s: Store, m: MaterialId)
    requires Linked(s)
    ensures PartlyReplayed(s, m, Timeline(s, m)) == Replayed(s, {m}).lines
  {
    TimelineMeaning(s, m);
    forall k | k in s.lines && k.material == m ensures k.operation in Timeline(s, m) {
      assert k == LineKey(k.operation, m);
    }
  }

  lemma RestampedAt(s: Store, m: MaterialId, i: nat, running: int)
    requires Linked(s) && i < |Timeline(s, m)|
    requires running == Sum(Prefix(s, Timeline(s, m)[..i], m))
    ensures var o := Timeline(s, m)[i];
            && o in s.operations && LineKey(o, m) in s.lines
            && Restamped(s, LineKey(o, m))
               == s.lines[LineKey(o, m)].(before := running, after := running + Delta(s, o, m))
            && running + Delta(s, o, m) == Sum(Prefix(s, Timeline(s, m)[..i + 1], m))
  {
    PrefixIsEarlier(s, m, i);
    PrefixStep(s, m, i);
  }

  lemma NotYetVisited(s: Store, m: MaterialId, i: nat)
    requires Linked(s) && i < |Timeline(s, m)|
    ensures Timeline(s, m)[i] !in Timeline(s, m)[..i]
  {
    TimelineMeaning(s, m);
    assert forall j :: 0 <= j < i ==> Precedes(s, Timeline(s, m)[j], Timeline(s, m)[i]);
  }

  /** One step of the replay loop touches the line at position i only. */
  lemma VisitOne(s: Store, m: MaterialId, t: seq<OperationId>, i: nat)
    requires Linked(s) && t == Timeline(s, m) && i < |t| && LineKey(t[i], m) in s.lines
    ensures PartlyReplayed(s, m, t[..i])[LineKey(t[i], m)] == s.lines[LineKey(t[i], m)]
    ensures PartlyReplayed(s, m, t[..i + 1])
            == PartlyReplayed(s, m, t[..i])[LineKey(t[i], m) := Restamped(s, LineKey(t[i], m))]
  {
    NotYetVisited(s, m, i);
    PartlyReplayedGrows(s, m, t[..i], t[i]);
    assert t[..i + 1] == t[..i] + [t[i]];
  }

  lemma NewLinesAdd(id: OperationId, q: map<MaterialId, int>, m: MaterialId, n: int)
    ensures NewLines(id, q[m := n]) == NewLines(id, q)[LineKey(id, m) := NewLine(n)]
  {
    KeysOfMeaning(id, q.Keys);
    KeysOfMeaning(id, q[m := n].Keys);
  }

  lemma EditedLinesAdd(s: Store, id: OperationId, q: map<MaterialId, int>, m: MaterialId, n: int)
    ensures EditedLines(s, id, q[m := n]) == EditedLines(s, id, q)[LineKey(id, m) := EditedLine(s, LineKey(id, m), n)]
  {
    KeysOfMeaning(id, q.Keys);
    KeysOfMeaning(id, q[m := n].Keys);
  }

  lemma DebitedAdd(s: Store, original: OperationId, q: map<MaterialId, int>, m: MaterialId, n: int)
    requires m !in q && LineKey(original, m) in s.lines
    ensures var k := LineKey(original, m);
            && Debited(s, original, q).lines[k] == s.lines[k]
            && Debited(s, original, q[m := n]).lines
               == Debited(s, original, q).lines[k := s.lines[k].(remaining := s.lines[k].remaining - n)]
  {
    assert forall k :: k in s.lines && k.operation == original && k.material == m ==> k == LineKey(original, m);
  }

  lemma AddThenUpdate(a: map<LineKey, Line>, b: map<LineKey, Line>, k: LineKey, line: Line)
    ensures (a + b)[k := line] == a + b[k := line]
  {
  }

  // ---------------------------------------------------------------- the service

  class StockLedger {
    var operations: map<OperationId, Operation>
    var lines: map<LineKey, Line>
    var balances: map<MaterialId, Balance>
    var nextId: OperationId

    function Contents(): Store
      reads this
    {
      Store(operations, lines, balances, nextId)
    }

    /** A ledger with a zero balance for each of the given materials and no operations. */
    constructor (materials: set<MaterialId>)
      ensures Empty(Contents()) && balances.Keys == materials
      ensures Valid(Contents())
    {
      operations, lines, nextId := map[], map[], 1;
      balances := map m | m in materials :: Balance(0, 1);
      new;
      EveryRunAddsUp(Contents(), []);
    }

    /** create_stock_material: a stock card with a zero balance. */
    method AddMaterial(m: MaterialId) returns (r: Result<nat, Error>)
      requires Valid(Contents())
      modifies this`balances
      ensures Valid(Contents())
      ensures Outcome(Contents(), r) == Apply(old(Contents()), Ledger.AddMaterial(m))
    {
      ApplyKeepsValid(Contents(), Ledger.AddMaterial(m));
      if m in balances {
        return Failure(DuplicateMaterial);
      }
      balances := balances[m := Balance(0, 1)];
      return Success(m.id);
    }

    /** delete_stock_material */
    method DropMaterial(m: MaterialId) returns (r: Result<nat, Error>)
      requires Valid(Contents())
      modifies this`balances
      ensures Valid(Contents())
      ensures Outcome(Contents(), r) == Apply(old(Contents()), Ledger.DropMaterial(m))
    {
      ApplyKeepsValid(Contents(), Ledger.DropMaterial(m));
      if m !in balances {
        return Failure(NotFound);
      }
      if exists k :: k in lines && k.material == m {
        return Failure(MaterialInUse);
      }
      balances := balances - {m};
      return Success(m.id);
    }

    /** replay_materials: walk each material's lines in order and write the running totals back. */
    method ReplayMaterials(ids: set<MaterialId>) returns (r: Result<(), Error>)
      requires Linked(Contents())
      modifies this
      ensures Linked(Contents())
      ensures r == if ids <= old(balances.Keys) then Success(()) else Failure(BalanceMissing)
      ensures r.Success? ==> Contents() == Replayed(old(Contents()), ids)
    {
      ghost var start := Contents();
      ghost var done: set<MaterialId> := {};
      var todo := ids;
      assert Replayed(start, {}) == start;
      while todo != {}
        invariant todo !! done && todo + done == ids && done <= start.balances.Keys
        invariant Contents() == Replayed(start, done)
        invariant Linked(Contents())
        decreases todo
      {
        var m :| m in todo;
        if m !in balances {
          return Failure(BalanceMissing);
        }
        ReplayMaterial(m);
        ReplayOneMore(start, done, m);
        done, todo := done + {m}, todo - {m};
      }
      return Success(());
    }

    method ReplayMaterial(m: MaterialId)
      requires Linked(Contents()) && m in balances
      modifies this
      ensures Contents() == Replayed(old(Contents()), {m})
    {
      var running := ReplayLines(m);
      balances := balances[m := Balance(running, balances[m].version + 1)];
    }

    method ReplayLines(m: MaterialId) returns (running: int)
      requires Linked(Contents())
      modifies this`lines
      ensures running == Stock(old(Contents()), m)
      ensures lines == Replayed(old(Contents()), {m}).lines
    {
      ghost var start := Contents();
      var rows := Timeline(Contents(), m);
      WholeIsDeltas(start, m);
      running := 0;
      assert rows[..0] == [] && Prefix(start, [], m) == map[];
      assert PartlyReplayed(start, m, []) == start.lines;
      for i := 0 to |rows|
        invariant lines == PartlyReplayed(start, m, rows[..i])
        invariant running == Sum(Prefix(start, rows[..i], m))
      {
        running := ReplayLine(start, m, rows, i, running);
      }
      assert rows[..|rows|] == rows;
      PartlyReplayedWhole(start, m);
    }

    /** The body of the replay loop. */
    method ReplayLine(ghost start: Store, m: MaterialId, rows: seq<OperationId>, i: nat, running: int)
      returns (after: int)
      requires Linked(start) && rows == Timeline(start, m) && i < |rows|
      requires operations == start.operations && lines == PartlyReplayed(start, m, rows[..i])
      requires running == Sum(Prefix(start, rows[..i], m))
      modifies this`lines
      ensures lines == PartlyReplayed(start, m, rows[..i + 1])
      ensures after == Sum(Prefix(start, rows[..i + 1], m))
    {
      RestampedAt(start, m, i, running);
      VisitOne(start, m, rows, i);
      var k := LineKey(rows[i], m);
      after := if operations[rows[i]].kind.Inbound? then running + lines[k].quantity
               else running - lines[k].quantity;
      lines := lines[k := lines[k].(before := running, after := after)];
    }

    method CheckReversal(original: OperationId, writes: seq<LineWrite>) returns (fault: Option<Error>)
      ensures fault == ReversalFault(Contents(), original, writes)
    {
      for i := 0 to |writes|
        invariant ReversalFault(Contents(), original, writes) == ReversalFault(Contents(), original, writes[i..])
      {
        var k := LineKey(original, writes[i].material);
        assert writes[i..][0] == writes[i] && writes[i..][1..] == writes[i + 1..];
        if k !in lines {
          return Some(InvalidReversalLine);
        }
        if writes[i].quantity > lines[k].remaining {
          return Some(InsufficientQuantity(lines[k].remaining));
        }
      }
      return None;
    }

    method AddLines(id: OperationId, writes: seq<LineWrite>)
      modifies this`lines
      ensures lines == old(lines) + NewLines(id, Quantities(writes))
    {
      for i := 0 to |writes|
        invariant lines == old(lines) + NewLines(id, Quantities(writes[..i]))
      {
        var w := writes[i];
        QuantitiesStep(writes, i);
        NewLinesAdd(id, Quantities(writes[..i]), w.material, w.quantity);
        AddThenUpdate(old(lines), NewLines(id, Quantities(writes[..i])), LineKey(id, w.material), NewLine(w.quantity));
        lines := lines[LineKey(id, w.material) := NewLine(w.quantity)];
      }
      assert writes[..|writes|] == writes;
    }

    method DebitOriginal(original: OperationId, writes: seq<LineWrite>)
      requires ValidWrites(writes)
      requires forall i :: 0 <= i < |writes| ==> LineKey(original, writes[i].material) in lines
      modifies this`lines
      ensures Contents() == Debited(old(Contents()), original, Quantities(writes))
    {
      ghost var start := Contents();
      for i := 0 to |writes|
        invariant Contents() == Debited(start, original, Quantities(writes[..i]))
      {
        QuantitiesStep(writes, i);
        NotYetWritten(writes, i);
        DebitedAdd(start, original, Quantities(writes[..i]), writes[i].material, writes[i].quantity);
        var k := LineKey(original, writes[i].material);
        lines := lines[k := lines[k].(remaining := lines[k].remaining - writes[i].quantity)];
      }
      assert writes[..|writes|] == writes;
    }

    /** create_operation */
    method CreateOperation(kind: OperationType, requestId: string, data: OperationData,
                           original: Option<OperationId>, user: Option<string>)
      returns (r: Result<OperationId, Error>)
      requires Valid(Contents()) && ValidWrites(data.lines)
      requires original.Some? ==> original.value in operations
      modifies this
      ensures Valid(Contents())
      ensures Outcome(Contents(), r) == Created(old(Contents()), kind, requestId, data, original, user)
    {
      ghost var start := Contents();
      CreatedKeepsValid(start, kind, requestId, data, original, user);
      var existing := FindRequest(Contents(), requestId);
      if existing.Some? {
        return Success(existing.value);
      }
      var error := CreateError(kind, data, original, user);
      if error.Some? {
        return Failure(error.value);
      }
      var materials := Quantities(data.lines).Keys;
      if !(materials <= balances.Keys) {
        return Failure(BalanceMissing);
      }
      if original.Some? {
        var fault := CheckReversal(original.value, data.lines);
        if fault.Some? {
          return Failure(fault.value);
        }
        NoFaultMeaning(start, original.value, data.lines);
      }
      r := Success(nextId);
      EnterOperation(NewOperation(kind, requestId, data, original, user), data.lines);
    }

    /** The checked part of create_operation: insert the rows, debit the original, replay. */
    method EnterOperation(op: Operation, writes: seq<LineWrite>)
      requires Linked(Contents()) && ValidWrites(writes) && Quantities(writes).Keys <= balances.Keys
      requires op.reversalOf.Some? ==>
                 forall i :: 0 <= i < |writes| ==> LineKey(op.reversalOf.value, writes[i].material) in lines
      modifies this
      ensures var q := Quantities(writes);
              var entered := Settled(Inserted(old(Contents()), op, q), op.reversalOf, q);
              Linked(entered) && Contents() == Replayed(entered, q.Keys)
    {
      InsertedIsLinked(Contents(), op, Quantities(writes), op.reversalOf);
      InsertRows(op, writes);
      SettleOriginal(op.reversalOf, writes);
      var replayed := ReplayMaterials(Quantities(writes).Keys);
    }

    method InsertRows(op: Operation, writes: seq<LineWrite>)
      modifies this
      ensures Contents() == Inserted(old(Contents()), op, Quantities(writes))
    {
      var id := nextId;
      operations, nextId := operations[id := op], nextId + 1;
      AddLines(id, writes);
    }

    method SettleOriginal(original: Option<OperationId>, writes: seq<LineWrite>)
      requires ValidWrites(writes)
      requires original.Some? ==>
                 forall i :: 0 <= i < |writes| ==> LineKey(original.value, writes[i].material) in lines
      modifies this
      ensures Contents() == Settled(old(Contents()), original, Quantities(writes))
    {
      if original.Some? {
        DebitOriginal(original.value, writes);
      }
    }

    /** reverse_operation */
    method ReverseOperation(original: OperationId, requestId: string, reason: string, writes: seq<LineWrite>, now: int)
      returns (r: Result<OperationId, Error>)
      requires Valid(Contents()) && ValidRequest(Reverse(original, requestId, reason, writes, now))
      modifies this
      ensures Valid(Contents())
      ensures Outcome(Contents(), r)
              == Apply(old(Contents()), Reverse(original, requestId, reason, writes, now))
    {
      if original !in operations {
        return Failure(NotFound);
      }
      var op := operations[original];
      r := CreateOperation(OppositeKind(op.kind), requestId, ReversalData(op, reason, writes, now), Some(original),
                           None);
    }

    method EditLines(id: OperationId, writes: seq<LineWrite>) returns (updated: map<LineKey, Line>)
      ensures updated == EditedLines(Contents(), id, Quantities(writes))
    {
      updated := map[];
      for i := 0 to |writes|
        invariant updated == EditedLines(Contents(), id, Quantities(writes[..i]))
      {
        QuantitiesStep(writes, i);
        EditedLinesAdd(Contents(), id, Quantities(writes[..i]), writes[i].material, writes[i].quantity);
        var k := LineKey(id, writes[i].material);
        var stored := if k in lines then lines[k].(version := lines[k].version + 1)
                      else NewLine(writes[i].quantity);
        updated := updated[k := stored.(quantity := writes[i].quantity,
                                        remaining := Min(stored.remaining, writes[i].quantity))];
      }
      assert writes[..|writes|] == writes;
    }

    /** update_operation */
    method UpdateOperation(id: OperationId, version: nat, kind: OperationType, data: OperationData)
      returns (r: Result<OperationId, Error>)
      requires Valid(Contents()) && ValidWrites(data.lines)
      modifies this
      ensures Valid(Contents())
      ensures Outcome(Contents(), r) == Apply(old(Contents()), Edit(id, version, kind, data))
    {
      ghost var start := Contents();
      ApplyKeepsValid(start, Edit(id, version, kind, data));
      if id !in operations {
        return Failure(NotFound);
      }
      var error := EditError(operations[id], version, kind, data);
      if error.Some? {
        return Failure(error.value);
      }
      var oldMaterials := MaterialsOf(Contents(), id);
      var touched := oldMaterials + Quantities(data.lines).Keys;
      if !(touched <= balances.Keys) {
        return Failure(BalanceMissing);
      }
      var updated := EditLines(id, data.lines);
      operations := operations[id := EditedHeader(operations[id], kind, data)];
      lines := (lines - KeysOf(id, oldMaterials)) + updated;
      assert Contents() == Rewritten(start, id, kind, data);
      var replayed := ReplayMaterials(touched);
      return Success(id);
    }
  }
}
