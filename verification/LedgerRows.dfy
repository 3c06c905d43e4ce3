/**
 What a request leaves in the rows: when a creation, a reversal or an edit goes through, and then what the
 operation, its lines and everything else hold, said of the payload and the rows before it.
 */
module LedgerRows {
  import opened Options
  import opened Ledger
  import opened LedgerRuns

  // ---------------------------------------------------------------- what is accepted

  /** Direction, source, reason and receiver of a payload fit together, whoever sends it. */
  predicate FitsTogether(kind: OperationType, data: OperationData) {
    && (kind.Outbound? ==>
          && data.reason != ""
          && !data.source.Initialization?
          && (data.source.Reversal? || Given(data.receiverName)))
    && (kind.Inbound? ==> !data.source.MiniProgram? && !Given(data.receiverName) && !Given(data.receiverUnit))
  }

  /** Each line of the payload is on a line of the original with that much left of it. */
  predicate IsLeft(s: Store, original: OperationId, writes: seq<LineWrite>) {
    forall i :: 0 <= i < |writes| ==>
      var k := LineKey(original, writes[i].material);
      k in s.lines && writes[i].quantity <= s.lines[k].remaining
  }

  predicate HasCards(s: Store, writes: seq<LineWrite>) {
    forall i :: 0 <= i < |writes| ==> writes[i].material in s.balances
  }

  /** No stored operation has the request id. */
  predicate IsUnused(s: Store, requestId: string) {
    forall o :: o in s.operations ==> s.operations[o].requestId != requestId
  }

  lemma {:induction false} FaultlessIff(s: Store, original: OperationId, writes: seq<LineWrite>)
    ensures ReversalFault(s, original, writes).None? <==> IsLeft(s, original, writes)
    decreases |writes|
  {
    if writes != [] {
      var rest := writes[1..];
      FaultlessIff(s, original, rest);
      assert forall i :: 0 <= i < |rest| ==> rest[i] == writes[i + 1];
      if IsLeft(s, original, rest) && ReversalFault(s, original, writes).None? {
        forall i | 0 <= i < |writes|
          ensures var k := LineKey(original, writes[i].material);
                  k in s.lines && writes[i].quantity <= s.lines[k].remaining
        {
          assert i > 0 ==> writes[i] == rest[i - 1];
        }
      }
      if IsLeft(s, original, writes) {
        assert writes[0].quantity <= s.lines[LineKey(original, writes[0].material)].remaining;
      }
    }
  }

  /** A rejected reversal names the first line that the original does not have, or what is left of it if too little. */
  lemma {:induction false} FaultIsFirst(s: Store, original: OperationId, writes: seq<LineWrite>) returns (i: nat)
    requires ReversalFault(s, original, writes).Some?
    ensures i < |writes| && IsLeft(s, original, writes[..i])
    ensures var k, fault := LineKey(original, writes[i].material), ReversalFault(s, original, writes).value;
            if k !in s.lines then fault == InvalidReversalLine
            else fault == InsufficientQuantity(s.lines[k].remaining) && s.lines[k].remaining < writes[i].quantity
    decreases |writes|
  {
    var k := LineKey(original, writes[0].material);
    if k !in s.lines || writes[0].quantity > s.lines[k].remaining {
      i := 0;
    } else {
      var j := FaultIsFirst(s, original, writes[1..]);
      i := j + 1;
      assert writes[..i] == [writes[0]] + writes[1..][..j];
    }
  }

  lemma CardsIff(s: Store, writes: seq<LineWrite>)
    requires ValidWrites(writes)
    ensures Quantities(writes).Keys <= s.balances.Keys <==> HasCards(s, writes)
  {
    QuantitiesMeaning(writes);
    hide Quantities;
    if HasCards(s, writes) {
      forall m | m in Quantities(writes) ensures m in s.balances {
        var i :| 0 <= i < |writes| && writes[i].material == m;
      }
    }
    if Quantities(writes).Keys <= s.balances.Keys {
      forall i | 0 <= i < |writes| ensures writes[i].material in s.balances {
        assert writes[i].material in Quantities(writes).Keys;
      }
    }
  }

  /** A creation changes the ledger exactly if its request id is new and its payload is in order. */
  lemma CreationSucceedsIff(s: Store, kind: OperationType, requestId: string, data: OperationData,
                            original: Option<OperationId>, user: Option<string>)
    requires WellFormed(s) && ValidWrites(data.lines)
    ensures Created(s, kind, requestId, data, original, user).store != s
            <==> && IsUnused(s, requestId)
                 && FitsTogether(kind, data) && HasCards(s, data.lines)
                 && (data.source.MiniProgram? <==> user.Some?)
                 && (data.source.Reversal? ==> original.Some?)
                 && (original.Some? ==> IsLeft(s, original.value, data.lines))
    ensures Created(s, kind, requestId, data, original, user).result.Success?
            <==> Created(s, kind, requestId, data, original, user).store != s || !IsUnused(s, requestId)
  {
    hide WellFormed, Replayed, Settled, Inserted, NewOperation, Quantities, HasCards, ReversalFault, IsLeft;
    var c := Created(s, kind, requestId, data, original, user);
    CardsIff(s, data.lines);
    FormedIsUnique(s);
    if original.Some? {
      FaultlessIff(s, original.value, data.lines);
    }
    if c.result == Success(s.nextId) && FindRequest(s, requestId).None? {
      EnteringChanges(s, NewOperation(kind, requestId, data, original, user), Quantities(data.lines), original);
    }
  }

  /** Which fault of a payload is reported; misattributed says that its source does not go with its sender. */
  predicate NamesFault(e: Error, kind: OperationType, data: OperationData, misattributed: bool) {
    var noReason := kind.Outbound? && data.reason == "";
    var wrongWay := if kind.Outbound? then data.source.Initialization? else data.source.MiniProgram?;
    && (e == InvalidSourceType <==> misattributed || (!noReason && wrongWay))
    && (e == BusinessReasonRequired <==> !misattributed && noReason)
    && (e == InvalidReceiver <==> !misattributed && !wrongWay && kind.Inbound? && Given(data.receiverName))
    && (e == InvalidReceiverUnit <==> !misattributed && !wrongWay && kind.Inbound?
                                      && !Given(data.receiverName) && Given(data.receiverUnit))
    && (e == ReceiverRequired <==> !misattributed && !noReason && !wrongWay && kind.Outbound?
                                   && !data.source.Reversal? && !Given(data.receiverName))
  }

  /** Why a creation fails: first the payload, then a missing balance, then the first fault of a reversal. */
  lemma CreationFailsBecause(s: Store, kind: OperationType, requestId: string, data: OperationData,
                             original: Option<OperationId>, user: Option<string>)
    requires WellFormed(s) && ValidWrites(data.lines)
    requires Created(s, kind, requestId, data, original, user).result.Failure?
    ensures var e := Created(s, kind, requestId, data, original, user).result.error;
            var misattributed := (data.source.MiniProgram? != user.Some?)
                                 || (data.source.Reversal? && original.None?);
            if misattributed || !FitsTogether(kind, data) then NamesFault(e, kind, data, misattributed)
            else if !HasCards(s, data.lines) then e == BalanceMissing
            else original.Some? && Some(e) == ReversalFault(s, original.value, data.lines)
  {
    CardsIff(s, data.lines);
    hide WellFormed, Replayed, Settled, Inserted, NewOperation, Quantities, HasCards, ReversalFault;
  }

  /** Why an edit at the stored version fails. */
  lemma EditFailsBecause(s: Store, id: OperationId, version: nat, kind: OperationType, data: OperationData)
    requires WellFormed(s) && id in s.operations && ValidWrites(data.lines)
    requires Edited(s, id, version, kind, data).result.Failure? && version == s.operations[id].version
    ensures var e := Edited(s, id, version, kind, data).result.error;
            var misattributed := data.source.MiniProgram? != s.operations[id].userName.Some?;
            if misattributed || !FitsTogether(kind, data) then NamesFault(e, kind, data, misattributed)
            else e == BalanceMissing
  {
    CardsIff(s, data.lines);
    OwnCards(s, id);
    hide WellFormed, Replayed, Rewritten, Quantities, HasCards, MaterialsOf;
  }

  lemma FormedIsUnique(s: Store)
    requires WellFormed(s)
    ensures UniqueRequests(s) && Linked(s)
  {
  }

  lemma EnteringChanges(s: Store, op: Operation, q: map<MaterialId, int>, original: Option<OperationId>)
    requires Linked(s)
    ensures Linked(Settled(Inserted(s, op, q), original, q))
    ensures Replayed(Settled(Inserted(s, op, q), original, q), q.Keys) != s
  {
    InsertedIsLinked(s, op, q, original);
    assert Replayed(Settled(Inserted(s, op, q), original, q), q.Keys).nextId == s.nextId + 1;
  }

  /** An edit succeeds exactly if its version is the stored one and its payload is in order. */
  lemma EditSucceedsIff(s: Store, id: OperationId, version: nat, kind: OperationType, data: OperationData)
    requires WellFormed(s) && id in s.operations && ValidWrites(data.lines)
    ensures Edited(s, id, version, kind, data).result.Success?
            <==> && version == s.operations[id].version
                 && FitsTogether(kind, data) && HasCards(s, data.lines)
                 && (data.source.MiniProgram? <==> s.operations[id].userName.Some?)
    ensures Edited(s, id, version, kind, data).result.Failure? ==> Edited(s, id, version, kind, data).store == s
    ensures version != s.operations[id].version ==>
              Edited(s, id, version, kind, data).result == Failure(VersionConflict(version, s.operations[id].version))
  {
    CardsIff(s, data.lines);
    OwnCards(s, id);
    hide WellFormed, Replayed, Rewritten, Quantities, HasCards, MaterialsOf;
  }

  lemma OwnCards(s: Store, id: OperationId)
    requires WellFormed(s)
    ensures MaterialsOf(s, id) <= s.balances.Keys
  {
    hide UniqueRequests;
  }

  // ---------------------------------------------------------------- what is stored

  /** What the payload of a creation or an edit says of the operation. */
  predicate Says(op: Operation, kind: OperationType, data: OperationData) {
    && op.kind == kind && op.occurredAt == data.occurredAt && op.reason == data.reason
    && op.receiverUnit == data.receiverUnit && op.receiverName == data.receiverName && op.subitem == data.subitem
    && (if data.source.MiniProgram? then op.source.Manual? else op.source == data.source)
  }

  /** Operation id has exactly the lines of the payload, with its quantities. */
  predicate HasLinesOf(s: Store, id: OperationId, writes: seq<LineWrite>) {
    && (forall i :: 0 <= i < |writes| ==>
          var k := LineKey(id, writes[i].material); k in s.lines && s.lines[k].quantity == writes[i].quantity)
    && (forall k :: k in s.lines && k.operation == id ==>
          exists i :: 0 <= i < |writes| && writes[i].material == k.material)
  }

  /** A line and its new state differ at most in the running totals. */
  predicate SameButTotals(a: Line, b: Line) {
    b == a.(before := b.before, after := b.after)
  }

  /** Operations, lines (but for their totals) and stock cards other than operation id's are as they were. */
  ghost predicate OthersStay(s: Store, u: Store, id: OperationId) {
    && u.operations.Keys == s.operations.Keys + {id} && u.balances.Keys == s.balances.Keys
    && (forall o :: o in s.operations && o != id ==> u.operations[o] == s.operations[o])
    && (forall k: LineKey :: k.operation != id ==> (k in u.lines <==> k in s.lines))
  }

  /** Nothing of the line is reversed, and it was never edited. */
  predicate IsNewLine(l: Line) {
    l.remaining == l.quantity && l.version == 1
  }

  /** The balances of the given materials have their next version; the others are as they were. */
  predicate BalancesTouched(s: Store, u: Store, ids: set<MaterialId>) {
    forall m :: m in s.balances ==>
      m in u.balances
      && if m in ids then u.balances[m].version == s.balances[m].version + 1 else u.balances[m] == s.balances[m]
  }

  /** How much of the line on m the payload takes. */
  function TakenBy(writes: seq<LineWrite>, m: MaterialId): int {
    if writes == [] then 0 else
      (if writes[0].material == m then writes[0].quantity else 0) + TakenBy(writes[1..], m)
  }

  lemma {:induction false} TakenByIsQuantity(writes: seq<LineWrite>, m: MaterialId)
    requires forall i, j :: 0 <= i < j < |writes| ==> writes[i].material != writes[j].material
    ensures TakenBy(writes, m) == if m in Quantities(writes) then Quantities(writes)[m] else 0
    decreases |writes|
  {
    QuantitiesMeaning(writes);
    if writes != [] {
      var rest := writes[1..];
      assert forall i :: 0 <= i < |rest| ==> rest[i] == writes[i + 1];
      TakenByIsQuantity(rest, m);
      QuantitiesMeaning(rest);
      hide Quantities;
      if m in Quantities(rest) {
        var i :| 0 <= i < |rest| && rest[i].material == m;
        assert writes[i + 1].material == m && m in Quantities(writes);
      } else if m in Quantities(writes) {
        var i :| 0 <= i < |writes| && writes[i].material == m;
        assert forall j :: 0 < j < |writes| ==> writes[j] == rest[j - 1];
      }
    }
  }

  /** What is left of a line of the original after a reversal, and of any other line, is known from the payload. */
  ghost predicate DebitsOriginal(s: Store, u: Store, original: Option<OperationId>, writes: seq<LineWrite>) {
    forall k :: k in s.lines ==>
      && k in u.lines
      && var taken := if original == Some(k.operation) then TakenBy(writes, k.material) else 0;
         SameButTotals(s.lines[k].(remaining := s.lines[k].remaining - taken), u.lines[k])
  }

  /**
   A creation that changes the ledger stores, under the next id, what the payload says, with exactly its lines,
   nothing of them reversed; for a reversal it takes their quantities off what is left of the original; and it
   leaves everything else alone but for running totals and balances.
   */
  lemma CreationStores(s: Store, kind: OperationType, requestId: string, data: OperationData,
                       original: Option<OperationId>, user: Option<string>)
    requires WellFormed(s) && ValidWrites(data.lines)
    requires original.Some? ==> original.value in s.operations
    requires Created(s, kind, requestId, data, original, user).store != s
    ensures var c := Created(s, kind, requestId, data, original, user);
            && c.result == Success(s.nextId) && c.store.nextId == s.nextId + 1 && s.nextId !in s.operations
            && OthersStay(s, c.store, s.nextId)
            && var op := c.store.operations[s.nextId];
               && Says(op, kind, data) && op.requestId == requestId && op.reversalOf == original
               && op.userName == user && op.version == 1
    ensures var u := Created(s, kind, requestId, data, original, user).store;
            && HasLinesOf(u, s.nextId, data.lines) && DebitsOriginal(s, u, original, data.lines)
            && BalancesTouched(s, u, Quantities(data.lines).Keys)
            && forall k :: k in u.lines && k.operation == s.nextId ==> IsNewLine(u.lines[k])
  {
    NextIsNew(s);
    var g, op := CreatedGrows(s, kind, requestId, data, original, user);
    CreatedResult(s, kind, requestId, data, original, user);
    hide Created, WellFormed, Quantities;
    var q := Quantities(data.lines);
    GrownRows(s, g, op, q, data.lines);
    ReplayedRows(g, q.Keys);
    hide Replayed, Grows, BalancesTouched;
    SameBalancesTouched(s, g, Replayed(g, q.Keys), q.Keys);
    ReplayedStores(s, g, Replayed(g, q.Keys), original, data.lines);
  }

  lemma NextIsNew(s: Store)
    requires WellFormed(s)
    ensures s.nextId !in s.operations && forall k :: k in s.lines ==> k.operation != s.nextId
  {
    hide UniqueRequests;
  }

  lemma CreatedResult(s: Store, kind: OperationType, requestId: string, data: OperationData,
                      original: Option<OperationId>, user: Option<string>)
    requires WellFormed(s) && ValidWrites(data.lines)
    requires Created(s, kind, requestId, data, original, user).store != s
    ensures Created(s, kind, requestId, data, original, user).result == Success(s.nextId)
  {
  }

  /** Replay touches running totals and balances only. */
  lemma ReplayedRows(g: Store, ids: set<MaterialId>)
    requires Linked(g)
    ensures var u := Replayed(g, ids);
            && u.operations == g.operations && u.nextId == g.nextId && u.balances.Keys == g.balances.Keys
            && BalancesTouched(g, u, ids)
            && u.lines.Keys == g.lines.Keys && forall k :: k in g.lines ==> SameButTotals(g.lines[k], u.lines[k])
  {
    hide Stock, StockBefore;
  }

  lemma GrownRows(s: Store, g: Store, op: Operation, q: map<MaterialId, int>, writes: seq<LineWrite>)
    requires Grows(s, g, op, q) && ValidWrites(writes) && q == Quantities(writes)
    requires s.nextId !in s.operations && forall k :: k in s.lines ==> k.operation != s.nextId
    ensures OthersStay(s, g, s.nextId) && g.operations[s.nextId] == op && g.nextId == s.nextId + 1
    ensures g.balances == s.balances
    ensures HasLinesOf(g, s.nextId, writes) && DebitsOriginal(s, g, op.reversalOf, writes)
    ensures forall k :: k in g.lines && k.operation == s.nextId ==> IsNewLine(g.lines[k])
  {
    QuantitiesMeaning(writes);
    hide Quantities;
    forall k | k in g.lines && k.operation == s.nextId
      ensures IsNewLine(g.lines[k])
      ensures exists i :: 0 <= i < |writes| && writes[i].material == k.material
    {
      assert k == LineKey(s.nextId, k.material);
    }
    forall k | k in s.lines
      ensures var taken := if op.reversalOf == Some(k.operation) then TakenBy(writes, k.material) else 0;
              SameButTotals(s.lines[k].(remaining := s.lines[k].remaining - taken), g.lines[k])
    {
      TakenByIsQuantity(writes, k.material);
    }
    forall i | 0 <= i < |writes|
      ensures var k := LineKey(s.nextId, writes[i].material); k in g.lines && g.lines[k].quantity == writes[i].quantity
    {
      assert LineKey(s.nextId, writes[i].material).operation == s.nextId && writes[i].material in q;
    }
  }

  lemma SameBalancesTouched(s: Store, g: Store, u: Store, ids: set<MaterialId>)
    requires g.balances == s.balances && BalancesTouched(g, u, ids)
    ensures BalancesTouched(s, u, ids)
  {
  }

  lemma ReplayedStores(s: Store, g: Store, u: Store, original: Option<OperationId>, writes: seq<LineWrite>)
    requires OthersStay(s, g, s.nextId) && HasLinesOf(g, s.nextId, writes) && DebitsOriginal(s, g, original, writes)
    requires forall k :: k in g.lines && k.operation == s.nextId ==> IsNewLine(g.lines[k])
    requires u.operations == g.operations && u.balances.Keys == g.balances.Keys && u.lines.Keys == g.lines.Keys
    requires forall k :: k in g.lines ==> SameButTotals(g.lines[k], u.lines[k])
    ensures OthersStay(s, u, s.nextId) && HasLinesOf(u, s.nextId, writes) && DebitsOriginal(s, u, original, writes)
    ensures forall k :: k in u.lines && k.operation == s.nextId ==> IsNewLine(u.lines[k])
  {
    hide TakenBy;
    assert forall k :: k in u.lines <==> k in g.lines;
  }

  /**
   A reversal that changes the ledger is stored in the opposite direction, with the given reason and the
   original's subitem, now or just after the original; and its quantities are taken off the original's lines.
   */
  lemma ReversalStores(s: Store, r: Request)
    requires WellFormed(s) && ValidRequest(r) && r.Reverse? && Apply(s, r).store != s
    ensures r.original in s.operations && Apply(s, r).result == Success(s.nextId)
    ensures var u, first := Apply(s, r).store, s.operations[r.original];
            && OthersStay(s, u, s.nextId)
            && var op := u.operations[s.nextId];
               && op.kind != first.kind && op.source.Reversal? && op.reversalOf == Some(r.original)
               && op.occurredAt == (if r.now - first.occurredAt > 1 then r.now else first.occurredAt + 1)
               && op.reason == r.reason && op.subitem == first.subitem && op.requestId == r.requestId
               && op.receiverUnit.None? && op.receiverName.None? && op.userName.None?
    ensures var u := Apply(s, r).store;
            && HasLinesOf(u, s.nextId, r.lines) && DebitsOriginal(s, u, Some(r.original), r.lines)
  {
    var first := s.operations[r.original];
    CreationStores(s, OppositeKind(first.kind), r.requestId, ReversalData(first, r.reason, r.lines, r.now),
                   Some(r.original), None);
    hide Created, WellFormed, HasLinesOf, DebitsOriginal;
  }

  /** A successful reversal of what is left: exactly when the request id is new and every line has that much left. */
  lemma ReversalSucceedsIff(s: Store, r: Request)
    requires WellFormed(s) && ValidRequest(r) && r.Reverse?
    ensures Apply(s, r).store != s
            <==> r.original in s.operations && IsUnused(s, r.requestId) && IsLeft(s, r.original, r.lines)
  {
    if r.original in s.operations {
      var first := s.operations[r.original];
      CreationSucceedsIff(s, OppositeKind(first.kind), r.requestId, ReversalData(first, r.reason, r.lines, r.now),
                          Some(r.original), None);
      if IsLeft(s, r.original, r.lines) {
        LeftHasCards(s, r.original, r.lines);
      }
      hide Created, WellFormed, IsLeft, HasCards;
    }
  }

  lemma LeftHasCards(s: Store, original: OperationId, writes: seq<LineWrite>)
    requires WellFormed(s) && IsLeft(s, original, writes)
    ensures HasCards(s, writes)
  {
    hide UniqueRequests;
    forall i | 0 <= i < |writes| ensures writes[i].material in s.balances {
      assert LineKey(original, writes[i].material) in s.lines;
    }
  }

  /** The line after an edit: it keeps at most what was left of it, under the next version; a new one is all left. */
  predicate IsEditedLine(s: Store, u: Store, k: LineKey)
    requires k in u.lines
  {
    var l := u.lines[k];
    if k in s.lines then
      l.version == s.lines[k].version + 1
      && (if s.lines[k].remaining < l.quantity then l.remaining == s.lines[k].remaining else l.remaining == l.quantity)
    else IsNewLine(l)
  }

  /**
   A successful edit stores what the payload says, under the next version, with exactly the payload's lines; it
   keeps the client request id, the original and the mini-program user, and leaves everything else alone but for
   running totals and balances.
   */
  lemma EditStores(s: Store, id: OperationId, version: nat, kind: OperationType, data: OperationData)
    requires WellFormed(s) && id in s.operations && ValidWrites(data.lines)
    requires Edited(s, id, version, kind, data).result.Success?
    ensures var u := Edited(s, id, version, kind, data).store;
            && OthersStay(s, u, id) && u.nextId == s.nextId
            && var op := u.operations[id];
               && Says(op, kind, data) && op.version == version + 1
               && op.requestId == s.operations[id].requestId && op.reversalOf == s.operations[id].reversalOf
               && op.userName == s.operations[id].userName
    ensures BalancesTouched(s, Edited(s, id, version, kind, data).store,
                            MaterialsOf(s, id) + Quantities(data.lines).Keys)
    ensures var u := Edited(s, id, version, kind, data).store;
            && HasLinesOf(u, id, data.lines)
            && (forall k :: k in u.lines && k.operation == id ==> IsEditedLine(s, u, k))
            && forall k :: k in s.lines && k.operation != id ==> k in u.lines && SameButTotals(s.lines[k], u.lines[k])
  {
    hide WellFormed, Edited, Rewritten, Quantities;
    EditedIsReplayed(s, id, version, kind, data);
    RewrittenRewrites(s, id, kind, data);
    var w, q := Rewritten(s, id, kind, data), Quantities(data.lines);
    var ids := MaterialsOf(s, id) + q.Keys;
    ReplayedRows(w, ids);
    hide Replayed, MaterialsOf;
    RewrittenRows(s, w, id, EditedHeader(s.operations[id], kind, data), data.lines);
    hide Rewrites, BalancesTouched;
    SameBalancesTouched(s, w, Replayed(w, ids), ids);
    ReplayedEdit(s, w, Replayed(w, ids), id, data.lines);
  }

  lemma RewrittenRows(s: Store, w: Store, id: OperationId, op: Operation, writes: seq<LineWrite>)
    requires Rewrites(s, w, id, op, Quantities(writes)) && ValidWrites(writes) && id in s.operations
    ensures OthersStay(s, w, id) && w.operations[id] == op && HasLinesOf(w, id, writes)
    ensures forall k :: k in w.lines && k.operation == id ==> IsEditedLine(s, w, k)
    ensures forall k :: k in s.lines && k.operation != id ==> k in w.lines && w.lines[k] == s.lines[k]
  {
    QuantitiesMeaning(writes);
    hide Quantities;
    forall i | 0 <= i < |writes|
      ensures var k := LineKey(id, writes[i].material); k in w.lines && w.lines[k].quantity == writes[i].quantity
    {
      assert LineKey(id, writes[i].material).operation == id && writes[i].material in Quantities(writes);
    }
  }

  lemma ReplayedEdit(s: Store, w: Store, u: Store, id: OperationId, writes: seq<LineWrite>)
    requires OthersStay(s, w, id) && HasLinesOf(w, id, writes) && id in w.operations
    requires forall k :: k in w.lines && k.operation == id ==> IsEditedLine(s, w, k)
    requires forall k :: k in s.lines && k.operation != id ==> k in w.lines && w.lines[k] == s.lines[k]
    requires u.operations == w.operations && u.balances.Keys == w.balances.Keys && u.lines.Keys == w.lines.Keys
    requires forall k :: k in w.lines ==> SameButTotals(w.lines[k], u.lines[k])
    ensures OthersStay(s, u, id) && HasLinesOf(u, id, writes)
    ensures forall k :: k in u.lines && k.operation == id ==> IsEditedLine(s, u, k)
    ensures forall k :: k in s.lines && k.operation != id ==> k in u.lines && SameButTotals(s.lines[k], u.lines[k])
  {
    assert forall k :: k in u.lines <==> k in w.lines;
  }

  // ---------------------------------------------------------------- stock cards

  /** A card is added exactly if it is not there, with nothing on it, and dropped exactly if nothing is booked on it. */
  lemma CardsComeAndGo(s: Store, m: MaterialId)
    requires WellFormed(s)
    ensures var a := Apply(s, AddMaterial(m));
            && (a.result.Success? <==> m !in s.balances)
            && (a.result.Success? ==>
                  && m in a.store.balances && a.store.balances[m] == Balance(0, 1)
                  && a.store == s.(balances := s.balances[m := a.store.balances[m]]))
            && (a.result.Failure? ==> a == Outcome(s, Failure(DuplicateMaterial)))
    ensures var a := Apply(s, DropMaterial(m));
            && (a.result.Success? <==> m in s.balances && forall k :: k in s.lines ==> k.material != m)
            && (a.result.Success? ==> a.store == s.(balances := s.balances - {m}))
            && (a.result.Failure? ==> a == Outcome(s, Failure(if m in s.balances then MaterialInUse else NotFound)))
  {
  }
}
