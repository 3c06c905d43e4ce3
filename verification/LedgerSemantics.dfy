/**
 What the checks on requests buy: rules that every stored operation obeys after every run.  One rule, that
 exactly the reversals are labelled as reversals, holds only until an edit relabels an operation.
 */
module LedgerSemantics {
  import opened Options
  import opened Ledger
  import opened LedgerRuns
  import LedgerForest

  /** Direction, source, reason, receiver and mini-program user of an operation fit together. */
  predicate MakesSense(op: Operation) {
    && (op.kind.Inbound? ==> !Given(op.receiverName) && !Given(op.receiverUnit))
    && (op.kind.Outbound? ==> op.reason != "" && (op.source.Reversal? || Given(op.receiverName)))
    && (op.source.Initialization? ==> op.kind.Inbound?)
    && !op.source.MiniProgram?
    && (op.userName.Some? ==> op.kind.Outbound? && op.source.Manual?)
  }

  ghost predicate AllMakeSense(s: Store) {
    forall o :: o in s.operations ==> MakesSense(s.operations[o])
  }

  lemma CreatedAdds(s: Store, kind: OperationType, requestId: string, data: OperationData,
                    original: Option<OperationId>, user: Option<string>)
    requires WellFormed(s) && ValidWrites(data.lines)
    requires original.Some? ==> original.value in s.operations
    requires Created(s, kind, requestId, data, original, user).store != s
    ensures CreateError(kind, data, original, user).None?
    ensures Created(s, kind, requestId, data, original, user).store.operations
            == s.operations[s.nextId := NewOperation(kind, requestId, data, original, user)]
  {
    var g, op := CreatedGrows(s, kind, requestId, data, original, user);
  }

  lemma EditedReplaces(s: Store, id: OperationId, version: nat, kind: OperationType, data: OperationData)
    requires WellFormed(s) && id in s.operations && Edited(s, id, version, kind, data).store != s
    ensures EditError(s.operations[id], version, kind, data).None?
    ensures Edited(s, id, version, kind, data).store.operations
            == s.operations[id := EditedHeader(s.operations[id], kind, data)]
  {
  }

  lemma CreatedKeepsSense(s: Store, kind: OperationType, requestId: string, data: OperationData,
                          original: Option<OperationId>, user: Option<string>)
    requires WellFormed(s) && ValidWrites(data.lines) && AllMakeSense(s)
    requires original.Some? ==> original.value in s.operations
    ensures AllMakeSense(Created(s, kind, requestId, data, original, user).store)
  {
    hide Created, WellFormed;
    if Created(s, kind, requestId, data, original, user).store != s {
      CreatedAdds(s, kind, requestId, data, original, user);
    }
  }

  lemma EditedKeepsSense(s: Store, id: OperationId, version: nat, kind: OperationType, data: OperationData)
    requires WellFormed(s) && id in s.operations && AllMakeSense(s)
    ensures AllMakeSense(Edited(s, id, version, kind, data).store)
  {
    hide Edited, WellFormed;
    if Edited(s, id, version, kind, data).store != s {
      EditedReplaces(s, id, version, kind, data);
      assert MakesSense(s.operations[id]);
    }
  }

  lemma SameOperationsMakeSense(s: Store, u: Store)
    requires AllMakeSense(s) && u.operations == s.operations
    ensures AllMakeSense(u)
  {
  }

  lemma ApplyKeepsSense(s: Store, r: Request)
    requires WellFormed(s) && ValidRequest(r) && AllMakeSense(s)
    ensures AllMakeSense(Apply(s, r).store)
  {
    hide AllMakeSense, Created, Edited;
    match r
    case Create(kind, requestId, data, user) =>
      CreatedKeepsSense(s, kind, requestId, data, None, user);
    case Reverse(original, requestId, reason, lines, now) =>
      if original in s.operations {
        var op := s.operations[original];
        CreatedKeepsSense(s, OppositeKind(op.kind), requestId, ReversalData(op, reason, lines, now), Some(original),
                          None);
      }
    case Edit(id, version, kind, data) =>
      if id in s.operations {
        EditedKeepsSense(s, id, version, kind, data);
      }
    case _ => SameOperationsMakeSense(s, Apply(s, r).store);
  }

  /** After every run of requests, edits included, every stored operation makes sense. */
  lemma {:induction false} EveryRunMakesSense(s: Store, rs: seq<Request>)
    requires Valid(s) && ValidRequests(rs) && AllMakeSense(s)
    ensures AllMakeSense(Run(s, rs))
    decreases |rs|
  {
    if rs != [] {
      ApplyKeepsValid(s, rs[0]);
      ApplyKeepsSense(s, rs[0]);
      hide AllMakeSense, Valid, Apply;
      EveryRunMakesSense(Apply(s, rs[0]).store, rs[1..]);
    }
  }

  // ---------------------------------------------------------------- the reversal label

  predicate LabelFits(op: Operation) {
    op.source.Reversal? <==> op.reversalOf.Some?
  }

  ghost predicate AllLabelsFit(s: Store) {
    forall o :: o in s.operations ==> LabelFits(s.operations[o])
  }

  /** Only a reversal request creates an operation with an original, and it asks for the reversal label. */
  lemma CreatedKeepsLabels(s: Store, kind: OperationType, requestId: string, data: OperationData,
                           original: Option<OperationId>, user: Option<string>)
    requires WellFormed(s) && ValidWrites(data.lines) && AllLabelsFit(s)
    requires original.Some? ==> original.value in s.operations && data.source.Reversal?
    ensures AllLabelsFit(Created(s, kind, requestId, data, original, user).store)
  {
    hide Created, WellFormed;
    if Created(s, kind, requestId, data, original, user).store != s {
      CreatedAdds(s, kind, requestId, data, original, user);
    }
  }

  lemma SameLabels(s: Store, u: Store)
    requires AllLabelsFit(s) && u.operations == s.operations
    ensures AllLabelsFit(u)
  {
  }

  lemma ApplyKeepsLabels(s: Store, r: Request)
    requires WellFormed(s) && ValidRequest(r) && !r.Edit? && AllLabelsFit(s)
    ensures AllLabelsFit(Apply(s, r).store)
  {
    hide AllLabelsFit, Created;
    match r
    case Create(kind, requestId, data, user) =>
      CreatedKeepsLabels(s, kind, requestId, data, None, user);
    case Reverse(original, requestId, reason, lines, now) =>
      if original in s.operations {
        var op := s.operations[original];
        CreatedKeepsLabels(s, OppositeKind(op.kind), requestId, ReversalData(op, reason, lines, now), Some(original),
                           None);
      }
    case AddMaterial(m) => SameLabels(s, MaterialAdded(s, m).store);
    case DropMaterial(m) => SameLabels(s, MaterialDropped(s, m).store);
  }

  /** On runs without edits exactly the reversals carry the reversal label. */
  lemma {:induction false} RunsWithoutEditsLabelReversals(s: Store, rs: seq<Request>)
    requires Valid(s) && ValidRequests(rs) && LedgerForest.WithoutEdits(rs) && AllLabelsFit(s)
    ensures AllLabelsFit(Run(s, rs))
    decreases |rs|
  {
    if rs != [] {
      ApplyKeepsValid(s, rs[0]);
      ApplyKeepsLabels(s, rs[0]);
      hide AllLabelsFit, Valid, Apply;
      RunsWithoutEditsLabelReversals(Apply(s, rs[0]).store, rs[1..]);
    }
  }

  /**
   A successful edit keeps the labels fitting exactly if it asks for the reversal label on a reversal and on
   nothing else: unlike a creation, an edit is not checked for this.
   */
  lemma EditKeepsLabelsIff(s: Store, id: OperationId, version: nat, kind: OperationType, data: OperationData)
    requires WellFormed(s) && id in s.operations && AllLabelsFit(s)
    requires Edited(s, id, version, kind, data).result.Success?
    ensures AllLabelsFit(Edited(s, id, version, kind, data).store)
            <==> (data.source.Reversal? <==> s.operations[id].reversalOf.Some?)
  {
    EditedHasHeader(s, id, version, kind, data);
    hide Edited, WellFormed;
    var e := Edited(s, id, version, kind, data).store;
    if AllLabelsFit(e) {
      assert LabelFits(e.operations[id]);
    }
  }

  lemma EditedHasHeader(s: Store, id: OperationId, version: nat, kind: OperationType, data: OperationData)
    requires WellFormed(s) && id in s.operations && Edited(s, id, version, kind, data).result.Success?
    ensures Edited(s, id, version, kind, data).store.operations
            == s.operations[id := EditedHeader(s.operations[id], kind, data)]
  {
  }

  /** So an outbound operation can lose its receiver: an edit that labels it a reversal needs none. */
  lemma RelabellingDropsReceiver(s: Store, id: OperationId, data: OperationData)
    requires WellFormed(s) && id in s.operations && s.operations[id].userName.None?
    requires data.source.Reversal? && data.reason != ""
    requires MaterialsOf(s, id) + Quantities(data.lines).Keys <= s.balances.Keys
    ensures Edited(s, id, s.operations[id].version, Outbound, data).result.Success?
  {
  }
}
