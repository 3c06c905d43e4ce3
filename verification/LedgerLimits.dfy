/**
 Over-reversal.  A line may be reversed as far as its quantity goes: what is left of it and what was
 reversed of it stay within its quantity.  Creations and reversals keep this; an edit keeps it under a
 condition weaker than the one that keeps the two adding up, stated here exactly, for one edit and for runs.
 */
module LedgerLimits {
  import opened Options
  import opened Sums
  import opened Ledger
  import opened LedgerRuns
  import opened LedgerForest
  import opened LedgerEdits

  /** What is left of the line and what was reversed of it stay within its quantity. */
  ghost predicate WithinLine(s: Store, k: LineKey)
    requires Linked(s) && k in s.lines
  {
    s.lines[k].remaining + Sum(Reversals(s, k.operation, k.material)) <= s.lines[k].quantity
  }

  ghost predicate AllWithin(s: Store)
    requires Linked(s)
  {
    forall k :: k in s.lines ==> WithinLine(s, k)
  }

  /** No line is over-reversed, and reversals have lines on materials of their originals only. */
  ghost predicate Limited(s: Store) {
    WellFormed(s) && AllWithin(s) && LinesOnOriginals(s)
  }

  lemma FaithfulIsLimited(s: Store)
    requires Faithful(s)
    ensures Limited(s)
  {
    OpposedParts(s);
    hide Opposed, LinesOnOriginals, KindsOpposed, UniqueRequests;
    forall k | k in s.lines ensures WithinLine(s, k) {
      assert Accounted(s, k);
    }
  }

  /** What is left of a limited line can be reversed, but never more of it than its quantity. */
  lemma LimitedIsNotOverReversed(s: Store, o: OperationId, m: MaterialId)
    requires Limited(s) && LineKey(o, m) in s.lines
    ensures 0 <= Sum(Reversals(s, o, m)) <= s.lines[LineKey(o, m)].quantity
  {
    ReversedIsNonnegative(s, o, m);
    assert WithinLine(s, LineKey(o, m)) && 0 <= s.lines[LineKey(o, m)].remaining;
  }

  lemma ReversedIsNonnegative(s: Store, o: OperationId, m: MaterialId)
    requires WellFormed(s)
    ensures 0 <= Sum(Reversals(s, o, m))
  {
    forall c | c in Reversals(s, o, m) ensures 0 <= Reversals(s, o, m)[c] {
      assert 0 < s.lines[LineKey(c, m)].quantity;
    }
    SumNonnegative(Reversals(s, o, m));
  }

  // ---------------------------------------------------------------- one edit

  function NewShare(q: map<MaterialId, int>, m: MaterialId): int {
    if m in q then q[m] else 0
  }

  /**
   The edit leaves room for what was reversed: a kept line has nothing reversed or still holds what is left
   of it and what was reversed, and a reversal grows by no more than its original's line has room for.
   */
  ghost predicate LeavesRoom(s: Store, id: OperationId, q: map<MaterialId, int>)
    requires Linked(s) && id in s.operations
  {
    && (forall m :: m in q && LineKey(id, m) in s.lines ==>
          || Sum(Reversals(s, id, m)) == 0
          || s.lines[LineKey(id, m)].remaining + Sum(Reversals(s, id, m)) <= q[m])
    && (s.operations[id].reversalOf.Some? ==>
          forall k :: k in s.lines && k.operation == s.operations[id].reversalOf.value ==>
            s.lines[k].remaining + Sum(Reversals(s, k.operation, k.material))
            + NewShare(q, k.material) - Share(s, id, k.material) <= s.lines[k].quantity)
  }

  lemma RewrittenLineWithin(s: Store, w: Store, id: OperationId, op: Operation, q: map<MaterialId, int>, k: LineKey)
    requires Limited(s) && WellFormed(w) && id in s.operations && Rewrites(s, w, id, op, q)
    requires op.reversalOf == s.operations[id].reversalOf
    requires k in w.lines
    ensures WithinLine(w, k) <==>
            if k.operation == id then
              k in s.lines ==> Sum(Reversals(s, id, k.material)) == 0
                               || s.lines[k].remaining + Sum(Reversals(s, id, k.material)) <= q[k.material]
            else
              s.operations[id].reversalOf == Some(k.operation) ==>
                s.lines[k].remaining + Sum(Reversals(s, k.operation, k.material))
                + NewShare(q, k.material) - Share(s, id, k.material) <= s.lines[k].quantity
  {
    hide LinesOnOriginals, Share, UniqueRequests, Reversals, Sum;
    ReversedRewrites(s, w, id, op, q, k.operation, k.material);
    if k in s.lines {
      ReversedIsNonnegative(s, k.operation, k.material);
      assert WithinLine(s, k);
    } else {
      NoReversalsWithoutLine(s, k);
    }
  }

  lemma RewritingStaysWithinIff(s: Store, w: Store, id: OperationId, op: Operation, q: map<MaterialId, int>)
    requires Limited(s) && WellFormed(w) && id in s.operations && Rewrites(s, w, id, op, q)
    requires op.reversalOf == s.operations[id].reversalOf
    ensures AllWithin(w) <==> LeavesRoom(s, id, q)
  {
    hide WithinLine, Share, LinesOnOriginals, UniqueRequests;
    if LeavesRoom(s, id, q) {
      forall k | k in w.lines ensures WithinLine(w, k) {
        RewrittenLineWithin(s, w, id, op, q, k);
        assert k == LineKey(k.operation, k.material);
      }
    }
    if AllWithin(w) {
      forall m | m in q && LineKey(id, m) in s.lines
        ensures Sum(Reversals(s, id, m)) == 0
                || s.lines[LineKey(id, m)].remaining + Sum(Reversals(s, id, m)) <= q[m]
      {
        assert WithinLine(w, LineKey(id, m));
        RewrittenLineWithin(s, w, id, op, q, LineKey(id, m));
      }
      forall k | k in s.lines && s.operations[id].reversalOf == Some(k.operation)
        ensures s.lines[k].remaining + Sum(Reversals(s, k.operation, k.material))
                + NewShare(q, k.material) - Share(s, id, k.material) <= s.lines[k].quantity
      {
        assert WithinLine(w, k);
        RewrittenLineWithin(s, w, id, op, q, k);
      }
    }
  }

  lemma ReplayStaysLimited(s: Store, ids: set<MaterialId>)
    requires WellFormed(s)
    ensures WellFormed(Replayed(s, ids))
    ensures AllWithin(s) <==> AllWithin(Replayed(s, ids))
    ensures LinesOnOriginals(s) <==> LinesOnOriginals(Replayed(s, ids))
  {
    ReplayKeepsWellFormed(s, ids);
    ReplayKeepsLinesOn(s, ids);
    hide WellFormed, LinesOnOriginals;
    forall k | k in s.lines ensures WithinLine(s, k) <==> WithinLine(Replayed(s, ids), k) {
      ReplayKeepsReversals(s, ids, k.operation, k.material);
    }
  }

  lemma ReplayKeepsLinesOn(s: Store, ids: set<MaterialId>)
    requires Linked(s)
    ensures Linked(Replayed(s, ids)) && (LinesOnOriginals(s) <==> LinesOnOriginals(Replayed(s, ids)))
  {
    hide Restamped, Stock;
  }

  /** From a ledger without over-reversed lines, a successful edit leaves one if and only if it leaves room. */
  lemma EditStaysWithinIff(s: Store, id: OperationId, version: nat, kind: OperationType, data: OperationData)
    requires Limited(s) && id in s.operations && ValidWrites(data.lines)
    requires Edited(s, id, version, kind, data).result.Success?
    ensures WellFormed(Edited(s, id, version, kind, data).store)
    ensures AllWithin(Edited(s, id, version, kind, data).store) <==> LeavesRoom(s, id, Quantities(data.lines))
  {
    EditedIsRewritten(s, id, version, kind, data);
    var w := Rewritten(s, id, kind, data);
    var op := EditedHeader(s.operations[id], kind, data);
    hide WellFormed, AllWithin, LinesOnOriginals, LeavesRoom, Edited, Rewritten, Replayed, Rewrites;
    ReplayStaysLimited(w, MaterialsOf(s, id) + Quantities(data.lines).Keys);
    RewritingStaysWithinIff(s, w, id, op, Quantities(data.lines));
  }

  /**
   The same in what the rows show, for a ledger whose reversals add up: a kept line some of which was reversed
   is not lowered, and a reversal grows on no material of its original.
   */
  predicate LowersNoReversedLine(s: Store, id: OperationId, q: map<MaterialId, int>)
    requires id in s.operations
  {
    && (forall m :: m in q && LineKey(id, m) in s.lines ==>
          q[m] >= s.lines[LineKey(id, m)].quantity
          || s.lines[LineKey(id, m)].remaining == s.lines[LineKey(id, m)].quantity)
    && (s.operations[id].reversalOf.Some? ==>
          forall k :: k in s.lines && k.operation == s.operations[id].reversalOf.value ==>
            NewShare(q, k.material) <= Share(s, id, k.material))
  }

  lemma FaithfulRoom(s: Store, id: OperationId, q: map<MaterialId, int>)
    requires Faithful(s) && id in s.operations
    ensures LeavesRoom(s, id, q) <==> LowersNoReversedLine(s, id, q)
  {
    hide Opposed, UniqueRequests, Reversals, Sum, Share;
    forall k | k in s.lines
      ensures Sum(Reversals(s, k.operation, k.material)) == s.lines[k].quantity - s.lines[k].remaining
    {
      assert Accounted(s, k);
    }
  }

  lemma EditOfFaithfulStaysWithinIff(s: Store, id: OperationId, version: nat, kind: OperationType,
                                     data: OperationData)
    requires Faithful(s) && id in s.operations && ValidWrites(data.lines)
    requires Edited(s, id, version, kind, data).result.Success?
    ensures WellFormed(Edited(s, id, version, kind, data).store)
    ensures AllWithin(Edited(s, id, version, kind, data).store)
            <==> LowersNoReversedLine(s, id, Quantities(data.lines))
  {
    hide Limited, AllWithin, LeavesRoom, LowersNoReversedLine, Edited;
    FaithfulIsLimited(s);
    EditStaysWithinIff(s, id, version, kind, data);
    FaithfulRoom(s, id, Quantities(data.lines));
  }

  /**
   A line that was dropped with reversals on it and is added again is over-reversed: it starts out with its whole
   quantity left.  This is why runs need reversed lines to stay.
   */
  lemma AddingBackOverReverses(s: Store, id: OperationId, version: nat, kind: OperationType, data: OperationData,
                               m: MaterialId)
    requires WellFormed(s) && id in s.operations && ValidWrites(data.lines)
    requires Edited(s, id, version, kind, data).result.Success?
    requires m in Quantities(data.lines) && LineKey(id, m) !in s.lines && Sum(Reversals(s, id, m)) > 0
    ensures var e := Edited(s, id, version, kind, data).store;
            WellFormed(e) && LineKey(id, m) in e.lines && !WithinLine(e, LineKey(id, m))
  {
    var q := Quantities(data.lines);
    var w := Rewritten(s, id, kind, data);
    var op := EditedHeader(s.operations[id], kind, data);
    EditedIsRewritten(s, id, version, kind, data);
    ReversedRewrites(s, w, id, op, q, id, m);
    hide Edited, Rewritten, Replayed, Reversals, Sum, UniqueRequests;
    ReplayKeepsWellFormed(w, MaterialsOf(s, id) + q.Keys);
    ReplayKeepsFigures(w, MaterialsOf(s, id) + q.Keys, id, m);
    ReplayKeepsReversals(w, MaterialsOf(s, id) + q.Keys, id, m);
  }

  // ---------------------------------------------------------------- requests other than edits

  lemma GrowthIsWithin(s: Store, g: Store, op: Operation, q: map<MaterialId, int>, k: LineKey)
    requires Linked(s) && Linked(g) && AllWithin(s) && Grows(s, g, op, q) && k in g.lines
    requires s.nextId !in s.operations
    requires forall o :: o in g.operations && g.operations[o].reversalOf.Some? ==>
               g.operations[o].reversalOf.value in s.operations
    ensures WithinLine(g, k)
  {
    if k in s.lines {
      assert WithinLine(s, k);
      ReversedGrows(s, g, op, q, k.operation, k.material);
    } else {
      assert Reversals(g, s.nextId, k.material) == map[];
      assert k == LineKey(s.nextId, k.material);
    }
  }

  lemma GrowthStaysOnOriginals(s: Store, g: Store, op: Operation, q: map<MaterialId, int>)
    requires WellFormed(s) && WellFormed(g) && LinesOnOriginals(s) && Grows(s, g, op, q)
    requires op.reversalOf.Some? ==>
               op.reversalOf.value in s.operations && forall m :: m in q ==> LineKey(op.reversalOf.value, m) in s.lines
    ensures LinesOnOriginals(g)
  {
    hide UniqueRequests;
  }

  lemma CreatedStaysLimited(s: Store, kind: OperationType, requestId: string, data: OperationData,
                            original: Option<OperationId>, user: Option<string>)
    requires Limited(s) && ValidWrites(data.lines)
    requires original.Some? ==> original.value in s.operations
    ensures Limited(Created(s, kind, requestId, data, original, user).store)
  {
    if Created(s, kind, requestId, data, original, user).store != s {
      var q := Quantities(data.lines);
      var g, op := CreatedGrows(s, kind, requestId, data, original, user);
      QuantitiesPositive(data.lines);
      if original.Some? {
        ReversalFits(s, original.value, data.lines);
      }
      GrownIsWellFormed(s, g, op, q);
      hide WithinLine, LinesOnOriginals;
      forall k | k in g.lines ensures WithinLine(g, k) {
        GrowthIsWithin(s, g, op, q, k);
      }
      GrowthStaysOnOriginals(s, g, op, q);
      ReplayStaysLimited(g, q.Keys);
    }
  }

  lemma ApplyStaysLimited(s: Store, r: Request)
    requires Limited(s) && ValidRequest(r) && !r.Edit?
    ensures Limited(Apply(s, r).store)
  {
    match r
    case Create(kind, requestId, data, user) =>
      CreatedStaysLimited(s, kind, requestId, data, None, user);
    case Reverse(original, requestId, reason, lines, now) =>
      if original in s.operations {
        var op := s.operations[original];
        CreatedStaysLimited(s, OppositeKind(op.kind), requestId, ReversalData(op, reason, lines, now), Some(original),
                            None);
      }
    case AddMaterial(m) => SameRowsStayLimited(s, MaterialAdded(s, m).store);
    case DropMaterial(m) => SameRowsStayLimited(s, MaterialDropped(s, m).store);
  }

  lemma SameRowsStayOnOriginals(s: Store, u: Store)
    requires Linked(s) && Linked(u) && LinesOnOriginals(s) && u.operations == s.operations && u.lines == s.lines
    ensures LinesOnOriginals(u)
  {
  }

  lemma SameRowsStayLimited(s: Store, u: Store)
    requires Limited(s) && u.operations == s.operations && u.lines == s.lines && u.nextId == s.nextId
    requires forall k :: k in u.lines ==> k.material in u.balances
    ensures Limited(u)
  {
    SameRowsStayWellFormed(s, u);
    SameRowsStayOnOriginals(s, u);
    hide UniqueRequests, LinesOnOriginals, Reversals, Sum;
    forall k | k in u.lines ensures WithinLine(u, k) {
      assert WithinLine(s, k);
      SameRowsSameReversals(s, u, k.operation, k.material);
    }
  }

  // ---------------------------------------------------------------- runs

  /** The edits that keep the ledger limited, as seen before the call. */
  ghost predicate IsRoomy(s: Store, id: OperationId, q: map<MaterialId, int>)
    requires Linked(s) && id in s.operations
  {
    LeavesRoom(s, id, q) && DropsNoReversedLine(s, id, q) && StaysOnOriginal(s, id, q)
  }

  lemma RewritingStaysLimitedIff(s: Store, w: Store, id: OperationId, op: Operation, q: map<MaterialId, int>)
    requires Limited(s) && WellFormed(w) && id in s.operations && Rewrites(s, w, id, op, q)
    requires op.reversalOf == s.operations[id].reversalOf
    ensures Limited(w) <==> IsRoomy(s, id, q)
  {
    RewritingStaysWithinIff(s, w, id, op, q);
    hide AllWithin, LeavesRoom, LinesOnOriginals, DropsNoReversedLine, StaysOnOriginal;
    if DropsNoReversedLine(s, id, q) && StaysOnOriginal(s, id, q) {
      RewritingKeepsLinesOn(s, w, id, op, q);
    }
    if LinesOnOriginals(w) {
      KeptLinesOnMeans(s, w, id, op, q);
    }
  }

  lemma EditStaysLimitedIff(s: Store, id: OperationId, version: nat, kind: OperationType, data: OperationData)
    requires Limited(s) && id in s.operations && ValidWrites(data.lines)
    requires Edited(s, id, version, kind, data).result.Success?
    ensures Limited(Edited(s, id, version, kind, data).store) <==> IsRoomy(s, id, Quantities(data.lines))
  {
    EditedIsRewritten(s, id, version, kind, data);
    var w := Rewritten(s, id, kind, data);
    var op := EditedHeader(s.operations[id], kind, data);
    hide WellFormed, AllWithin, LinesOnOriginals, IsRoomy, Edited, Rewritten, Replayed, Rewrites;
    ReplayStaysLimited(w, MaterialsOf(s, id) + Quantities(data.lines).Keys);
    RewritingStaysLimitedIff(s, w, id, op, Quantities(data.lines));
  }

  /** The request is no edit, or an edit that fails, or one that leaves room. */
  ghost predicate IsRoomyRequest(s: Store, r: Request)
    requires WellFormed(s) && ValidRequest(r)
  {
    r.Edit? && r.id in s.operations && Apply(s, r).result.Success? ==> IsRoomy(s, r.id, Quantities(r.data.lines))
  }

  /** A request leaves the ledger limited if and only if it leaves room. */
  lemma RequestStaysLimitedIff(s: Store, r: Request)
    requires Limited(s) && ValidRequest(r)
    ensures Limited(Apply(s, r).store) <==> IsRoomyRequest(s, r)
  {
    if !r.Edit? {
      ApplyStaysLimited(s, r);
    } else if r.id in s.operations && Apply(s, r).result.Success? {
      EditStaysLimitedIff(s, r.id, r.version, r.kind, r.data);
    }
    hide AllWithin, LinesOnOriginals, IsRoomy;
  }

  /** The ledger is limited before the run and after each of its requests. */
  ghost predicate StaysLimited(s: Store, rs: seq<Request>)
    requires Valid(s) && ValidRequests(rs)
    decreases |rs|
  {
    Limited(s) && (rs == [] || (ApplyKeepsValid(s, rs[0]); StaysLimited(Apply(s, rs[0]).store, rs[1..])))
  }

  /** Every edit of the run leaves room when it arrives. */
  ghost predicate IsRoomyRun(s: Store, rs: seq<Request>)
    requires Valid(s) && ValidRequests(rs)
    decreases |rs|
  {
    rs == []
    || (IsRoomyRequest(s, rs[0]) && (ApplyKeepsValid(s, rs[0]); IsRoomyRun(Apply(s, rs[0]).store, rs[1..])))
  }

  lemma {:induction false} RunStaysLimitedIff(s: Store, rs: seq<Request>)
    requires Valid(s) && Limited(s) && ValidRequests(rs)
    ensures StaysLimited(s, rs) <==> IsRoomyRun(s, rs)
    decreases |rs|
  {
    if rs != [] {
      ApplyKeepsValid(s, rs[0]);
      RequestStaysLimitedIff(s, rs[0]);
      hide Limited, Valid, Apply, IsRoomyRequest;
      var next := Apply(s, rs[0]).store;
      if StaysLimited(next, rs[1..]) {
        LimitedFirst(next, rs[1..]);
      }
      if Limited(next) {
        RunStaysLimitedIff(next, rs[1..]);
      }
    }
  }

  lemma LimitedFirst(s: Store, rs: seq<Request>)
    requires Valid(s) && ValidRequests(rs) && StaysLimited(s, rs)
    ensures Limited(s)
  {
  }

  lemma {:induction false} StaysLimitedToTheEnd(s: Store, rs: seq<Request>)
    requires Valid(s) && ValidRequests(rs) && StaysLimited(s, rs)
    ensures Limited(Run(s, rs))
    decreases |rs|
  {
    hide Limited, Valid, Apply;
    if rs == [] {
      LimitedFirst(s, rs);
    } else {
      ValidIsWellFormed(s);
      ApplyKeepsValid(s, rs[0]);
      StaysLimitedToTheEnd(Apply(s, rs[0]).store, rs[1..]);
    }
  }

  /**
   On a run from an empty ledger no line is over-reversed and no reversal is off its original's materials at any
   time if and only if every edit, when it arrives, leaves room, drops no reversed line and keeps a reversal on the
   materials of its original.
   */
  lemma EveryRunStaysLimitedIff(s: Store, rs: seq<Request>)
    requires Empty(s) && Valid(s) && ValidRequests(rs)
    ensures StaysLimited(s, rs) <==> IsRoomyRun(s, rs)
    ensures IsRoomyRun(s, rs) ==> Limited(Run(s, rs))
  {
    hide StaysLimited, IsRoomyRun, Valid, Run, Limited, Faithful;
    EmptyIsFaithful(s);
    FaithfulIsLimited(s);
    RunStaysLimitedIff(s, rs);
    if StaysLimited(s, rs) {
      StaysLimitedToTheEnd(s, rs);
    }
  }
}
