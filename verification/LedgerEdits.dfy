/**
 Edits.  An edit does not know what was reversed of its lines, so some edits break the bookkeeping of
 reversals: exactly which is stated, and while all edits are safe ones the results about reversal trees
 hold on every run, edits included.
 */
module LedgerEdits {
  import opened Options
  import opened Sums
  import opened Ledger
  import opened LedgerRuns
  import opened LedgerRows
  import opened LedgerForest

  // ---------------------------------------------------------------- which edits are safe

  /** What operation o takes from the line of its original on m. */
  function Share(s: Store, o: OperationId, m: MaterialId): int {
    if LineKey(o, m) in s.lines then s.lines[LineKey(o, m)].quantity else 0
  }

  /**
   The edits that keep the bookkeeping, as seen before the call: a line that stays either keeps its
   quantity or has nothing reversed and does not grow; and an operation that is itself a reversal
   keeps its quantity on every material of its original.
   */
  predicate KeepsBooks(s: Store, id: OperationId, q: map<MaterialId, int>)
    requires id in s.operations
  {
    && (forall m :: m in q && LineKey(id, m) in s.lines ==>
          var l := s.lines[LineKey(id, m)];
          q[m] == l.quantity || (l.remaining == l.quantity && q[m] <= l.quantity))
    && (s.operations[id].reversalOf.Some? ==>
          forall k :: k in s.lines && k.operation == s.operations[id].reversalOf.value ==>
            Share(s, id, k.material) == if k.material in q then q[k.material] else 0)
  }

  lemma ReversedRewrites(s: Store, w: Store, id: OperationId, op: Operation, q: map<MaterialId, int>,
                         o: OperationId, m: MaterialId)
    requires Linked(s) && Linked(w) && id in s.operations && Rewrites(s, w, id, op, q)
    requires op.reversalOf == s.operations[id].reversalOf
    ensures Sum(Reversals(w, o, m)) - Sum(Reversals(s, o, m))
            == if op.reversalOf == Some(o) then (if m in q then q[m] else 0) - Share(s, id, m) else 0
  {
    forall c: OperationId | c != id
      ensures IsReversal(w, c, o, m) <==> IsReversal(s, c, o, m)
      ensures IsReversal(s, c, o, m) ==> s.lines[LineKey(c, m)] == w.lines[LineKey(c, m)]
    {
      assert LineKey(c, m) in w.lines <==> LineKey(c, m) in s.lines;
    }
    ReversedBut(s, w, id, o, m);
    assert LineKey(id, m) in w.lines <==> m in q;
  }

  lemma RewrittenOwnLine(s: Store, w: Store, id: OperationId, op: Operation, q: map<MaterialId, int>, m: MaterialId)
    requires Faithful(s) && WellFormed(w) && id in s.operations && Rewrites(s, w, id, op, q)
    requires op.reversalOf == s.operations[id].reversalOf
    requires LineKey(id, m) in w.lines
    ensures m in q
    ensures Accounted(w, LineKey(id, m)) <==>
            (LineKey(id, m) in s.lines ==>
               var l := s.lines[LineKey(id, m)];
               q[m] == l.quantity || (l.remaining == l.quantity && q[m] <= l.quantity))
  {
    hide Opposed, KindsOpposed, LinesOnOriginals, Share, UniqueRequests, Reversals, Sum;
    ReversedRewrites(s, w, id, op, q, id, m);
    if LineKey(id, m) in s.lines {
      assert Accounted(s, LineKey(id, m));
    } else {
      OpposedParts(s);
      NoReversalsWithoutLine(s, LineKey(id, m));
    }
  }

  lemma RewrittenOtherLine(s: Store, w: Store, id: OperationId, op: Operation, q: map<MaterialId, int>, k: LineKey)
    requires Faithful(s) && WellFormed(w) && id in s.operations && Rewrites(s, w, id, op, q)
    requires op.reversalOf == s.operations[id].reversalOf
    requires k in w.lines && k.operation != id
    ensures k in s.lines
    ensures Accounted(w, k) <==>
            (s.operations[id].reversalOf == Some(k.operation) ==>
               Share(s, id, k.material) == if k.material in q then q[k.material] else 0)
  {
    hide Opposed, Share, UniqueRequests, Reversals, Sum;
    ReversedRewrites(s, w, id, op, q, k.operation, k.material);
    assert Accounted(s, k);
  }

  lemma RewrittenLineAccounted(s: Store, w: Store, id: OperationId, op: Operation, q: map<MaterialId, int>, k: LineKey)
    requires Faithful(s) && WellFormed(w) && id in s.operations && Rewrites(s, w, id, op, q)
    requires op.reversalOf == s.operations[id].reversalOf
    requires k in w.lines
    ensures Accounted(w, k) <==>
            if k.operation == id then
              k in s.lines ==> q[k.material] == s.lines[k].quantity
                               || (s.lines[k].remaining == s.lines[k].quantity && q[k.material] <= s.lines[k].quantity)
            else
              s.operations[id].reversalOf == Some(k.operation) ==>
                Share(s, id, k.material) == if k.material in q then q[k.material] else 0
  {
    hide Opposed, AllAccounted, Accounted, Share, UniqueRequests;
    if k.operation == id {
      assert k == LineKey(id, k.material);
      RewrittenOwnLine(s, w, id, op, q, k.material);
    } else {
      RewrittenOtherLine(s, w, id, op, q, k);
    }
  }

  lemma NoReversalsWithoutLine(s: Store, k: LineKey)
    requires Linked(s) && LinesOnOriginals(s) && k !in s.lines
    ensures Sum(Reversals(s, k.operation, k.material)) == 0
  {
    assert k == LineKey(k.operation, k.material);
    forall c: OperationId ensures !IsReversal(s, c, k.operation, k.material) {
      assert LineKey(c, k.material).operation == c;
    }
    assert Reversals(s, k.operation, k.material) == map[];
  }

  lemma RewritingKeepsBooksIff(s: Store, w: Store, id: OperationId, op: Operation, q: map<MaterialId, int>)
    requires Faithful(s) && WellFormed(w) && id in s.operations && Rewrites(s, w, id, op, q)
    requires op.reversalOf == s.operations[id].reversalOf
    ensures AllAccounted(w) <==> KeepsBooks(s, id, q)
  {
    hide Accounted, Share;
    if KeepsBooks(s, id, q) {
      forall k | k in w.lines ensures Accounted(w, k) {
        RewrittenLineAccounted(s, w, id, op, q, k);
        assert k == LineKey(k.operation, k.material);
      }
    }
    if AllAccounted(w) {
      forall m | m in q && LineKey(id, m) in s.lines
        ensures q[m] == s.lines[LineKey(id, m)].quantity
                || (s.lines[LineKey(id, m)].remaining == s.lines[LineKey(id, m)].quantity
                    && q[m] <= s.lines[LineKey(id, m)].quantity)
      {
        assert Accounted(w, LineKey(id, m));
        RewrittenLineAccounted(s, w, id, op, q, LineKey(id, m));
      }
      forall k | k in s.lines && s.operations[id].reversalOf == Some(k.operation)
        ensures Share(s, id, k.material) == if k.material in q then q[k.material] else 0
      {
        assert Accounted(w, k);
        RewrittenLineAccounted(s, w, id, op, q, k);
      }
    }
  }

  /** Some operation reverses operation o. */
  predicate IsReversed(s: Store, o: OperationId) {
    exists c :: c in s.operations && s.operations[c].reversalOf == Some(o)
  }

  /** No line the edit drops is reversed. */
  ghost predicate DropsNoReversedLine(s: Store, id: OperationId, q: map<MaterialId, int>) {
    forall c, m :: IsReversal(s, c, id, m) && LineKey(id, m) in s.lines ==> m in q
  }

  /** The lines of a reversal are on materials of its original. */
  predicate StaysOnOriginal(s: Store, id: OperationId, q: map<MaterialId, int>)
    requires id in s.operations
  {
    s.operations[id].reversalOf.Some? ==>
      forall m :: m in q ==> LineKey(s.operations[id].reversalOf.value, m) in s.lines
  }

  /**
   The edits after which the reversals still add up, as seen before the call: they keep the books, turn
   round neither a reversal nor an operation with reversals, drop no reversed line, and keep a reversal on
   the materials of its original.
   */
  ghost predicate IsSafe(s: Store, id: OperationId, kind: OperationType, q: map<MaterialId, int>)
    requires id in s.operations
  {
    && KeepsBooks(s, id, q)
    && (kind == s.operations[id].kind || (s.operations[id].reversalOf.None? && !IsReversed(s, id)))
    && DropsNoReversedLine(s, id, q)
    && StaysOnOriginal(s, id, q)
  }

  /** Reversals run against their originals. */
  predicate KindsOpposed(s: Store) {
    forall o :: o in s.operations && s.operations[o].reversalOf.Some? ==>
      s.operations[o].reversalOf.value in s.operations
      && s.operations[o].kind == OppositeKind(s.operations[s.operations[o].reversalOf.value].kind)
  }

  /** Reversals have lines on materials of their originals only. */
  predicate LinesOnOriginals(s: Store)
    requires Linked(s)
  {
    forall k :: k in s.lines && s.operations[k.operation].reversalOf.Some? ==>
      LineKey(s.operations[k.operation].reversalOf.value, k.material) in s.lines
  }

  lemma OpposedParts(s: Store)
    requires Linked(s)
    ensures Opposed(s) <==> KindsOpposed(s) && LinesOnOriginals(s)
  {
  }

  lemma RewritingKeepsKindsIff(s: Store, w: Store, id: OperationId, op: Operation)
    requires WellFormed(s) && KindsOpposed(s) && id in s.operations && w.operations == s.operations[id := op]
    requires op.reversalOf == s.operations[id].reversalOf
    ensures KindsOpposed(w) <==> op.kind == s.operations[id].kind || (op.reversalOf.None? && !IsReversed(s, id))
  {
    hide UniqueRequests;
    if op.kind != s.operations[id].kind && KindsOpposed(w) {
      assert id in w.operations;
      forall c | c in s.operations ensures s.operations[c].reversalOf != Some(id) {
        assert c in w.operations && c != id ==> w.operations[c] == s.operations[c];
      }
    }
  }

  lemma RewritingKeepsLinesOn(s: Store, w: Store, id: OperationId, op: Operation, q: map<MaterialId, int>)
    requires WellFormed(s) && LinesOnOriginals(s) && id in s.operations && Linked(w) && Rewrites(s, w, id, op, q)
    requires op.reversalOf == s.operations[id].reversalOf
    requires DropsNoReversedLine(s, id, q) && StaysOnOriginal(s, id, q)
    ensures LinesOnOriginals(w)
  {
    hide UniqueRequests;
    forall k | k in w.lines && w.operations[k.operation].reversalOf.Some?
      ensures LineKey(w.operations[k.operation].reversalOf.value, k.material) in w.lines
    {
      assert k == LineKey(k.operation, k.material);
      if k.operation != id {
        assert IsReversal(s, k.operation, s.operations[k.operation].reversalOf.value, k.material);
      }
    }
  }

  lemma KeptLinesOnMeans(s: Store, w: Store, id: OperationId, op: Operation, q: map<MaterialId, int>)
    requires WellFormed(s) && id in s.operations && Linked(w) && Rewrites(s, w, id, op, q)
    requires op.reversalOf == s.operations[id].reversalOf && LinesOnOriginals(w)
    ensures DropsNoReversedLine(s, id, q) && StaysOnOriginal(s, id, q)
  {
    hide UniqueRequests;
    forall c, m | IsReversal(s, c, id, m) && LineKey(id, m) in s.lines ensures m in q {
      assert LineKey(c, m) in w.lines;
    }
    forall m | m in q && s.operations[id].reversalOf.Some?
      ensures LineKey(s.operations[id].reversalOf.value, m) in s.lines
    {
      assert LineKey(id, m) in w.lines;
    }
  }

  lemma RewritingKeepsFaithfulIff(s: Store, w: Store, id: OperationId, op: Operation, q: map<MaterialId, int>)
    requires Faithful(s) && WellFormed(w) && id in s.operations && Rewrites(s, w, id, op, q)
    requires op.reversalOf == s.operations[id].reversalOf
    ensures Faithful(w) <==> IsSafe(s, id, op.kind, q)
  {
    OpposedParts(s);
    OpposedParts(w);
    RewritingKeepsBooksIff(s, w, id, op, q);
    RewritingKeepsKindsIff(s, w, id, op);
    hide KeepsBooks, AllAccounted, Opposed, KindsOpposed, LinesOnOriginals, DropsNoReversedLine, StaysOnOriginal,
         IsReversed;
    if DropsNoReversedLine(s, id, q) && StaysOnOriginal(s, id, q) {
      RewritingKeepsLinesOn(s, w, id, op, q);
    }
    if LinesOnOriginals(w) {
      KeptLinesOnMeans(s, w, id, op, q);
    }
  }

  /** What a successful edit does before it replays. */
  lemma EditedIsRewritten(s: Store, id: OperationId, version: nat, kind: OperationType, data: OperationData)
    requires WellFormed(s) && id in s.operations && ValidWrites(data.lines)
    requires Edited(s, id, version, kind, data).result.Success?
    ensures var w := Rewritten(s, id, kind, data);
            var touched := MaterialsOf(s, id) + Quantities(data.lines).Keys;
            && WellFormed(w) && Edited(s, id, version, kind, data).store == Replayed(w, touched)
            && Rewrites(s, w, id, EditedHeader(s.operations[id], kind, data), Quantities(data.lines))
  {
    RewrittenRewrites(s, id, kind, data);
    QuantitiesPositive(data.lines);
    RewrittenIsWellFormed(s, Rewritten(s, id, kind, data), id, EditedHeader(s.operations[id], kind, data),
                          Quantities(data.lines));
  }

  /**
   From a ledger whose reversals add up, a successful edit leaves one whose reversals add up if and only if
   it is a safe one.
   */
  lemma EditKeepsFaithfulIff(s: Store, id: OperationId, version: nat, kind: OperationType, data: OperationData)
    requires Faithful(s) && id in s.operations && ValidWrites(data.lines)
    requires Edited(s, id, version, kind, data).result.Success?
    ensures Faithful(Edited(s, id, version, kind, data).store) <==> IsSafe(s, id, kind, Quantities(data.lines))
  {
    EditedIsRewritten(s, id, version, kind, data);
    var w := Rewritten(s, id, kind, data);
    var op := EditedHeader(s.operations[id], kind, data);
    hide WellFormed, AllAccounted, Opposed, IsSafe, Edited, Rewritten, Replayed, Rewrites;
    ReplayKeepsFaithful(w, MaterialsOf(s, id) + Quantities(data.lines).Keys);
    RewritingKeepsFaithfulIff(s, w, id, op, Quantities(data.lines));
  }

  // ---------------------------------------------------------------- runs with edits

  /** The request is no edit, or an edit that fails, or a safe one. */
  ghost predicate IsSafeRequest(s: Store, r: Request)
    requires WellFormed(s) && ValidRequest(r)
  {
    r.Edit? && r.id in s.operations && Apply(s, r).result.Success? ==>
      IsSafe(s, r.id, r.kind, Quantities(r.data.lines))
  }

  /** Every edit of the run is safe when it arrives. */
  ghost predicate IsSafeRun(s: Store, rs: seq<Request>)
    requires Valid(s) && ValidRequests(rs)
    decreases |rs|
  {
    rs == [] ||
      (IsSafeRequest(s, rs[0]) && (ApplyKeepsValid(s, rs[0]); IsSafeRun(Apply(s, rs[0]).store, rs[1..])))
  }

  /** A request keeps the reversals adding up if and only if it is safe. */
  lemma RequestKeepsFaithfulIff(s: Store, r: Request)
    requires Faithful(s) && ValidRequest(r)
    ensures Faithful(Apply(s, r).store) <==> IsSafeRequest(s, r)
  {
    if !r.Edit? {
      ApplyKeepsFaithful(s, r);
    } else if r.id in s.operations && Apply(s, r).result.Success? {
      EditKeepsFaithfulIff(s, r.id, r.version, r.kind, r.data);
    }
    hide AllAccounted, Opposed, IsSafe;
  }

  lemma {:induction false} SafeRunsAreFaithful(s: Store, rs: seq<Request>)
    requires Valid(s) && Faithful(s) && ValidRequests(rs) && IsSafeRun(s, rs)
    ensures Faithful(Run(s, rs))
    decreases |rs|
  {
    if rs != [] {
      ApplyKeepsValid(s, rs[0]);
      RequestKeepsFaithfulIff(s, rs[0]);
      hide Faithful, Valid, Apply, IsSafeRequest;
      SafeRunsAreFaithful(Apply(s, rs[0]).store, rs[1..]);
    }
  }

  /**
   On every run from an empty ledger whose edits are safe when they arrive: each line's quantity is what is
   left of it plus what was reversed, every reversal tree stays within its root, and the balance of every
   material is the sum of its trees.
   */
  lemma EverySafeRun(s: Store, rs: seq<Request>)
    requires Empty(s) && Valid(s) && ValidRequests(rs) && IsSafeRun(s, rs)
    ensures WellFormed(Run(s, rs)) && AllAccounted(Run(s, rs)) && TreesAddUp(Run(s, rs))
  {
    hide Run, Faithful, TreesAddUp, AllAccounted, Valid, IsSafeRun;
    EmptyIsFaithful(s);
    SafeRunsAreFaithful(s, rs);
    FaithfulTreesAddUp(Run(s, rs));
  }

  // ---------------------------------------------------------------- reversing one line

  lemma OneQuantity(m: MaterialId, n: int)
    ensures Quantities([LineWrite(m, n)]) == map[m := n]
  {
    assert [LineWrite(m, n)][..0] == [];
  }

  lemma OneKey(m: MaterialId, n: int)
    ensures map[m := n].Keys == {m}
  {
  }

  lemma CreationSucceeds(s: Store, kind: OperationType, requestId: string, data: OperationData,
                         original: Option<OperationId>, user: Option<string>)
    requires WellFormed(s) && ValidWrites(data.lines) && IsUnused(s, requestId)
    requires CreateError(kind, data, original, user).None? && Quantities(data.lines).Keys <= s.balances.Keys
    requires original.Some? ==> ReversalFault(s, original.value, data.lines).None?
    ensures Created(s, kind, requestId, data, original, user).result == Success(s.nextId)
    ensures Created(s, kind, requestId, data, original, user).store != s
  {
    assert s.nextId !in s.operations;
    var c := Created(s, kind, requestId, data, original, user);
    assert c.store.nextId == s.nextId + 1;
  }

  /** After an operation is reversed on one line. */
  ghost predicate IsReversedBy(s: Store, u: Store, id: OperationId, m: MaterialId, n: int, requestId: string)
    requires Linked(s) && Linked(u) && id in s.operations && LineKey(id, m) in s.lines
  {
    && LineKey(id, m) in u.lines && id in u.operations && u.operations[id] == s.operations[id]
    && u.lines[LineKey(id, m)].quantity == s.lines[LineKey(id, m)].quantity
    && u.lines[LineKey(id, m)].remaining == s.lines[LineKey(id, m)].remaining - n
    && Sum(Reversals(u, id, m)) == Sum(Reversals(s, id, m)) + n
    && (forall other :: other != requestId && IsUnused(s, other) ==> IsUnused(u, other))
  }

  /** A request to reverse operation id on one line. */
  function ReverseLine(id: OperationId, requestId: string, m: MaterialId, n: int, reason: string, now: int): Request {
    Reverse(id, requestId, reason, [LineWrite(m, n)], now)
  }

  /** As much as is left of a line can be reversed, whatever was reversed of it before. */
  lemma ReversalSucceeds(s: Store, id: OperationId, requestId: string, reason: string, m: MaterialId, n: int, now: int)
    requires WellFormed(s) && id in s.operations && LineKey(id, m) in s.lines
    requires 0 < n <= s.lines[LineKey(id, m)].remaining && reason != "" && IsUnused(s, requestId)
    ensures var a := Apply(s, ReverseLine(id, requestId, m, n, reason, now));
            a.result == Success(s.nextId) && WellFormed(a.store) && IsReversedBy(s, a.store, id, m, n, requestId)
  {
    var op := s.operations[id];
    var kind, data := OppositeKind(op.kind), ReversalData(op, reason, [LineWrite(m, n)], now);
    hide Created, WellFormed, IsUnused, CreateError, Quantities, ReversalFault, Replayed, Grows, IsReversedBy,
         ValidWrites;
    ReversalIsAccepted(s, id, reason, m, n, now);
    OneKey(m, n);
    CreationSucceeds(s, kind, requestId, data, Some(id), None);
    var g, added := CreatedGrows(s, kind, requestId, data, Some(id), None);
    GrownByReversal(s, g, added, id, m, n, requestId);
  }

  lemma ReversalIsAccepted(s: Store, id: OperationId, reason: string, m: MaterialId, n: int, now: int)
    requires WellFormed(s) && id in s.operations && LineKey(id, m) in s.lines
    requires 0 < n <= s.lines[LineKey(id, m)].remaining && reason != ""
    ensures var data := ReversalData(s.operations[id], reason, [LineWrite(m, n)], now);
            && ValidWrites(data.lines) && Quantities(data.lines) == map[m := n] && m in s.balances
            && CreateError(OppositeKind(s.operations[id].kind), data, Some(id), None).None?
            && ReversalFault(s, id, data.lines).None?
  {
    hide UniqueRequests;
    OneQuantity(m, n);
    assert [LineWrite(m, n)][1..] == [];
  }

  lemma GrownByReversal(s: Store, g: Store, op: Operation, id: OperationId, m: MaterialId, n: int, requestId: string)
    requires WellFormed(s) && id in s.operations && LineKey(id, m) in s.lines && m in s.balances
    requires Linked(g) && Grows(s, g, op, map[m := n]) && op.reversalOf == Some(id) && op.requestId == requestId
    requires 0 < n <= s.lines[LineKey(id, m)].remaining && IsUnused(s, requestId)
    ensures WellFormed(Replayed(g, {m})) && IsReversedBy(s, Replayed(g, {m}), id, m, n, requestId)
  {
    hide Grows, Reversals, Sum, WellFormed, IsUnused, Replayed;
    GrownFigures(s, g, op, id, m, n);
    GrownIsUnused(s, requestId);
    GrownIsWellFormed(s, g, op, map[m := n]);
    ReversedGrows(s, g, op, map[m := n], id, m);
    ReplayKeepsWellFormed(g, {m});
    ReplayKeepsReversals(g, {m}, id, m);
    ReplayKeepsFigures(g, {m}, id, m);
    StaysUnused(s, Replayed(g, {m}), op);
    OriginalLineFits(s, id, m, n);
  }

  lemma OriginalLineFits(s: Store, id: OperationId, m: MaterialId, n: int)
    requires LineKey(id, m) in s.lines && n <= s.lines[LineKey(id, m)].remaining
    ensures forall k :: k in map[m := n] ==>
              LineKey(id, k) in s.lines && map[m := n][k] <= s.lines[LineKey(id, k)].remaining
  {
  }

  lemma GrownIsUnused(s: Store, requestId: string)
    requires IsUnused(s, requestId)
    ensures forall o :: o in s.operations ==> s.operations[o].requestId != requestId
  {
  }

  lemma StaysUnused(s: Store, u: Store, op: Operation)
    requires u.operations == s.operations[s.nextId := op]
    ensures forall other :: other != op.requestId && IsUnused(s, other) ==> IsUnused(u, other)
  {
  }

  lemma GrownFigures(s: Store, g: Store, op: Operation, id: OperationId, m: MaterialId, n: int)
    requires WellFormed(s) && id in s.operations && LineKey(id, m) in s.lines
    requires Grows(s, g, op, map[m := n]) && op.reversalOf == Some(id)
    ensures LineKey(id, m) in g.lines && id in g.operations && g.operations == s.operations[s.nextId := op]
    ensures g.operations[id] == s.operations[id] && s.nextId !in s.operations
    ensures g.lines[LineKey(id, m)].quantity == s.lines[LineKey(id, m)].quantity
    ensures g.lines[LineKey(id, m)].remaining == s.lines[LineKey(id, m)].remaining - n
    ensures Linked(s) && {m} == map[m := n].Keys
  {
    hide UniqueRequests;
    assert s.nextId !in s.operations;
  }

  lemma ReplayKeepsFigures(s: Store, ids: set<MaterialId>, o: OperationId, m: MaterialId)
    requires Linked(s) && LineKey(o, m) in s.lines
    ensures var r := Replayed(s, ids);
            && r.operations == s.operations && LineKey(o, m) in r.lines
            && r.lines[LineKey(o, m)].quantity == s.lines[LineKey(o, m)].quantity
            && r.lines[LineKey(o, m)].remaining == s.lines[LineKey(o, m)].remaining
  {
  }

  // ---------------------------------------------------------------- lowering

  /**
   Lowering a line some of which was reversed leaves more to reverse than there is: the edit does not
   take the reversed part into account, so later reversals can exceed the line.
   */
  lemma LoweringAllowsOverReversal(s: Store, id: OperationId, version: nat, kind: OperationType,
                                   data: OperationData, m: MaterialId)
    requires Faithful(s) && id in s.operations && ValidWrites(data.lines)
    requires Edited(s, id, version, kind, data).result.Success?
    requires m in Quantities(data.lines) && LineKey(id, m) in s.lines
    requires s.lines[LineKey(id, m)].remaining < s.lines[LineKey(id, m)].quantity
    requires Quantities(data.lines)[m] < s.lines[LineKey(id, m)].quantity
    ensures var e := Edited(s, id, version, kind, data).store;
            && WellFormed(e) && LineKey(id, m) in e.lines
            && e.lines[LineKey(id, m)].quantity == Quantities(data.lines)[m]
            && e.lines[LineKey(id, m)].remaining + Sum(Reversals(e, id, m)) > e.lines[LineKey(id, m)].quantity
  {
    var q := Quantities(data.lines);
    var w := Rewritten(s, id, kind, data);
    var op := EditedHeader(s.operations[id], kind, data);
    EditedIsRewritten(s, id, version, kind, data);
    ReplayKeepsFaithful(w, MaterialsOf(s, id) + q.Keys);
    ReplayKeepsReversals(w, MaterialsOf(s, id) + q.Keys, id, m);
    LoweredLine(s, w, id, op, q, m);
  }

  lemma LoweredLine(s: Store, w: Store, id: OperationId, op: Operation, q: map<MaterialId, int>, m: MaterialId)
    requires Faithful(s) && WellFormed(w) && id in s.operations && Rewrites(s, w, id, op, q)
    requires op.reversalOf == s.operations[id].reversalOf
    requires m in q && LineKey(id, m) in s.lines
    requires s.lines[LineKey(id, m)].remaining < s.lines[LineKey(id, m)].quantity
    requires q[m] < s.lines[LineKey(id, m)].quantity
    ensures LineKey(id, m) in w.lines && w.lines[LineKey(id, m)].quantity == q[m]
    ensures w.lines[LineKey(id, m)].remaining + Sum(Reversals(w, id, m)) > q[m]
  {
    ReversedRewrites(s, w, id, op, q, id, m);
    assert Accounted(s, LineKey(id, m)) && 0 < s.lines[LineKey(id, m)].quantity;
  }

  /**
   Reversing what the service says is left of the line succeeds, and then more is reversed of it than its
   quantity; if nothing is left, more was reversed already.
   */
  ghost predicate CanBeOverReversed(s: Store, id: OperationId, m: MaterialId, requestId: string, reason: string,
                                    now: int)
    requires WellFormed(s) && LineKey(id, m) in s.lines && reason != ""
  {
    var k := LineKey(id, m);
    if s.lines[k].remaining == 0 then Sum(Reversals(s, id, m)) > s.lines[k].quantity
    else
      NothingNegativeLeft(s, id, m);
      ReverseLineIsValid(id, requestId, m, s.lines[k].remaining, reason, now);
      var a := Apply(s, ReverseLine(id, requestId, m, s.lines[k].remaining, reason, now));
      && a.result.Success? && Linked(a.store) && k in a.store.lines
      && Sum(Reversals(a.store, id, m)) > a.store.lines[k].quantity
  }

  lemma UnaccountedCanBeOverReversed(s: Store, id: OperationId, m: MaterialId, requestId: string, reason: string,
                                     now: int)
    requires WellFormed(s) && id in s.operations && LineKey(id, m) in s.lines && reason != "" && IsUnused(s, requestId)
    requires s.lines[LineKey(id, m)].remaining + Sum(Reversals(s, id, m)) > s.lines[LineKey(id, m)].quantity
    ensures CanBeOverReversed(s, id, m, requestId, reason, now)
  {
    hide Apply, WellFormed, Sum, Reversals, IsUnused, ReverseLine;
    NothingNegativeLeft(s, id, m);
    var left := s.lines[LineKey(id, m)].remaining;
    if left > 0 {
      ReverseLineIsValid(id, requestId, m, left, reason, now);
      ReversalSucceeds(s, id, requestId, reason, m, left, now);
      WellFormedIsLinked(Apply(s, ReverseLine(id, requestId, m, left, reason, now)).store);
    }
  }

  lemma NothingNegativeLeft(s: Store, id: OperationId, m: MaterialId)
    requires WellFormed(s) && LineKey(id, m) in s.lines
    ensures 0 <= s.lines[LineKey(id, m)].remaining && Linked(s)
  {
  }

  lemma ReverseLineIsValid(id: OperationId, requestId: string, m: MaterialId, n: int, reason: string, now: int)
    requires n > 0 && reason != ""
    ensures ValidRequest(ReverseLine(id, requestId, m, n, reason, now))
  {
  }

  lemma WellFormedIsLinked(s: Store)
    requires WellFormed(s)
    ensures Linked(s)
  {
  }

  /** So after such an edit the line can be reversed beyond its quantity. */
  lemma LoweringThenReversing(s: Store, id: OperationId, version: nat, kind: OperationType, data: OperationData,
                              m: MaterialId, requestId: string, reason: string, now: int)
    requires Faithful(s) && id in s.operations && ValidWrites(data.lines)
    requires Edited(s, id, version, kind, data).result.Success?
    requires m in Quantities(data.lines) && LineKey(id, m) in s.lines
    requires s.lines[LineKey(id, m)].remaining < s.lines[LineKey(id, m)].quantity
    requires Quantities(data.lines)[m] < s.lines[LineKey(id, m)].quantity
    requires reason != "" && IsUnused(s, requestId)
    ensures var e := Edited(s, id, version, kind, data).store;
            WellFormed(e) && LineKey(id, m) in e.lines && CanBeOverReversed(e, id, m, requestId, reason, now)
  {
    hide Edited, AllAccounted, Opposed, Reversals, Sum, CanBeOverReversed, UniqueRequests;
    LoweringAllowsOverReversal(s, id, version, kind, data, m);
    EditedKeepsUnused(s, id, version, kind, data, requestId);
    UnaccountedCanBeOverReversed(Edited(s, id, version, kind, data).store, id, m, requestId, reason, now);
  }

  lemma EditedKeepsUnused(s: Store, id: OperationId, version: nat, kind: OperationType, data: OperationData,
                          requestId: string)
    requires WellFormed(s) && id in s.operations && IsUnused(s, requestId)
    ensures var e := Edited(s, id, version, kind, data).store; id in e.operations && IsUnused(e, requestId)
  {
  }

  // ---------------------------------------------------------------- a ledger that gets there

  function OneLine(m: MaterialId, n: int): OperationData {
    OperationData(0, Manual, "", None, None, None, [LineWrite(m, n)])
  }

  function Bringing(m: MaterialId): Request {
    Create(Inbound, "in", OneLine(m, 100), None)
  }

  function Lowering(n: OperationId, m: MaterialId): Request {
    Edit(n, 1, Inbound, OneLine(m, 50))
  }

  function Reversing(n: OperationId, m: MaterialId, requestId: string, quantity: int): Request {
    ReverseLine(n, requestId, m, quantity, "wrong", 0)
  }

  /** 10.0 in, 6.0 of it reversed, lowered to 5.0, and the 4.0 that are said to be left reversed too. */
  function OverReversing(n: OperationId, m: MaterialId): seq<Request> {
    [Bringing(m), Reversing(n, m, "out", 60), Lowering(n, m), Reversing(n, m, "again", 40)]
  }

  /** The line of operation n: its quantity, what is left of it and what was reversed. */
  ghost predicate LineIs(s: Store, n: OperationId, m: MaterialId, quantity: int, remaining: int, reversed: int) {
    && Valid(s) && n in s.operations && LineKey(n, m) in s.lines
    && s.lines[LineKey(n, m)].quantity == quantity && s.lines[LineKey(n, m)].remaining == remaining
    && Sum(Reversals(s, n, m)) == reversed
  }

  /** Operation n is still as it was entered. */
  ghost predicate IsFirst(s: Store, n: OperationId, m: MaterialId) {
    n in s.operations && s.operations[n] == NewOperation(Inbound, "in", OneLine(m, 100), None, None)
  }

  lemma FirstIn(s: Store, m: MaterialId)
    requires Empty(s) && Valid(s) && m in s.balances
    ensures var a := Apply(s, Bringing(m));
            && a.result.Success? && LineIs(a.store, s.nextId, m, 100, 100, 0) && IsFirst(a.store, s.nextId, m)
            && forall other :: other != "in" ==> IsUnused(a.store, other)
  {
    OneQuantity(m, 100);
    hide Quantities;
    ApplyKeepsValid(s, Bringing(m));
    CreationSucceeds(s, Inbound, "in", OneLine(m, 100), None, None);
    var g, op := CreatedGrows(s, Inbound, "in", OneLine(m, 100), None, None);
    hide Valid, WellFormed, Empty, Created;
    FirstGrown(s, g, op, m);
    ReplayKeepsReversals(g, {m}, s.nextId, m);
    ReplayKeepsFigures(g, {m}, s.nextId, m);
  }

  lemma FirstGrown(s: Store, g: Store, op: Operation, m: MaterialId)
    requires Empty(s) && Linked(g) && Grows(s, g, op, map[m := 100]) && op.requestId == "in" && op.reversalOf.None?
    ensures LineKey(s.nextId, m) in g.lines && g.lines[LineKey(s.nextId, m)] == NewLine(100)
    ensures s.nextId in g.operations && g.operations[s.nextId] == op
    ensures Sum(Reversals(g, s.nextId, m)) == 0
    ensures forall u: Store, other :: u.operations == g.operations && other != "in" ==> IsUnused(u, other)
    ensures {m} == map[m := 100].Keys
  {
    assert LineKey(s.nextId, m).operation == s.nextId;
    assert Reversals(g, s.nextId, m) == map[];
  }

  /** Operation n stays as entered, and request ids other than the given one stay unused. */
  ghost predicate KeptAlong(s: Store, u: Store, n: OperationId, m: MaterialId, requestId: string) {
    && (IsFirst(s, n, m) ==> IsFirst(u, n, m))
    && forall other :: other != requestId && IsUnused(s, other) ==> IsUnused(u, other)
  }

  lemma ReversedFurther(s: Store, u: Store, n: OperationId, m: MaterialId, quantity: int, left: int, reversed: int,
                        more: int, requestId: string)
    requires LineIs(s, n, m, quantity, left, reversed) && Valid(u)
    requires Linked(s) && Linked(u) && IsReversedBy(s, u, n, m, more, requestId)
    ensures LineIs(u, n, m, quantity, left - more, reversed + more) && KeptAlong(s, u, n, m, requestId)
  {
    hide Valid, Reversals, Sum, IsUnused;
  }

  lemma LineIsStored(s: Store, n: OperationId, m: MaterialId, quantity: int, remaining: int, reversed: int)
    requires LineIs(s, n, m, quantity, remaining, reversed)
    ensures Valid(s) && n in s.operations && LineKey(n, m) in s.lines && s.lines[LineKey(n, m)].remaining == remaining
  {
    hide Valid;
  }

  lemma ThenReversed(s: Store, n: OperationId, m: MaterialId, quantity: int, left: int, reversed: int, more: int,
                     requestId: string)
    requires WellFormed(s) && ValidRequest(Reversing(n, m, requestId, more))
    requires LineIs(s, n, m, quantity, left, reversed) && 0 < more <= left && IsUnused(s, requestId)
    ensures Apply(s, Reversing(n, m, requestId, more)).result.Success?
    ensures KeptAlong(s, Apply(s, Reversing(n, m, requestId, more)).store, n, m, requestId)
    ensures LineIs(Apply(s, Reversing(n, m, requestId, more)).store, n, m, quantity, left - more, reversed + more)
  {
    hide Apply, IsUnused, Valid, WellFormed, LineIs, IsReversedBy, KeptAlong, ValidRequest;
    LineIsStored(s, n, m, quantity, left, reversed);
    var u := Apply(s, Reversing(n, m, requestId, more)).store;
    ApplyKeepsValid(s, Reversing(n, m, requestId, more));
    ValidIsWellFormed(s);
    ValidIsWellFormed(u);
    ReversalSucceeds(s, n, requestId, "wrong", m, more, 0);
    ReversedFurther(s, u, n, m, quantity, left, reversed, more, requestId);
  }

  lemma ValidIsWellFormed(s: Store)
    requires Valid(s)
    ensures WellFormed(s) && Linked(s)
  {
  }

  lemma ThenLowered(s: Store, n: OperationId, m: MaterialId)
    requires WellFormed(s) && ValidRequest(Lowering(n, m))
    requires LineIs(s, n, m, 100, 40, 60) && IsFirst(s, n, m)
    ensures Apply(s, Lowering(n, m)).result.Success?
    ensures LineIs(Apply(s, Lowering(n, m)).store, n, m, 50, 40, 60)
    ensures forall other :: IsUnused(s, other) ==> IsUnused(Apply(s, Lowering(n, m)).store, other)
  {
    hide Valid, WellFormed, Reversals, Sum, IsUnused, Apply;
    ApplyKeepsValid(s, Lowering(n, m));
    LoweredLineIs(s, n, m);
  }

  lemma LoweredLineIs(s: Store, n: OperationId, m: MaterialId)
    requires WellFormed(s) && ValidRequest(Lowering(n, m)) && LineIs(s, n, m, 100, 40, 60) && IsFirst(s, n, m)
    ensures var a := Apply(s, Lowering(n, m));
            && a.result.Success? && Linked(a.store) && n in a.store.operations && LineKey(n, m) in a.store.lines
            && a.store.lines[LineKey(n, m)].quantity == 50 && a.store.lines[LineKey(n, m)].remaining == 40
            && Sum(Reversals(a.store, n, m)) == 60
            && forall other :: IsUnused(s, other) ==> IsUnused(a.store, other)
  {
    var data := OneLine(m, 50);
    OneQuantity(m, 50);
    LoweringIsAccepted(s, n, m);
    EditedIsRewritten(s, n, 1, Inbound, data);
    var w := Rewritten(s, n, Inbound, data);
    LoweredFigures(s, w, n, EditedHeader(s.operations[n], Inbound, data), m);
    hide Reversals, Sum, Valid, WellFormed, Replayed, Rewritten, Edited, Rewrites, Quantities, IsUnused;
    ReplayKeepsReversals(w, MaterialsOf(s, n) + Quantities(data.lines).Keys, n, m);
    ReplayKeepsFigures(w, MaterialsOf(s, n) + Quantities(data.lines).Keys, n, m);
  }

  lemma LoweringIsAccepted(s: Store, n: OperationId, m: MaterialId)
    requires WellFormed(s) && IsFirst(s, n, m) && LineKey(n, m) in s.lines
    ensures ValidWrites(OneLine(m, 50).lines) && Edited(s, n, 1, Inbound, OneLine(m, 50)).result.Success?
  {
    OneQuantity(m, 50);
    assert EditError(s.operations[n], 1, Inbound, OneLine(m, 50)).None?;
    assert MaterialsOf(s, n) <= s.balances.Keys;
    hide Quantities, UniqueRequests;
  }

  lemma LoweredFigures(s: Store, w: Store, n: OperationId, op: Operation, m: MaterialId)
    requires WellFormed(s) && Linked(w) && n in s.operations && Rewrites(s, w, n, op, map[m := 50])
    requires op == EditedHeader(s.operations[n], Inbound, OneLine(m, 50)) && op.reversalOf.None?
    requires LineKey(n, m) in s.lines && s.lines[LineKey(n, m)].remaining == 40
    ensures LineKey(n, m) in w.lines && w.lines[LineKey(n, m)].quantity == 50 && w.lines[LineKey(n, m)].remaining == 40
    ensures n in w.operations && Sum(Reversals(w, n, m)) == Sum(Reversals(s, n, m))
    ensures forall u: Store, other :: u.operations == w.operations && IsUnused(s, other) ==> IsUnused(u, other)
  {
    hide UniqueRequests;
    ReversedRewrites(s, w, n, op, map[m := 50], n, m);
    hide Sum, Reversals;
  }

  lemma RunStep(s: Store, r: Request, rest: seq<Request>)
    requires Valid(s) && ValidRequests([r] + rest)
    ensures ValidRequest(r) && ValidRequests(rest) && Valid(Apply(s, r).store)
    ensures Run(s, [r] + rest) == Run(Apply(s, r).store, rest)
  {
    assert ([r] + rest)[0] == r && ([r] + rest)[1..] == rest;
    assert forall i :: 0 <= i < |rest| ==> rest[i] == ([r] + rest)[i + 1];
    ApplyKeepsValid(s, r);
    hide Valid, Apply;
  }

  /** From any empty ledger with a material four requests, all successful, leave 10.0 reversed of a line of 5.0. */
  lemma OverReversalIsReachable(s: Store, m: MaterialId)
    requires Empty(s) && Valid(s) && m in s.balances
    ensures ValidRequests(OverReversing(s.nextId, m))
    ensures LineIs(Run(s, OverReversing(s.nextId, m)), s.nextId, m, 50, 0, 100)
  {
    hide Apply, LineIs, IsFirst, IsUnused, Run, Empty, Valid, WellFormed, ValidRequest, Bringing, Lowering, Reversing;
    var n := s.nextId;
    DifferentIds();
    RequestsAreValid(n, m);
    ValidIsWellFormed(s);
    FirstIn(s, m);
    RunStep(s, Bringing(m), [Reversing(n, m, "out", 60), Lowering(n, m), Reversing(n, m, "again", 40)]);
    var s1 := Apply(s, Bringing(m)).store;
    ValidIsWellFormed(s1);
    ThenReversed(s1, n, m, 100, 100, 0, 60, "out");
    RunStep(s1, Reversing(n, m, "out", 60), [Lowering(n, m), Reversing(n, m, "again", 40)]);
    var s2 := Apply(s1, Reversing(n, m, "out", 60)).store;
    ValidIsWellFormed(s2);
    ThenLowered(s2, n, m);
    RunStep(s2, Lowering(n, m), [Reversing(n, m, "again", 40)]);
    var s3 := Apply(s2, Lowering(n, m)).store;
    ValidIsWellFormed(s3);
    ThenReversed(s3, n, m, 50, 40, 60, 40, "again");
    RunStep(s3, Reversing(n, m, "again", 40), []);
    RunNothing(Apply(s3, Reversing(n, m, "again", 40)).store);
    AsSteps(Bringing(m), Reversing(n, m, "out", 60), Lowering(n, m), Reversing(n, m, "again", 40));
  }

  lemma AsSteps(a: Request, b: Request, c: Request, d: Request)
    ensures [a, b, c, d] == [a] + [b, c, d] && [b, c, d] == [b] + [c, d] && [c, d] == [c] + [d] && [d] == [d] + []
  {
  }

  lemma RequestsAreValid(n: OperationId, m: MaterialId)
    ensures ValidRequest(Bringing(m)) && ValidRequest(Lowering(n, m))
    ensures ValidRequest(Reversing(n, m, "out", 60)) && ValidRequest(Reversing(n, m, "again", 40))
  {
  }

  lemma RunNothing(s: Store)
    requires Valid(s)
    ensures Run(s, []) == s
  {
  }

  lemma DifferentIds()
    ensures "in" != "out" && "in" != "again" && "out" != "again"
  {
    assert |"in"| == 2 && |"out"| == 3 && |"again"| == 5;
  }
}
