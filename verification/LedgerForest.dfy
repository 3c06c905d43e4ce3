/**
 Reversals.  A reversal points at its original and can itself be reversed, so operations form a
 forest.  While operations are only created and reversed, every line's quantity is what is left of it
 plus what was reversed, a reversal tree can never take back more than its root brought in, and the
 stock is the sum of the trees' net effects.  What edits do to this is the subject of LedgerEdits.dfy.
 */
module LedgerForest {
  import opened Options
  import opened Sums
  import Forests
  import opened Ledger
  import opened LedgerReplay
  import opened LedgerRuns

  predicate IsReversal(s: Store, c: OperationId, o: OperationId, m: MaterialId) {
    c in s.operations && s.operations[c].reversalOf == Some(o) && LineKey(c, m) in s.lines
  }

  /** The quantities of the direct reversals of operation o on material m. */
  function Reversals(s: Store, o: OperationId, m: MaterialId): map<OperationId, int>
    requires Linked(s)
  {
    map c | c in s.operations && IsReversal(s, c, o, m) :: s.lines[LineKey(c, m)].quantity
  }

  /** A line accounts for its quantity: what is left of it plus what was reversed. */
  ghost predicate Accounted(s: Store, k: LineKey)
    requires Linked(s) && k in s.lines
  {
    s.lines[k].quantity == s.lines[k].remaining + Sum(Reversals(s, k.operation, k.material))
  }

  ghost predicate AllAccounted(s: Store)
    requires Linked(s)
  {
    forall k :: k in s.lines ==> Accounted(s, k)
  }

  /** A reversal runs against its original and only on the original's materials. */
  predicate Opposed(s: Store)
    requires Linked(s)
  {
    && (forall o :: o in s.operations && s.operations[o].reversalOf.Some? ==>
          s.operations[o].reversalOf.value in s.operations
          && s.operations[o].kind == OppositeKind(s.operations[s.operations[o].reversalOf.value].kind))
    && (forall k :: k in s.lines && s.operations[k.operation].reversalOf.Some? ==>
          LineKey(s.operations[k.operation].reversalOf.value, k.material) in s.lines)
  }

  ghost predicate Faithful(s: Store) {
    WellFormed(s) && AllAccounted(s) && Opposed(s)
  }

  // ---------------------------------------------------------------- requests other than edits

  /** Operations other than n reverse o on m alike in both stores. */
  ghost predicate SameReversalsBut(a: Store, b: Store, n: OperationId, o: OperationId, m: MaterialId) {
    forall c: OperationId :: c != n ==>
      && (IsReversal(a, c, o, m) <==> IsReversal(b, c, o, m))
      && (IsReversal(a, c, o, m) ==> a.lines[LineKey(c, m)].quantity == b.lines[LineKey(c, m)].quantity)
  }

  lemma ReversalsBut(a: Store, b: Store, n: OperationId, o: OperationId, m: MaterialId)
    requires Linked(a) && Linked(b) && SameReversalsBut(a, b, n, o, m)
    ensures Reversals(a, o, m) - {n} == Reversals(b, o, m) - {n}
  {
  }

  /** Entering an operation adds to what is reversed of its original only. */
  lemma ReversedGrows(s: Store, g: Store, op: Operation, q: map<MaterialId, int>, o: OperationId, m: MaterialId)
    requires Linked(s) && Linked(g) && Grows(s, g, op, q) && s.nextId !in s.operations
    ensures Sum(Reversals(g, o, m))
            == Sum(Reversals(s, o, m)) + if op.reversalOf == Some(o) && m in q then q[m] else 0
  {
    hide Grows, Reversals, Sum, IsReversal;
    var n := s.nextId;
    NewReversal(s, g, op, q, o, m);
    forall c: OperationId
      ensures IsReversal(g, c, o, m) <==> IsReversal(s, c, o, m) || (c == n && op.reversalOf == Some(o) && m in q)
      ensures IsReversal(s, c, o, m) ==>
                && LineKey(c, m) in s.lines && LineKey(c, m) in g.lines
                && s.lines[LineKey(c, m)].quantity == g.lines[LineKey(c, m)].quantity
    {
      ReversalGrows(s, g, op, q, c, o, m);
    }
    ReversedBut(s, g, n, o, m);
  }

  lemma NewReversal(s: Store, g: Store, op: Operation, q: map<MaterialId, int>, o: OperationId, m: MaterialId)
    requires Linked(s) && Linked(g) && Grows(s, g, op, q) && s.nextId !in s.operations
    ensures !IsReversal(s, s.nextId, o, m)
    ensures IsReversal(g, s.nextId, o, m) <==> op.reversalOf == Some(o) && m in q
    ensures m in q ==> LineKey(s.nextId, m) in g.lines && g.lines[LineKey(s.nextId, m)].quantity == q[m]
  {
    assert LineKey(s.nextId, m) in s.lines ==> LineKey(s.nextId, m).operation in s.operations;
  }

  lemma ReversedBut(a: Store, b: Store, n: OperationId, o: OperationId, m: MaterialId)
    requires Linked(a) && Linked(b) && SameReversalsBut(a, b, n, o, m)
    ensures Sum(Reversals(b, o, m)) - (if IsReversal(b, n, o, m) then b.lines[LineKey(n, m)].quantity else 0)
            == Sum(Reversals(a, o, m)) - (if IsReversal(a, n, o, m) then a.lines[LineKey(n, m)].quantity else 0)
  {
    ReversalsBut(a, b, n, o, m);
    WithoutOne(Reversals(a, o, m), n);
    WithoutOne(Reversals(b, o, m), n);
  }

  lemma WithoutOne(q: map<OperationId, int>, k: OperationId)
    ensures Sum(q) == Sum(q - {k}) + if k in q then q[k] else 0
  {
    if k in q {
      SumRemove(q, k);
    } else {
      assert q - {k} == q;
    }
  }

  lemma ReversalGrows(s: Store, g: Store, op: Operation, q: map<MaterialId, int>,
                      c: OperationId, o: OperationId, m: MaterialId)
    requires Linked(s) && Grows(s, g, op, q) && s.nextId !in s.operations
    ensures IsReversal(g, c, o, m) <==>
            IsReversal(s, c, o, m) || (c == s.nextId && op.reversalOf == Some(o) && m in q)
    ensures IsReversal(s, c, o, m) ==>
              && LineKey(c, m) in s.lines && LineKey(c, m) in g.lines
              && s.lines[LineKey(c, m)].quantity == g.lines[LineKey(c, m)].quantity
  {
    assert LineKey(c, m) in g.lines <==> LineKey(c, m) in s.lines || (c == s.nextId && m in q);
    assert LineKey(c, m) in s.lines ==> LineKey(c, m).operation in s.operations;
  }

  lemma GrowthIsAccounted(s: Store, g: Store, op: Operation, q: map<MaterialId, int>, k: LineKey)
    requires Linked(s) && Linked(g) && AllAccounted(s) && Grows(s, g, op, q) && k in g.lines
    requires s.nextId !in s.operations
    requires forall o :: o in g.operations && g.operations[o].reversalOf.Some? ==>
               g.operations[o].reversalOf.value in s.operations
    ensures Accounted(g, k)
  {
    if k in s.lines {
      assert Accounted(s, k);
      ReversedGrows(s, g, op, q, k.operation, k.material);
    } else {
      assert Reversals(g, s.nextId, k.material) == map[];
      assert k == LineKey(s.nextId, k.material);
    }
  }

  lemma GrowthIsOpposed(s: Store, g: Store, op: Operation, q: map<MaterialId, int>)
    requires WellFormed(s) && WellFormed(g) && Opposed(s) && Grows(s, g, op, q)
    requires op.reversalOf.Some? ==>
               && op.reversalOf.value in s.operations
               && op.kind == OppositeKind(s.operations[op.reversalOf.value].kind)
               && forall m :: m in q ==> LineKey(op.reversalOf.value, m) in s.lines
    ensures Opposed(g)
  {
  }

  /** Replay changes only running totals and balances. */
  lemma ReplayKeepsFaithful(s: Store, ids: set<MaterialId>)
    requires WellFormed(s)
    ensures WellFormed(Replayed(s, ids))
    ensures AllAccounted(s) <==> AllAccounted(Replayed(s, ids))
    ensures Opposed(s) <==> Opposed(Replayed(s, ids))
  {
    ReplayKeepsWellFormed(s, ids);
    ReplayKeepsOpposed(s, ids);
    hide WellFormed, Opposed;
    forall k | k in s.lines ensures Accounted(s, k) <==> Accounted(Replayed(s, ids), k) {
      ReplayKeepsReversals(s, ids, k.operation, k.material);
    }
  }

  lemma ReplayKeepsOpposed(s: Store, ids: set<MaterialId>)
    requires Linked(s)
    ensures Linked(Replayed(s, ids)) && (Opposed(s) <==> Opposed(Replayed(s, ids)))
  {
    hide Restamped, Stock;
  }

  lemma ReplayKeepsReversals(s: Store, ids: set<MaterialId>, o: OperationId, m: MaterialId)
    requires Linked(s)
    ensures Linked(Replayed(s, ids)) && Reversals(Replayed(s, ids), o, m) == Reversals(s, o, m)
  {
    assert forall c: OperationId :: IsReversal(Replayed(s, ids), c, o, m) <==> IsReversal(s, c, o, m);
  }

  lemma CreatedKeepsFaithful(s: Store, kind: OperationType, requestId: string, data: OperationData,
                             original: Option<OperationId>, user: Option<string>)
    requires Faithful(s) && ValidWrites(data.lines)
    requires original.Some? ==>
               original.value in s.operations && kind == OppositeKind(s.operations[original.value].kind)
    ensures Faithful(Created(s, kind, requestId, data, original, user).store)
  {
    if Created(s, kind, requestId, data, original, user).store != s {
      var q := Quantities(data.lines);
      var g, op := CreatedGrows(s, kind, requestId, data, original, user);
      QuantitiesPositive(data.lines);
      if original.Some? {
        ReversalFits(s, original.value, data.lines);
      }
      GrownIsWellFormed(s, g, op, q);
      forall k | k in g.lines ensures Accounted(g, k) {
        GrowthIsAccounted(s, g, op, q, k);
      }
      GrowthIsOpposed(s, g, op, q);
      ReplayKeepsFaithful(g, q.Keys);
    }
  }

  /** A run of creations, reversals and stock cards. */
  predicate WithoutEdits(rs: seq<Request>) {
    forall i :: 0 <= i < |rs| ==> !rs[i].Edit?
  }

  lemma ApplyKeepsFaithful(s: Store, r: Request)
    requires Faithful(s) && ValidRequest(r) && !r.Edit?
    ensures Faithful(Apply(s, r).store)
  {
    match r
    case Create(kind, requestId, data, user) =>
      CreatedKeepsFaithful(s, kind, requestId, data, None, user);
    case Reverse(original, requestId, reason, lines, now) =>
      if original in s.operations {
        var op := s.operations[original];
        CreatedKeepsFaithful(s, OppositeKind(op.kind), requestId, ReversalData(op, reason, lines, now),
                             Some(original), None);
      }
    case AddMaterial(m) => SameRowsStayFaithful(s, MaterialAdded(s, m).store);
    case DropMaterial(m) => SameRowsStayFaithful(s, MaterialDropped(s, m).store);
  }

  lemma SameRowsSameReversals(s: Store, u: Store, o: OperationId, m: MaterialId)
    requires Linked(s) && Linked(u) && u.operations == s.operations && u.lines == s.lines
    ensures Reversals(u, o, m) == Reversals(s, o, m)
  {
  }

  lemma SameRowsStayOpposed(s: Store, u: Store)
    requires Linked(s) && Linked(u) && Opposed(s) && u.operations == s.operations && u.lines == s.lines
    ensures Opposed(u)
  {
  }

  lemma SameRowsStayFaithful(s: Store, u: Store)
    requires Faithful(s) && u.operations == s.operations && u.lines == s.lines && u.nextId == s.nextId
    requires forall k :: k in u.lines ==> k.material in u.balances
    ensures Faithful(u)
  {
    SameRowsStayWellFormed(s, u);
    SameRowsStayOpposed(s, u);
    hide UniqueRequests, Opposed, Reversals, Sum;
    forall k | k in u.lines ensures Accounted(u, k) {
      assert Accounted(s, k);
      SameRowsSameReversals(s, u, k.operation, k.material);
    }
  }

  /** On every run without edits each line accounts for its quantity and reversals run against their originals. */
  lemma {:induction false} RunsWithoutEditsAreFaithful(s: Store, rs: seq<Request>)
    requires Valid(s) && Faithful(s) && ValidRequests(rs) && WithoutEdits(rs)
    ensures Faithful(Run(s, rs))
    decreases |rs|
  {
    if rs != [] {
      ApplyKeepsValid(s, rs[0]);
      ApplyKeepsFaithful(s, rs[0]);
      hide Faithful, Valid, Apply;
      RunsWithoutEditsAreFaithful(Apply(s, rs[0]).store, rs[1..]);
    }
  }

  // ---------------------------------------------------------------- the forest

  /** The operations on m with their signed quantities, reversals pointing at their originals. */
  ghost function ForestOn(s: Store, m: MaterialId): Forests.Forest
    requires Linked(s)
  {
    Forests.Forest(
      Deltas(s, m),
      map c | c in OperationsOn(s, m) && s.operations[c].reversalOf.Some? :: s.operations[c].reversalOf.value,
      s.nextId)
  }

  lemma ForestIsWellFounded(s: Store, m: MaterialId)
    requires WellFormed(s)
    ensures Forests.WellFounded(ForestOn(s, m))
    ensures Opposed(s) ==> forall c :: c in ForestOn(s, m).parent ==> ForestOn(s, m).parent[c] in ForestOn(s, m).effect
  {
    if Opposed(s) {
      forall c | c in ForestOn(s, m).parent ensures ForestOn(s, m).parent[c] in ForestOn(s, m).effect {
        assert LineKey(c, m) in s.lines && LineKey(c, m).operation == c;
        assert LineKey(ForestOn(s, m).parent[c], m).operation in s.operations;
      }
    }
  }

  /** What operation o and everything that reverses it, directly or not, adds to the stock of m. */
  ghost function Net(s: Store, o: OperationId, m: MaterialId): int
    requires WellFormed(s) && o in OperationsOn(s, m)
  {
    ForestIsWellFounded(s, m);
    Forests.Net(ForestOn(s, m), o)
  }

  function Remaining(s: Store, m: MaterialId): map<nat, int> {
    map o | o in OperationsOn(s, m) :: s.lines[LineKey(o, m)].remaining
  }

  lemma SizesAreReversals(s: Store, o: OperationId, m: MaterialId)
    requires WellFormed(s)
    ensures Forests.WellFounded(ForestOn(s, m))
    ensures Forests.Sizes(ForestOn(s, m), Forests.Children(ForestOn(s, m), o)) == Reversals(s, o, m)
  {
    ForestIsWellFounded(s, m);
    var f := ForestOn(s, m);
    forall c | c in Reversals(s, o, m) ensures Forests.Abs(f.effect[c]) == s.lines[LineKey(c, m)].quantity {
      assert 0 < s.lines[LineKey(c, m)].quantity;
    }
    SameSizes(s, f, o, m);
  }

  lemma SameSizes(s: Store, f: Forests.Forest, o: OperationId, m: MaterialId)
    requires Linked(s) && Forests.WellFounded(f)
    requires forall c: nat :: c in Forests.Children(f, o) <==> IsReversal(s, c, o, m)
    requires forall c: nat :: IsReversal(s, c, o, m) ==>
               c in f.effect && Forests.Abs(f.effect[c]) == s.lines[LineKey(c, m)].quantity
    ensures Forests.Sizes(f, Forests.Children(f, o)) == Reversals(s, o, m)
  {
  }

  lemma FaithfulIsBalanced(s: Store, m: MaterialId)
    requires Faithful(s)
    ensures Forests.WellFounded(ForestOn(s, m))
    ensures Forests.Balanced(ForestOn(s, m), Remaining(s, m))
  {
    ForestIsWellFounded(s, m);
    var f := ForestOn(s, m);
    forall o | o in f.effect
      ensures 0 <= Remaining(s, m)[o]
      ensures Forests.Abs(f.effect[o]) == Remaining(s, m)[o] + Sum(Forests.Sizes(f, Forests.Children(f, o)))
    {
      SizesAreReversals(s, o, m);
      assert Accounted(s, LineKey(o, m)) && 0 < s.lines[LineKey(o, m)].quantity;
    }
    forall c | c in f.parent && f.parent[c] in f.effect ensures f.effect[c] * f.effect[f.parent[c]] <= 0 {
      assert 0 < s.lines[LineKey(c, m)].quantity && 0 < s.lines[LineKey(f.parent[c], m)].quantity;
      ProductOfOpposites(f.effect[c], f.effect[f.parent[c]]);
    }
  }

  lemma ProductOfOpposites(x: int, y: int)
    requires (x <= 0 && 0 <= y) || (0 <= x && y <= 0)
    ensures x * y <= 0
  {
  }

  /**
   A reversal tree keeps its root's sign: its net effect lies between what is left of the root and the
   root's quantity, so no chain of reversals of reversals takes back more than was brought in.
   */
  lemma TreeStaysWithinRoot(s: Store, o: OperationId, m: MaterialId)
    requires Faithful(s) && o in OperationsOn(s, m)
    ensures var l := s.lines[LineKey(o, m)];
            if s.operations[o].kind.Inbound? then l.remaining <= Net(s, o, m) <= l.quantity
            else -l.quantity <= Net(s, o, m) <= -l.remaining
  {
    FaithfulIsBalanced(s, m);
    Forests.NetBetween(ForestOn(s, m), Remaining(s, m), o);
    assert 0 < s.lines[LineKey(o, m)].quantity;
  }

  ghost function RootNets(s: Store, m: MaterialId): map<OperationId, int>
    requires WellFormed(s)
  {
    map o | o in OperationsOn(s, m) && s.operations[o].reversalOf.None? :: Net(s, o, m)
  }

  /** Conservation: the balance of a material is the sum of the net effects of its reversal trees. */
  lemma BalanceIsSumOfTrees(s: Store, m: MaterialId)
    requires Valid(s) && Faithful(s) && m in s.balances
    ensures s.balances[m].quantity == Sum(RootNets(s, m))
  {
    ForestIsWellFounded(s, m);
    Forests.TotalIsSumOfTrees(ForestOn(s, m));
    ChainedIffTotalled(s, m);
    RootNetsAreNets(s, m);
  }

  lemma RootNetsAreNets(s: Store, m: MaterialId)
    requires WellFormed(s)
    ensures Forests.WellFounded(ForestOn(s, m))
    ensures Forests.Roots(ForestOn(s, m)) <= ForestOn(s, m).effect.Keys
    ensures RootNets(s, m) == Forests.Nets(ForestOn(s, m), Forests.Roots(ForestOn(s, m)))
  {
    ForestIsWellFounded(s, m);
  }

  /** The net effect of o's tree lies between nothing and o's own effect. */
  ghost predicate WithinRoot(s: Store, o: OperationId, m: MaterialId)
    requires WellFormed(s) && o in OperationsOn(s, m)
  {
    var quantity := s.lines[LineKey(o, m)].quantity;
    if s.operations[o].kind.Inbound? then 0 <= Net(s, o, m) <= quantity else -quantity <= Net(s, o, m) <= 0
  }

  lemma TreeIsWithinRoot(s: Store, o: OperationId, m: MaterialId)
    requires Faithful(s) && o in OperationsOn(s, m)
    ensures WithinRoot(s, o, m)
  {
    TreeStaysWithinRoot(s, o, m);
    assert 0 <= s.lines[LineKey(o, m)].remaining;
    hide Net;
  }

  /** What a faithful ledger is good for: the tree bound and conservation, for every operation and material. */
  ghost predicate TreesAddUp(s: Store)
    requires WellFormed(s)
  {
    && (forall o, m :: o in OperationsOn(s, m) ==> WithinRoot(s, o, m))
    && (forall m :: m in s.balances ==> s.balances[m].quantity == Sum(RootNets(s, m)))
  }

  lemma FaithfulTreesAddUp(s: Store)
    requires Valid(s) && Faithful(s)
    ensures WellFormed(s) && AllAccounted(s) && TreesAddUp(s)
  {
    FaithfulMeaning(s);
    hide Faithful, WithinRoot, AllAccounted, Valid;
    forall o, m | o in OperationsOn(s, m) ensures WithinRoot(s, o, m) {
      TreeIsWithinRoot(s, o, m);
    }
    forall m | m in s.balances ensures s.balances[m].quantity == Sum(RootNets(s, m)) {
      BalanceIsSumOfTrees(s, m);
    }
  }

  /**
   On every run without edits from an empty ledger: each line's quantity is what is left of
   it plus what was reversed, every reversal tree stays within its root, and the balance of every material
   is the sum of its trees.
   */
  lemma EveryRunWithoutEdits(s: Store, rs: seq<Request>)
    requires Empty(s) && ValidRequests(rs) && WithoutEdits(rs)
    ensures Valid(s) && WellFormed(Run(s, rs)) && AllAccounted(Run(s, rs)) && TreesAddUp(Run(s, rs))
  {
    hide Run, Faithful, TreesAddUp, AllAccounted, Valid;
    EveryRunAddsUp(s, []);
    EmptyIsFaithful(s);
    RunsWithoutEditsAreFaithful(s, rs);
    FaithfulTreesAddUp(Run(s, rs));
  }

  lemma FaithfulMeaning(s: Store)
    requires Faithful(s)
    ensures WellFormed(s) && AllAccounted(s)
  {
  }

  lemma EmptyIsFaithful(s: Store)
    requires Empty(s) && Valid(s)
    ensures Faithful(s)
  {
  }
}
