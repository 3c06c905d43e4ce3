/**
 What replay means: walking a material's timeline and adding up computes, for every line, the sum of
 the signed quantities before it.  From this follow that replaying the touched materials is as good
 as replaying the whole ledger, and what a back-dated operation does to the lines after it.
 */
module LedgerReplay {
  import opened Sums
  import opened Ledger

  ghost function Prefix(s: Store, t: seq<OperationId>, m: MaterialId): map<OperationId, int>
  {
    map o | o in t && o in OperationsOn(s, m) :: Delta(s, o, m)
  }

  lemma OnIff(s: Store, m: MaterialId)
    requires Linked(s)
    ensures forall o :: o in OperationsOn(s, m) <==> LineKey(o, m) in s.lines
  {
    assert forall o :: LineKey(o, m) in s.lines ==> LineKey(o, m).operation in s.operations;
  }

  /** The lines before position i of the timeline are the lines that precede the i-th one. */
  lemma PrefixIsEarlier(s: Store, m: MaterialId, i: nat)
    requires Linked(s) && i < |Timeline(s, m)|
    ensures var t := Timeline(s, m);
            && t[i] in s.operations
            && Prefix(s, t[..i], m) == EarlierDeltas(s, t[i], m)
  {
    TimelineMeaning(s, m);
    var t := Timeline(s, m);
    OnIff(s, m);
    assert forall j :: i < j < |t| ==> Precedes(s, t[i], t[j]);
    forall o | o in OperationsOn(s, m) && Precedes(s, o, t[i]) ensures o in t[..i] {
      var j :| 0 <= j < |t| && t[j] == o;
    }
  }

  lemma WholeIsDeltas(s: Store, m: MaterialId)
    requires Linked(s)
    ensures var t := Timeline(s, m);
            Prefix(s, t, m) == Deltas(s, m)
  {
    TimelineMeaning(s, m);
    OnIff(s, m);
  }

  /** One step of the walk. */
  lemma PrefixStep(s: Store, m: MaterialId, i: nat)
    requires Linked(s) && i < |Timeline(s, m)|
    ensures var t := Timeline(s, m);
            && t[i] in s.operations && LineKey(t[i], m) in s.lines
            && Sum(Prefix(s, t[..i + 1], m)) == Sum(Prefix(s, t[..i], m)) + Delta(s, t[i], m)
  {
    TimelineMeaning(s, m);
    var t := Timeline(s, m);
    assert forall j :: 0 <= j < i ==> Precedes(s, t[j], t[i]);
    assert t[..i + 1] == t[..i] + [t[i]];
    SumInsert(Prefix(s, t[..i], m), t[i], Delta(s, t[i], m));
    assert Prefix(s, t[..i + 1], m) == Prefix(s, t[..i], m)[t[i] := Delta(s, t[i], m)];
  }

  lemma {:induction false} ChainedBefore(s: Store, m: MaterialId, i: nat)
    requires Linked(s) && Chained(s, m) && i < |Timeline(s, m)|
    ensures var o := Timeline(s, m)[i];
            && LineKey(o, m) in s.lines
            && s.lines[LineKey(o, m)].before == StockBefore(s, o, m)
            && s.lines[LineKey(o, m)].after == StockBefore(s, o, m) + Delta(s, o, m)
  {
    PrefixIsEarlier(s, m, i);
    var t := Timeline(s, m);
    if i == 0 {
      assert t[..0] == [];
      assert Prefix(s, t[..0], m) == map[];
    } else {
      ChainedBefore(s, m, i - 1);
      PrefixIsEarlier(s, m, i - 1);
      PrefixStep(s, m, i - 1);
    }
  }

  /** A ledger chains along its timeline exactly when every stored total is the sum it stands for. */
  lemma ChainedIffTotalled(s: Store, m: MaterialId)
    requires Linked(s)
    ensures Chained(s, m) <==> Totalled(s, m)
  {
    if Chained(s, m) {
      ChainedIsTotalled(s, m);
    }
    if Totalled(s, m) {
      TotalledIsChained(s, m);
    }
  }

  lemma ChainedIsTotalled(s: Store, m: MaterialId)
    requires Linked(s) && Chained(s, m)
    ensures Totalled(s, m)
  {
    var t := Timeline(s, m);
    TimelineMeaning(s, m);
    forall o | LineKey(o, m) in s.lines
      ensures s.lines[LineKey(o, m)].before == StockBefore(s, o, m)
      ensures s.lines[LineKey(o, m)].after == StockBefore(s, o, m) + Delta(s, o, m)
    {
      var i :| 0 <= i < |t| && t[i] == o;
      ChainedBefore(s, m, i);
    }
    LastTotal(s, m);
    if |t| > 0 {
      ChainedBefore(s, m, |t| - 1);
    }
  }

  /** What totalled lines say at one position of the timeline. */
  lemma TotalledAt(s: Store, m: MaterialId, i: nat)
    requires Linked(s) && Totalled(s, m) && i < |Timeline(s, m)|
    ensures var t := Timeline(s, m);
            && LineKey(t[i], m) in s.lines && t[i] in s.operations
            && s.lines[LineKey(t[i], m)].after == s.lines[LineKey(t[i], m)].before + Delta(s, t[i], m)
            && (i == 0 ==> s.lines[LineKey(t[i], m)].before == 0)
            && (i > 0 ==> LineKey(t[i - 1], m) in s.lines
                          && s.lines[LineKey(t[i], m)].before == s.lines[LineKey(t[i - 1], m)].after)
  {
    hide Timeline, EarlierDeltas;
    TimelineMeaning(s, m);
    var t := Timeline(s, m);
    PrefixIsEarlier(s, m, i);
    if i == 0 {
      assert Prefix(s, t[..0], m) == map[];
    } else {
      PrefixIsEarlier(s, m, i - 1);
      PrefixStep(s, m, i - 1);
    }
  }

  lemma TotalledIsChained(s: Store, m: MaterialId)
    requires Linked(s) && Totalled(s, m)
    ensures Chained(s, m)
  {
    hide Timeline, StockBefore, Stock, Delta;
    forall i | 0 <= i < |Timeline(s, m)|
      ensures LineKey(Timeline(s, m)[i], m) in s.lines && Timeline(s, m)[i] in s.operations
      ensures var l := s.lines[LineKey(Timeline(s, m)[i], m)]; l.after == l.before + Delta(s, Timeline(s, m)[i], m)
      ensures i == 0 ==> s.lines[LineKey(Timeline(s, m)[i], m)].before == 0
      ensures i > 0 ==> LineKey(Timeline(s, m)[i - 1], m) in s.lines
                        && s.lines[LineKey(Timeline(s, m)[i], m)].before
                           == s.lines[LineKey(Timeline(s, m)[i - 1], m)].after
    {
      TotalledAt(s, m, i);
    }
    LastTotal(s, m);
  }

  /** The stock is what the last operation left behind. */
  lemma LastTotal(s: Store, m: MaterialId)
    requires Linked(s)
    ensures var t := Timeline(s, m);
            && (|t| == 0 ==> Stock(s, m) == 0)
            && (|t| > 0 ==> t[|t| - 1] in s.operations && LineKey(t[|t| - 1], m) in s.lines
                            && Stock(s, m) == StockBefore(s, t[|t| - 1], m) + Delta(s, t[|t| - 1], m))
  {
    var t := Timeline(s, m);
    WholeIsDeltas(s, m);
    if |t| == 0 {
      assert Prefix(s, t, m) == map[];
    } else {
      var last := |t| - 1;
      assert t[..last + 1] == t;
      PrefixIsEarlier(s, m, last);
      PrefixStep(s, m, last);
    }
  }

  // ---------------------------------------------------------------- frames

  /** Two stores hold the same facts about m: its lines' quantities, and when and which way they count. */
  ghost predicate SameFacts(a: Store, b: Store, m: MaterialId)
    requires Linked(a) && Linked(b)
  {
    forall o :: (LineKey(o, m) in a.lines <==> LineKey(o, m) in b.lines)
                && (LineKey(o, m) in a.lines ==>
                      && a.lines[LineKey(o, m)].quantity == b.lines[LineKey(o, m)].quantity
                      && a.operations[o].kind == b.operations[o].kind
                      && a.operations[o].occurredAt == b.operations[o].occurredAt)
  }

  lemma SameFactsSameSums(a: Store, b: Store, m: MaterialId)
    requires Linked(a) && Linked(b) && SameFacts(a, b, m)
    ensures Stock(a, m) == Stock(b, m)
    ensures forall o :: LineKey(o, m) in a.lines ==>
              StockBefore(a, o, m) == StockBefore(b, o, m) && Delta(a, o, m) == Delta(b, o, m)
  {
    OnIff(a, m);
    OnIff(b, m);
    assert Deltas(a, m) == Deltas(b, m);
    forall o | LineKey(o, m) in a.lines ensures StockBefore(a, o, m) == StockBefore(b, o, m) {
      assert EarlierDeltas(a, o, m) == EarlierDeltas(b, o, m);
    }
  }

  /** Replaying sets the totals of the named materials and nothing else. */
  lemma ReplayTotals(s: Store, ids: set<MaterialId>)
    requires Linked(s)
    ensures Linked(Replayed(s, ids))
    ensures forall m :: m in ids && m in s.balances ==> Totalled(Replayed(s, ids), m)
  {
    var r := Replayed(s, ids);
    forall m | m in ids && m in s.balances ensures Totalled(r, m) {
      assert SameFacts(s, r, m);
      SameFactsSameSums(s, r, m);
    }
  }

  /**
   Materials a request does not replay stay correct when their facts did not change: the new store
   adds up everywhere.
   */
  lemma ReplayCoversChanges(before: Store, changed: Store, touched: set<MaterialId>)
    requires Linked(before) && Linked(changed)
    requires forall m :: m in before.balances ==> Chained(before, m)
    requires changed.balances == before.balances
    requires forall m :: m in before.balances && m !in touched ==>
               SameFacts(before, changed, m)
               && forall o :: LineKey(o, m) in before.lines ==>
                    && changed.lines[LineKey(o, m)].before == before.lines[LineKey(o, m)].before
                    && changed.lines[LineKey(o, m)].after == before.lines[LineKey(o, m)].after
    ensures Linked(Replayed(changed, touched))
    ensures forall m :: m in before.balances ==> Chained(Replayed(changed, touched), m)
  {
    var r := Replayed(changed, touched);
    ReplayTotals(changed, touched);
    forall m | m in before.balances ensures Chained(r, m) {
      if m !in touched {
        ChainedIffTotalled(before, m);
        UntouchedStaysTotalled(before, changed, touched, m);
      }
      ChainedIffTotalled(r, m);
    }
  }

  lemma UntouchedStaysTotalled(before: Store, changed: Store, touched: set<MaterialId>, m: MaterialId)
    requires Linked(before) && Linked(changed) && m in before.balances && m !in touched
    requires Totalled(before, m) && SameFacts(before, changed, m) && changed.balances == before.balances
    requires forall o :: LineKey(o, m) in before.lines ==>
               && changed.lines[LineKey(o, m)].before == before.lines[LineKey(o, m)].before
               && changed.lines[LineKey(o, m)].after == before.lines[LineKey(o, m)].after
    ensures Linked(Replayed(changed, touched)) && Totalled(Replayed(changed, touched), m)
  {
    var r := Replayed(changed, touched);
    SameFactsSameSums(before, changed, m);
    assert SameFacts(changed, r, m);
    SameFactsSameSums(changed, r, m);
  }

  /**
   Replay is the fixpoint: on any set of materials it leaves every line and every balance quantity
   as it is exactly when those ledgers already add up.  In a valid store replaying the whole ledger
   therefore changes nothing but balance versions, whichever materials the last request replayed.
   */
  lemma ReplayFixpoint(s: Store, ids: set<MaterialId>)
    requires Linked(s) && ids <= s.balances.Keys
    ensures (forall m :: m in ids ==> Chained(s, m))
            <==> (Replayed(s, ids).lines == s.lines
                  && forall m :: m in ids ==> Replayed(s, ids).balances[m].quantity == s.balances[m].quantity)
  {
    var r := Replayed(s, ids);
    if forall m :: m in ids ==> Chained(s, m) {
      forall k | k in s.lines ensures r.lines[k] == s.lines[k] {
        if k.material in ids {
          ChainedIffTotalled(s, k.material);
          assert k == LineKey(k.operation, k.material);
        }
      }
      forall m | m in ids ensures r.balances[m].quantity == s.balances[m].quantity {
        ChainedIffTotalled(s, m);
      }
    }
    if r.lines == s.lines && forall m :: m in ids ==> r.balances[m].quantity == s.balances[m].quantity {
      forall m | m in ids ensures Chained(s, m) {
        forall o | LineKey(o, m) in s.lines
          ensures s.lines[LineKey(o, m)].before == StockBefore(s, o, m)
          ensures s.lines[LineKey(o, m)].after == StockBefore(s, o, m) + Delta(s, o, m)
        {
          assert r.lines[LineKey(o, m)] == Restamped(s, LineKey(o, m));
        }
        ChainedIffTotalled(s, m);
      }
    }
  }

  // ---------------------------------------------------------------- inserting an operation

  /** b is a with operation n added on material m. */
  ghost predicate AddsOperation(a: Store, b: Store, n: OperationId, m: MaterialId)
    requires Linked(a) && Linked(b)
  {
    && LineKey(n, m) !in a.lines && LineKey(n, m) in b.lines
    && forall o :: o != n ==>
         && (LineKey(o, m) in a.lines <==> LineKey(o, m) in b.lines)
         && (LineKey(o, m) in a.lines ==>
               && a.lines[LineKey(o, m)].quantity == b.lines[LineKey(o, m)].quantity
               && a.operations[o].kind == b.operations[o].kind
               && a.operations[o].occurredAt == b.operations[o].occurredAt)
  }

  /** A new operation moves the totals of exactly the lines after it, all by its signed quantity. */
  lemma InsertionShifts(a: Store, b: Store, n: OperationId, m: MaterialId)
    requires Linked(a) && Linked(b) && AddsOperation(a, b, n, m)
    ensures Stock(b, m) == Stock(a, m) + Delta(b, n, m)
    ensures forall o :: LineKey(o, m) in a.lines ==>
              && o in b.operations
              && StockBefore(b, o, m) == StockBefore(a, o, m) + (if Precedes(b, n, o) then Delta(b, n, m) else 0)
              && Delta(b, o, m) == Delta(a, o, m)
  {
    OnIff(a, m);
    OnIff(b, m);
    SumInsert(Deltas(a, m), n, Delta(b, n, m));
    assert Deltas(b, m) == Deltas(a, m)[n := Delta(b, n, m)];
    forall o | LineKey(o, m) in a.lines
      ensures o in b.operations
      ensures StockBefore(b, o, m) == StockBefore(a, o, m) + (if Precedes(b, n, o) then Delta(b, n, m) else 0)
      ensures Delta(b, o, m) == Delta(a, o, m)
    {
      InsertionShiftsOne(a, b, n, o, m);
    }
  }

  lemma InsertionShiftsOne(a: Store, b: Store, n: OperationId, o: OperationId, m: MaterialId)
    requires Linked(a) && Linked(b) && AddsOperation(a, b, n, m) && LineKey(o, m) in a.lines
    ensures o in b.operations
    ensures StockBefore(b, o, m) == StockBefore(a, o, m) + (if Precedes(b, n, o) then Delta(b, n, m) else 0)
    ensures Delta(b, o, m) == Delta(a, o, m)
  {
    OnIff(a, m);
    OnIff(b, m);
    var earlier, earlier' := EarlierDeltas(a, o, m), EarlierDeltas(b, o, m);
    assert o != n && LineKey(o, m) in b.lines;
    forall p ensures p in earlier <==> p != n && p in earlier' {
      assert p != n ==> (LineKey(p, m) in a.lines <==> LineKey(p, m) in b.lines);
    }
    assert forall p :: p in earlier ==> earlier[p] == earlier'[p];
    if Precedes(b, n, o) {
      assert earlier' == earlier[n := Delta(b, n, m)];
      SumInsert(earlier, n, Delta(b, n, m));
    } else {
      assert earlier' == earlier;
    }
  }
}
