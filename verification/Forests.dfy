/**
 Forests of signed effects: every node has an effect, a child points at a smaller node.  The ledger's
 operations on one material, with reversals pointing at their originals, are such a forest.
 */
module Forests {
  import opened Sums

  datatype Forest = Forest(effect: map<nat, int>, parent: map<nat, nat>, bound: nat)

  predicate WellFounded(f: Forest) {
    && (forall o :: o in f.effect ==> o < f.bound)
    && (forall c :: c in f.parent ==> c in f.effect && f.parent[c] < c)
  }

  function Children(f: Forest, o: nat): set<nat> {
    set c | c in f.parent && f.parent[c] == o
  }

  /** The effect of a node together with everything below it. */
  ghost function Net(f: Forest, o: nat): int
    requires WellFounded(f) && o in f.effect
    decreases f.bound - o
  {
    f.effect[o] + Sum(map c | c in Children(f, o) :: Net(f, c))
  }

  ghost function Nets(f: Forest, nodes: set<nat>): map<nat, int>
    requires WellFounded(f) && nodes <= f.effect.Keys
  {
    map c | c in nodes :: Net(f, c)
  }

  function Abs(x: int): nat {
    if x < 0 then -x else x
  }

  function Sizes(f: Forest, nodes: set<nat>): map<nat, int>
    requires nodes <= f.effect.Keys
  {
    map c | c in nodes :: Abs(f.effect[c])
  }

  /** Children run against their parent, and a node's size is what is left of it plus its children's. */
  ghost predicate Balanced(f: Forest, left: map<nat, int>)
    requires WellFounded(f)
  {
    && f.effect.Keys <= left.Keys
    && (forall o :: o in f.effect ==>
          0 <= left[o] && Abs(f.effect[o]) == left[o] + Sum(Sizes(f, Children(f, o))))
    && (forall c :: c in f.parent && f.parent[c] in f.effect ==> f.effect[c] * f.effect[f.parent[c]] <= 0)
  }

  /** The net effect of a balanced tree has its root's sign and lies between what is left and the root's size. */
  lemma {:induction false} NetBetween(f: Forest, left: map<nat, int>, o: nat)
    requires WellFounded(f) && Balanced(f, left) && o in f.effect
    ensures 0 <= f.effect[o] ==> left[o] <= Net(f, o) <= f.effect[o]
    ensures f.effect[o] <= 0 ==> f.effect[o] <= Net(f, o) <= -left[o]
    decreases f.bound - o
  {
    var kids := Children(f, o);
    forall c | c in kids
      ensures 0 < f.effect[o] ==> -Sizes(f, kids)[c] <= Nets(f, kids)[c] <= 0
      ensures f.effect[o] < 0 ==> 0 <= Nets(f, kids)[c] <= Sizes(f, kids)[c]
      ensures -Sizes(f, kids)[c] <= Nets(f, kids)[c] <= Sizes(f, kids)[c]
    {
      NetBetween(f, left, c);
      OppositeSigns(f.effect[c], f.effect[o]);
    }
    SumBetween(Sizes(f, kids), Nets(f, kids));
  }

  lemma OppositeSigns(x: int, y: int)
    requires x * y <= 0
    ensures 0 < y ==> x <= 0
    ensures y < 0 ==> 0 <= x
  {
  }

  lemma SumBetween(sizes: map<nat, int>, nets: map<nat, int>)
    requires sizes.Keys == nets.Keys
    requires forall c :: c in sizes ==> -sizes[c] <= nets[c] <= sizes[c]
    ensures -Sum(sizes) <= Sum(nets) <= Sum(sizes)
    ensures (forall c :: c in nets ==> nets[c] <= 0) ==> Sum(nets) <= 0
    ensures (forall c :: c in nets ==> 0 <= nets[c]) ==> 0 <= Sum(nets)
  {
    SumMonotone(nets, sizes);
    var negated := map c | c in nets :: -nets[c];
    SumNegate(nets);
    SumMonotone(negated, sizes);
    if forall c :: c in nets ==> nets[c] <= 0 {
      SumNonnegative(negated);
    }
    if forall c :: c in nets ==> 0 <= nets[c] {
      SumNonnegative(nets);
    }
  }

  // The total, told node by node below n and tree by tree from n on.

  function Below(f: Forest, n: nat): map<nat, int> {
    map o | o in f.effect && o < n :: f.effect[o]
  }

  function Tops(f: Forest, n: nat): set<nat> {
    set o | o in f.effect && n <= o && (o in f.parent ==> f.parent[o] < n)
  }

  lemma {:induction false} TotalByTrees(f: Forest, n: nat)
    requires WellFounded(f) && n <= f.bound
    requires forall c :: c in f.parent ==> f.parent[c] in f.effect
    ensures Sum(f.effect) == Sum(Below(f, n)) + Sum(Nets(f, Tops(f, n)))
    decreases f.bound - n
  {
    hide Net, Nets, Below, Tops, Sum;
    if n == f.bound {
      NothingAbove(f);
    } else {
      TotalByTrees(f, n + 1);
      FoldNode(f, n);
    }
  }

  lemma NothingAbove(f: Forest)
    requires WellFounded(f)
    ensures Below(f, f.bound) == f.effect && Tops(f, f.bound) == {} && Sum(Nets(f, Tops(f, f.bound))) == 0
  {
    assert Tops(f, f.bound) == {};
    assert Nets(f, {}) == map[];
  }

  lemma FoldNode(f: Forest, n: nat)
    requires WellFounded(f) && n < f.bound
    requires forall c :: c in f.parent ==> f.parent[c] in f.effect
    ensures Sum(Below(f, n)) + Sum(Nets(f, Tops(f, n))) == Sum(Below(f, n + 1)) + Sum(Nets(f, Tops(f, n + 1)))
  {
    hide Sum;
    if n in f.effect {
      SumInsert(Below(f, n), n, f.effect[n]);
      assert Below(f, n + 1) == Below(f, n)[n := f.effect[n]];
      var others := Tops(f, n) - {n};
      assert Tops(f, n) == others + {n};
      assert Tops(f, n + 1) == others + Children(f, n);
      NetsInsert(f, others, n);
      NetsUnion(f, others, Children(f, n));
    } else {
      assert Below(f, n + 1) == Below(f, n);
      assert Tops(f, n + 1) == Tops(f, n);
    }
  }

  lemma NetsInsert(f: Forest, nodes: set<nat>, n: nat)
    requires WellFounded(f) && nodes <= f.effect.Keys && n in f.effect && n !in nodes
    ensures Sum(Nets(f, nodes + {n})) == Sum(Nets(f, nodes)) + Net(f, n)
  {
    hide Net, Sum;
    SumInsert(Nets(f, nodes), n, Net(f, n));
    assert Nets(f, nodes + {n}) == Nets(f, nodes)[n := Net(f, n)];
  }

  lemma NetsUnion(f: Forest, a: set<nat>, b: set<nat>)
    requires WellFounded(f) && a <= f.effect.Keys && b <= f.effect.Keys && a !! b
    ensures Sum(Nets(f, a + b)) == Sum(Nets(f, a)) + Sum(Nets(f, b))
  {
    hide Net, Sum;
    SumUnion(Nets(f, a), Nets(f, b));
    assert Nets(f, a + b) == Nets(f, a) + Nets(f, b);
  }

  function Roots(f: Forest): set<nat> {
    set o | o in f.effect && o !in f.parent
  }

  /** Conservation: the effects add up to the net effects of the trees. */
  lemma TotalIsSumOfTrees(f: Forest)
    requires WellFounded(f)
    requires forall c :: c in f.parent ==> f.parent[c] in f.effect
    ensures Sum(f.effect) == Sum(Nets(f, Roots(f)))
  {
    TotalByTrees(f, 0);
    assert Below(f, 0) == map[];
    assert Tops(f, 0) == Roots(f);
  }
}
