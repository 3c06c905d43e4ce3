/**
 The purchase tables as far as the life-cycle invariant goes: plans with their numbers, record lines with
 a number snapshot, a nullable reference to a plan and a header, and the headers.  What else the rows hold
 is left open (N is the type of plan numbers; P, L and H are the types of the rest of a row).
 */
module Tables {
  import opened Options

  datatype PlanRow<N, P> = PlanRow(number: N, body: P)

  datatype LineRow<N, L> = LineRow(number: N, plan: Option<nat>, header: nat, body: L)

  datatype Tables<N, P, L, H> = Tables(
    plans: map<nat, PlanRow<N, P>>,
    lines: map<nat, LineRow<N, L>>,
    headers: map<nat, H>)

  // ---------------------------------------------------------------- the invariant

  predicate References<N, P, L, H>(t: Tables<N, P, L, H>, l: nat, p: nat) {
    l in t.lines && t.lines[l].plan == Some(p)
  }

  function ReferencedPlans<N, P, L, H>(t: Tables<N, P, L, H>): set<nat> {
    set l | l in t.lines && t.lines[l].plan.Some? :: t.lines[l].plan.value
  }

  function OwningHeaders<N, P, L, H>(t: Tables<N, P, L, H>): set<nat> {
    set l | l in t.lines :: t.lines[l].header
  }

  ghost predicate PlanNumbersDistinct<N, P, L, H>(t: Tables<N, P, L, H>) {
    forall p, q :: p in t.plans && q in t.plans && p != q ==> t.plans[p].number != t.plans[q].number
  }

  ghost predicate SnapshotsDistinct<N, P, L, H>(t: Tables<N, P, L, H>) {
    forall k, l :: k in t.lines && l in t.lines && k != l ==> t.lines[k].number != t.lines[l].number
  }

  /** A plan and a line share a number only if the line references the plan. */
  ghost predicate SharedByReference<N, P, L, H>(t: Tables<N, P, L, H>) {
    forall p, l :: p in t.plans && l in t.lines && t.plans[p].number == t.lines[l].number ==> t.lines[l].plan == Some(p)
  }

  ghost predicate ReferencesDistinct<N, P, L, H>(t: Tables<N, P, L, H>) {
    forall k, l :: k in t.lines && l in t.lines && k != l && t.lines[k].plan.Some? ==>
      t.lines[k].plan != t.lines[l].plan
  }

  /** Distinct numbers, distinct snapshots, no dangling or repeated reference, and a header for every line. */
  ghost predicate SoundLines<N, P, L, H>(t: Tables<N, P, L, H>) {
    && PlanNumbersDistinct(t) && SnapshotsDistinct(t) && SharedByReference(t) && ReferencesDistinct(t)
    && ReferencedPlans(t) <= t.plans.Keys
    && OwningHeaders(t) <= t.headers.Keys
  }

  /** Sound tables have, besides, a line for every header. */
  ghost predicate Sound<N, P, L, H>(t: Tables<N, P, L, H>) {
    SoundLines(t) && t.headers.Keys == OwningHeaders(t)
  }

  ghost predicate InUse<N, P, L, H>(t: Tables<N, P, L, H>, number: N) {
    || (exists p :: p in t.plans && t.plans[p].number == number)
    || (exists l :: l in t.lines && t.lines[l].number == number)
  }

  /** The plans that no line references. */
  function Loose<N, P, L, H>(t: Tables<N, P, L, H>): set<nat> {
    t.plans.Keys - ReferencedPlans(t)
  }

  /** Plans not in a record, plus record lines. */
  function OpenItems<N, P, L, H>(t: Tables<N, P, L, H>): nat {
    |Loose(t)| + |t.lines.Keys|
  }

  lemma ReferencedIff<N, P, L, H>(t: Tables<N, P, L, H>)
    ensures forall p :: p in ReferencedPlans(t) <==> exists l :: References(t, l, p)
  {
    forall p | exists l :: References(t, l, p) ensures p in ReferencedPlans(t) {
      var l :| References(t, l, p);
      assert t.lines[l].plan.value == p;
    }
    forall p | p in ReferencedPlans(t) ensures exists l :: References(t, l, p) {
      var l :| l in t.lines && t.lines[l].plan.Some? && t.lines[l].plan.value == p;
      assert References(t, l, p);
    }
  }

  // ---------------------------------------------------------------- counting

  lemma CountUnion(a: set<nat>, b: set<nat>, c: set<nat>)
    requires a == b + c && b !! c
    ensures |a| == |b| + |c|
  {
  }

  lemma MinusLess(k: set<nat>, r: set<nat>, f: set<nat>)
    requires f <= r <= k
    ensures |k - (r - f)| == |k - r| + |f|
  {
    CountUnion(k - (r - f), k - r, f);
  }

  lemma CountItems<N, P, L, H>(t: Tables<N, P, L, H>, u: Tables<N, P, L, H>, plans: int, lines: int)
    requires |u.plans.Keys - ReferencedPlans(u)| == |t.plans.Keys - ReferencedPlans(t)| + plans
    requires |u.lines.Keys| == |t.lines.Keys| + lines
    ensures OpenItems(u) == OpenItems(t) + plans + lines
  {
  }

  /** One more reference, to a loose plan. */
  lemma LooseAfterMove(k: set<nat>, r: set<nat>, r': set<nat>, p: nat)
    requires p in k - r && r' == r + {p}
    ensures k - r' == (k - r) - {p} && |k - r| == |k - r'| + 1
  {
    CountKeys(k - r, k - r', p);
  }

  /** One more plan, not referenced. */
  lemma LooseAfterInsert(k: set<nat>, k': set<nat>, r: set<nat>, p: nat)
    requires p !in k && p !in r && k' == k + {p}
    ensures k' - r == (k - r) + {p} && |k' - r| == |k - r| + 1
  {
    CountKeys(k' - r, k - r, p);
  }

  lemma SameDifference(k: set<nat>, r: set<nat>, ids: set<nat>)
    requires ids <= r
    ensures (k - ids) - (r - ids) == k - r
  {
  }

  lemma CountKeys(a: set<nat>, b: set<nat>, l: nat)
    requires a == b + {l} && l !in b
    ensures |a| == |b| + 1
  {
  }

  // ---------------------------------------------------------------- plans

  function PutPlan<N, P, L, H>(t: Tables<N, P, L, H>, p: nat, row: PlanRow<N, P>): Tables<N, P, L, H> {
    t.(plans := t.plans[p := row])
  }

  /** Rewriting a plan under its own number or one nobody uses. */
  lemma RewritePlan<N, P, L, H>(t: Tables<N, P, L, H>, p: nat, row: PlanRow<N, P>)
    requires Sound(t) && p in t.plans && (row.number == t.plans[p].number || !InUse(t, row.number))
    ensures Sound(PutPlan(t, p, row)) && OpenItems(PutPlan(t, p, row)) == OpenItems(t)
  {
    assert PutPlan(t, p, row).plans.Keys == t.plans.Keys;
  }

  lemma InsertPlan<N, P, L, H>(t: Tables<N, P, L, H>, p: nat, row: PlanRow<N, P>)
    requires Sound(t) && p !in t.plans && !InUse(t, row.number)
    ensures Sound(PutPlan(t, p, row)) && OpenItems(PutPlan(t, p, row)) == OpenItems(t) + 1
  {
    InsertedPlanNumbers(t, p, row);
    assert p !in ReferencedPlans(t);
    InsertedPlanCounts(t, p, row);
    SameLinks(t, PutPlan(t, p, row));
  }

  lemma InsertedPlanCounts<N, P, L, H>(t: Tables<N, P, L, H>, p: nat, row: PlanRow<N, P>)
    requires p !in t.plans && p !in ReferencedPlans(t)
    ensures OpenItems(PutPlan(t, p, row)) == OpenItems(t) + 1
  {
    var u := PutPlan(t, p, row);
    assert t.plans == u.plans - {p};
    SameLinks(t, u);
    assert DropPlans(u, {p}) == t;
    DroppedPlanCounts(u, p);
  }

  lemma InsertedPlanNumbers<N, P, L, H>(t: Tables<N, P, L, H>, p: nat, row: PlanRow<N, P>)
    requires PlanNumbersDistinct(t) && SharedByReference(t) && p !in t.plans && !InUse(t, row.number)
    ensures PlanNumbersDistinct(PutPlan(t, p, row)) && SharedByReference(PutPlan(t, p, row))
  {
  }

  function DropPlans<N, P, L, H>(t: Tables<N, P, L, H>, ids: set<nat>): Tables<N, P, L, H> {
    t.(plans := t.plans - ids)
  }

  lemma DropPlan<N, P, L, H>(t: Tables<N, P, L, H>, p: nat)
    requires Sound(t) && p in Loose(t)
    ensures Sound(DropPlans(t, {p})) && OpenItems(DropPlans(t, {p})) + 1 == OpenItems(t)
  {
    DroppedPlanNumbers(t, {p});
    DroppedPlanCounts(t, p);
  }

  lemma DroppedPlanCounts<N, P, L, H>(t: Tables<N, P, L, H>, p: nat)
    requires p in Loose(t)
    ensures ReferencedPlans(DropPlans(t, {p})) == ReferencedPlans(t)
    ensures OwningHeaders(DropPlans(t, {p})) == OwningHeaders(t)
    ensures OpenItems(DropPlans(t, {p})) + 1 == OpenItems(t)
  {
    var u := DropPlans(t, {p});
    SameLinks(t, u);
    LooseAfterInsert(u.plans.Keys, t.plans.Keys, ReferencedPlans(t), p);
  }

  lemma DroppedPlanNumbers<N, P, L, H>(t: Tables<N, P, L, H>, ids: set<nat>)
    requires PlanNumbersDistinct(t) && SharedByReference(t)
    ensures PlanNumbersDistinct(DropPlans(t, ids)) && SharedByReference(DropPlans(t, ids))
  {
  }

  // ---------------------------------------------------------------- lines

  function PutLine<N, P, L, H>(t: Tables<N, P, L, H>, l: nat, row: LineRow<N, L>): Tables<N, P, L, H> {
    t.(lines := t.lines[l := row])
  }

  /** Rewriting a line under its own number or one nobody uses. */
  lemma RewriteLine<N, P, L, H>(t: Tables<N, P, L, H>, l: nat, row: LineRow<N, L>)
    requires Sound(t) && l in t.lines && row.plan == t.lines[l].plan && row.header == t.lines[l].header
    requires row.number == t.lines[l].number || !InUse(t, row.number)
    ensures Sound(PutLine(t, l, row)) && OpenItems(PutLine(t, l, row)) == OpenItems(t)
  {
    RewrittenSnapshot(t, l, row);
    SameLinks(t, PutLine(t, l, row));
    assert PutLine(t, l, row).lines.Keys == t.lines.Keys;
  }

  lemma RewrittenSnapshot<N, P, L, H>(t: Tables<N, P, L, H>, l: nat, row: LineRow<N, L>)
    requires SnapshotsDistinct(t) && SharedByReference(t) && ReferencesDistinct(t)
    requires l in t.lines && row.plan == t.lines[l].plan && (row.number == t.lines[l].number || !InUse(t, row.number))
    ensures var u := PutLine(t, l, row); SnapshotsDistinct(u) && SharedByReference(u) && ReferencesDistinct(u)
  {
  }

  lemma SameLinks<N, P, L, H>(t: Tables<N, P, L, H>, u: Tables<N, P, L, H>)
    requires t.lines.Keys == u.lines.Keys
    requires forall l :: l in t.lines ==> t.lines[l].plan == u.lines[l].plan && t.lines[l].header == u.lines[l].header
    ensures ReferencedPlans(t) == ReferencedPlans(u) && OwningHeaders(t) == OwningHeaders(u)
  {
    forall p | p in ReferencedPlans(t) ensures p in ReferencedPlans(u) {
      var l :| l in t.lines && t.lines[l].plan.Some? && t.lines[l].plan.value == p;
      assert l in u.lines && u.lines[l].plan.value == p;
    }
    forall p | p in ReferencedPlans(u) ensures p in ReferencedPlans(t) {
      var l :| l in u.lines && u.lines[l].plan.Some? && u.lines[l].plan.value == p;
      assert l in t.lines && t.lines[l].plan.value == p;
    }
    forall h | h in OwningHeaders(t) ensures h in OwningHeaders(u) {
      var l :| l in t.lines && t.lines[l].header == h;
      assert l in u.lines;
    }
    forall h | h in OwningHeaders(u) ensures h in OwningHeaders(t) {
      var l :| l in u.lines && u.lines[l].header == h;
      assert l in t.lines;
    }
  }

  lemma InsertLinks<N, P, L, H>(t: Tables<N, P, L, H>, l: nat, row: LineRow<N, L>)
    requires l !in t.lines && row.plan.Some?
    ensures ReferencedPlans(PutLine(t, l, row)) == ReferencedPlans(t) + {row.plan.value}
    ensures OwningHeaders(PutLine(t, l, row)) == OwningHeaders(t) + {row.header}
  {
    var u := PutLine(t, l, row);
    assert u.lines[l] == row;
    forall p | p in ReferencedPlans(t) ensures p in ReferencedPlans(u) {
      var k :| k in t.lines && t.lines[k].plan.Some? && t.lines[k].plan.value == p;
      assert u.lines[k].plan.value == p;
    }
    forall h | h in OwningHeaders(t) ensures h in OwningHeaders(u) {
      var k :| k in t.lines && t.lines[k].header == h;
      assert u.lines[k].header == h;
    }
  }

  /** Moving a loose plan: a line with its number, referencing it, under an existing header. */
  lemma InsertLine<N, P, L, H>(t: Tables<N, P, L, H>, l: nat, row: LineRow<N, L>, p: nat)
    requires SoundLines(t) && l !in t.lines && p in Loose(t)
    requires row.plan == Some(p) && row.number == t.plans[p].number && row.header in t.headers
    ensures SoundLines(PutLine(t, l, row)) && OpenItems(PutLine(t, l, row)) == OpenItems(t)
    ensures Loose(PutLine(t, l, row)) == Loose(t) - {p}
    ensures OwningHeaders(PutLine(t, l, row)) == OwningHeaders(t) + {row.header}
  {
    InsertedSnapshot(t, l, row, p);
    InsertedCounts(t, l, row, p);
    InsertedLinks(t, l, row, p);
  }

  lemma InsertedLinks<N, P, L, H>(t: Tables<N, P, L, H>, l: nat, row: LineRow<N, L>, p: nat)
    requires ReferencedPlans(t) <= t.plans.Keys && OwningHeaders(t) <= t.headers.Keys
    requires l !in t.lines && p in t.plans && row.plan == Some(p) && row.header in t.headers
    ensures ReferencedPlans(PutLine(t, l, row)) <= t.plans.Keys
    ensures OwningHeaders(PutLine(t, l, row)) == OwningHeaders(t) + {row.header}
    ensures OwningHeaders(PutLine(t, l, row)) <= t.headers.Keys
  {
    InsertLinks(t, l, row);
  }

  lemma InsertedSnapshot<N, P, L, H>(t: Tables<N, P, L, H>, l: nat, row: LineRow<N, L>, p: nat)
    requires PlanNumbersDistinct(t) && SnapshotsDistinct(t) && SharedByReference(t) && ReferencesDistinct(t)
    requires l !in t.lines && p in Loose(t) && row.plan == Some(p) && row.number == t.plans[p].number
    ensures var u := PutLine(t, l, row); SnapshotsDistinct(u) && SharedByReference(u) && ReferencesDistinct(u)
  {
    forall k | k in t.lines ensures t.lines[k].plan != Some(p) {
      assert t.lines[k].plan.Some? ==> t.lines[k].plan.value in ReferencedPlans(t);
    }
  }

  lemma LineInserted<N, P, L, H>(t: Tables<N, P, L, H>, l: nat, row: LineRow<N, L>)
    requires l !in t.lines
    ensures |PutLine(t, l, row).lines.Keys| == |t.lines.Keys| + 1
  {
    assert PutLine(t, l, row).lines.Keys == t.lines.Keys + {l};
    CountKeys(PutLine(t, l, row).lines.Keys, t.lines.Keys, l);
  }

  lemma InsertedCounts<N, P, L, H>(t: Tables<N, P, L, H>, l: nat, row: LineRow<N, L>, p: nat)
    requires l !in t.lines && p in Loose(t) && row.plan == Some(p)
    ensures Loose(PutLine(t, l, row)) == Loose(t) - {p} && OpenItems(PutLine(t, l, row)) == OpenItems(t)
  {
    var u := PutLine(t, l, row);
    InsertLinks(t, l, row);
    LooseAfterMove(t.plans.Keys, ReferencedPlans(t), ReferencedPlans(u), p);
    LineInserted(t, l, row);
    CountItems(t, u, -1, 1);
  }

  /** Dropping a line, and its header if no other line has it. */
  function DropLine<N, P, L, H>(t: Tables<N, P, L, H>, l: nat, headers: map<nat, H>): Tables<N, P, L, H> {
    Tables(t.plans, t.lines - {l}, headers)
  }

  lemma DropLinks<N, P, L, H>(t: Tables<N, P, L, H>, l: nat, headers: map<nat, H>)
    requires ReferencesDistinct(t) && l in t.lines
    ensures ReferencedPlans(DropLine(t, l, headers))
            == ReferencedPlans(t) - (if t.lines[l].plan.Some? then {t.lines[l].plan.value} else {})
  {
    var u := DropLine(t, l, headers);
    forall p | p in ReferencedPlans(t) && t.lines[l].plan != Some(p) ensures p in ReferencedPlans(u) {
      var k :| k in t.lines && t.lines[k].plan.Some? && t.lines[k].plan.value == p;
      assert k in u.lines && u.lines[k].plan.value == p;
    }
    forall p | p in ReferencedPlans(u) ensures p in ReferencedPlans(t) && t.lines[l].plan != Some(p) {
      var k :| k in u.lines && u.lines[k].plan.Some? && u.lines[k].plan.value == p;
      assert k in t.lines && t.lines[k].plan.value == p;
    }
  }

  /** Dropping a line frees the plan it references. */
  lemma RemoveLine<N, P, L, H>(t: Tables<N, P, L, H>, l: nat, headers: map<nat, H>)
    requires Sound(t) && l in t.lines && headers.Keys == OwningHeaders(DropLine(t, l, headers))
    ensures Sound(DropLine(t, l, headers))
    ensures OpenItems(DropLine(t, l, headers)) + 1 == OpenItems(t) + if t.lines[l].plan.Some? then 1 else 0
  {
    DropLinks(t, l, headers);
    DroppedLineNumbers(t, l, headers);
    DroppedLineCounts(t, l, headers);
  }

  lemma DroppedLineNumbers<N, P, L, H>(t: Tables<N, P, L, H>, l: nat, headers: map<nat, H>)
    requires SoundLines(t)
    ensures var u := DropLine(t, l, headers);
            PlanNumbersDistinct(u) && SnapshotsDistinct(u) && SharedByReference(u) && ReferencesDistinct(u)
  {
  }

  lemma DroppedLineCounts<N, P, L, H>(t: Tables<N, P, L, H>, l: nat, headers: map<nat, H>)
    requires ReferencesDistinct(t) && ReferencedPlans(t) <= t.plans.Keys && l in t.lines
    ensures OpenItems(DropLine(t, l, headers)) + 1 == OpenItems(t) + if t.lines[l].plan.Some? then 1 else 0
  {
    DropLinks(t, l, headers);
    CountKeys(t.lines.Keys, DropLine(t, l, headers).lines.Keys, l);
    if t.lines[l].plan.Some? {
      assert t.lines[l].plan.value in ReferencedPlans(t);
      MinusLess(t.plans.Keys, ReferencedPlans(t), {t.lines[l].plan.value});
    }
  }

  /** The number of a line without a reference is nobody else's. */
  lemma UnreferencedNumberIsFree<N, P, L, H>(t: Tables<N, P, L, H>, l: nat, headers: map<nat, H>)
    requires SoundLines(t) && l in t.lines && t.lines[l].plan.None?
    ensures !InUse(DropLine(t, l, headers), t.lines[l].number)
  {
  }

  // ---------------------------------------------------------------- clean-up

  /** Clear the references to the given plans, then delete them. */
  function Purge<N, P, L, H>(t: Tables<N, P, L, H>, ids: set<nat>): Tables<N, P, L, H> {
    Tables(t.plans - ids,
           map l | l in t.lines ::
             if t.lines[l].plan.Some? && t.lines[l].plan.value in ids then t.lines[l].(plan := None) else t.lines[l],
           t.headers)
  }

  lemma PurgeLinks<N, P, L, H>(t: Tables<N, P, L, H>, ids: set<nat>)
    ensures ReferencedPlans(Purge(t, ids)) == ReferencedPlans(t) - ids
    ensures OwningHeaders(Purge(t, ids)) == OwningHeaders(t)
  {
    var u := Purge(t, ids);
    forall p | p in ReferencedPlans(t) - ids ensures p in ReferencedPlans(u) {
      var l :| l in t.lines && t.lines[l].plan.Some? && t.lines[l].plan.value == p;
      assert u.lines[l].plan.value == p;
    }
    forall p | p in ReferencedPlans(u) ensures p in ReferencedPlans(t) - ids {
      var l :| l in u.lines && u.lines[l].plan.Some? && u.lines[l].plan.value == p;
      assert t.lines[l].plan.value == p;
    }
    forall h | h in OwningHeaders(t) ensures h in OwningHeaders(u) {
      var l :| l in t.lines && t.lines[l].header == h;
      assert u.lines[l].header == h;
    }
    forall h | h in OwningHeaders(u) ensures h in OwningHeaders(t) {
      var l :| l in u.lines && u.lines[l].header == h;
      assert t.lines[l].header == h;
    }
  }

  /** Deleting referenced plans together with the references to them loses no open item. */
  lemma PurgeKeeps<N, P, L, H>(t: Tables<N, P, L, H>, ids: set<nat>)
    requires Sound(t) && ids <= ReferencedPlans(t)
    ensures Sound(Purge(t, ids)) && OpenItems(Purge(t, ids)) == OpenItems(t) && Loose(Purge(t, ids)) == Loose(t)
  {
    PurgeLinks(t, ids);
    PurgeShares(t, ids);
    PurgeCounts(t, ids);
  }

  lemma PurgeCounts<N, P, L, H>(t: Tables<N, P, L, H>, ids: set<nat>)
    requires ids <= ReferencedPlans(t)
    ensures Loose(Purge(t, ids)) == Loose(t) && OpenItems(Purge(t, ids)) == OpenItems(t)
  {
    PurgeLinks(t, ids);
    SameDifference(t.plans.Keys, ReferencedPlans(t), ids);
    assert Purge(t, ids).plans.Keys == t.plans.Keys - ids;
    assert Purge(t, ids).lines.Keys == t.lines.Keys;
  }

  lemma PurgeShares<N, P, L, H>(t: Tables<N, P, L, H>, ids: set<nat>)
    requires SoundLines(t)
    ensures SharedByReference(Purge(t, ids)) && ReferencesDistinct(Purge(t, ids))
    ensures PlanNumbersDistinct(Purge(t, ids)) && SnapshotsDistinct(Purge(t, ids))
  {
  }
}
