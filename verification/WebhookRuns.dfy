/**
 Any number of workers over one outbox, with crashes: what the five-minute lease buys, and what goes
 wrong when a worker holds a delivery longer than that.
 */
module WebhookRuns {
  import opened Webhook

  type WorkerId = nat

  /** The claims of the busy workers, the time, and how many claims on each delivery died with their worker. */
  datatype System = System(table: Table, busy: map<WorkerId, Claim>, now: Time, lost: map<DeliveryId, nat>)

  datatype Step =
    | Enqueue(id: DeliveryId)
    | Wait(time: nat)
    | Take(worker: WorkerId, id: DeliveryId)
    | Report(worker: WorkerId, ok: bool)
    | Crash(worker: WorkerId)

  /** A worker may claim any eligible delivery: the lowest may be locked by another worker's claim. */
  predicate Enabled(s: System, step: Step) {
    match step
    case Enqueue(id) => id !in s.table
    case Wait(_) => true
    case Take(worker, id) => worker !in s.busy && id in s.table && Eligible(s.table[id], s.now)
    case Report(worker, _) => worker in s.busy
    case Crash(worker) => worker in s.busy
  }

  function Lost(s: System, id: DeliveryId): nat {
    if id in s.lost then s.lost[id] else 0
  }

  function Apply(s: System, step: Step): System
    requires Enabled(s, step)
  {
    match step
    case Enqueue(id) => s.(table := s.table[id := Delivery(Pending, 0, s.now, s.now)])
    case Wait(time) => s.(now := s.now + time)
    case Take(worker, id) =>
      s.(table := s.table[id := Taken(s.table[id], s.now)], busy := s.busy[worker := ClaimOf(s.table, id, s.now)])
    case Report(worker, ok) =>
      s.(table := Finished(s.table, s.busy[worker], ok, s.now), busy := s.busy - {worker})
    case Crash(worker) =>
      var id := s.busy[worker].id;
      s.(busy := s.busy - {worker}, lost := s.lost[id := Lost(s, id) + 1])
  }

  /** No live claim has outlasted its lease. */
  ghost predicate Timely(s: System) {
    forall w :: w in s.busy ==> s.now < s.busy[w].at + LEASE
  }

  ghost predicate IsHeld(s: System, id: DeliveryId) {
    exists w :: w in s.busy && s.busy[w].id == id
  }

  // ---------------------------------------------------------------- the invariant

  /** A live claim is on a delivery that is being sent, and agrees with the row. */
  ghost predicate ClaimsAgree(s: System) {
    forall w :: w in s.busy ==>
      && s.busy[w].id in s.table
      && var d := s.table[s.busy[w].id];
         d.status == Sending && d.attempts == s.busy[w].attempts && d.updatedAt == s.busy[w].at
  }

  ghost predicate ClaimsDistinct(s: System) {
    forall v, w :: v in s.busy && w in s.busy && v != w ==> s.busy[v].id != s.busy[w].id
  }

  /** Every attempt beyond the fifth makes up for a crash. */
  ghost predicate AttemptsBounded(s: System) {
    forall id :: id in s.table ==>
      && (s.table[id].status == Pending ==> s.table[id].attempts < MAX_ATTEMPTS)
      && s.table[id].attempts <= MAX_ATTEMPTS + Lost(s, id)
      && (s.table[id].status == Sending && !IsHeld(s, id) ==> s.table[id].attempts < MAX_ATTEMPTS + Lost(s, id))
  }

  ghost predicate Inv(s: System) {
    ClaimsAgree(s) && ClaimsDistinct(s) && AttemptsBounded(s)
  }

  /** Within the lease nobody else can claim a held delivery. */
  lemma HeldIsNotEligible(s: System, id: DeliveryId)
    requires ClaimsAgree(s) && Timely(s) && IsHeld(s, id)
    ensures id in s.table && !Eligible(s.table[id], s.now)
  {
    var w :| w in s.busy && s.busy[w].id == id;
  }

  lemma TakeKeeps(s: System, worker: WorkerId, id: DeliveryId)
    requires Inv(s) && Timely(s) && Enabled(s, Take(worker, id))
    ensures Inv(Apply(s, Take(worker, id)))
  {
    if IsHeld(s, id) {
      HeldIsNotEligible(s, id);
      assert false;
    }
    var u := Apply(s, Take(worker, id));
    assert forall w :: w in s.busy ==> s.busy[w].id != id;
    forall k | k in u.table && k != id && IsHeld(s, k) ensures IsHeld(u, k) {
      var w :| w in s.busy && s.busy[w].id == k;
      assert w in u.busy && u.busy[w].id == k;
    }
    assert worker in u.busy && u.busy[worker].id == id;
    assert IsHeld(u, id);
  }

  lemma ReleaseKeepsOthersHeld(s: System, worker: WorkerId, u: System)
    requires worker in s.busy && u.busy == s.busy - {worker}
    ensures forall k :: k != s.busy[worker].id && IsHeld(s, k) ==> IsHeld(u, k)
  {
    forall k | k != s.busy[worker].id && IsHeld(s, k) ensures IsHeld(u, k) {
      var w :| w in s.busy && s.busy[w].id == k;
      assert w in u.busy && u.busy[w].id == k;
    }
  }

  lemma ReportKeeps(s: System, worker: WorkerId, ok: bool)
    requires Inv(s) && Enabled(s, Report(worker, ok))
    ensures Inv(Apply(s, Report(worker, ok)))
  {
    var u := Apply(s, Report(worker, ok));
    ReleaseKeepsOthersHeld(s, worker, u);
    assert forall w :: w in u.busy ==> u.busy[w] == s.busy[w] && w != worker;
  }

  lemma CrashKeeps(s: System, worker: WorkerId)
    requires Inv(s) && Enabled(s, Crash(worker))
    ensures Inv(Apply(s, Crash(worker)))
  {
    var u := Apply(s, Crash(worker));
    ReleaseKeepsOthersHeld(s, worker, u);
    assert forall w :: w in u.busy ==> u.busy[w] == s.busy[w] && w != worker;
  }

  lemma EnqueueKeeps(s: System, id: DeliveryId)
    requires Inv(s) && Enabled(s, Enqueue(id))
    ensures Inv(Apply(s, Enqueue(id)))
  {
    var u := Apply(s, Enqueue(id));
    assert forall k :: IsHeld(s, k) ==> IsHeld(u, k);
  }

  lemma WaitKeeps(s: System, time: nat)
    requires Inv(s)
    ensures Inv(Apply(s, Wait(time)))
  {
    var u := Apply(s, Wait(time));
    assert forall k :: IsHeld(s, k) ==> IsHeld(u, k);
  }

  lemma StepKeeps(s: System, step: Step)
    requires Inv(s) && Timely(s) && Enabled(s, step)
    ensures Inv(Apply(s, step))
  {
    match step
    case Enqueue(id) => EnqueueKeeps(s, id);
    case Wait(time) => WaitKeeps(s, time);
    case Take(worker, id) => TakeKeeps(s, worker, id);
    case Report(worker, ok) => ReportKeeps(s, worker, ok);
    case Crash(worker) => CrashKeeps(s, worker);
  }

  // ---------------------------------------------------------------- runs

  const EMPTY: System := System(map[], map[], 0, map[])

  /** Every step is enabled, and before each step no claim has outlasted its lease. */
  ghost predicate TimelyRun(s: System, steps: seq<Step>)
    decreases |steps|
  {
    Timely(s) && (steps == [] || (Enabled(s, steps[0]) && TimelyRun(Apply(s, steps[0]), steps[1..])))
  }

  ghost predicate IsRun(s: System, steps: seq<Step>)
    decreases |steps|
  {
    steps == [] || (Enabled(s, steps[0]) && IsRun(Apply(s, steps[0]), steps[1..]))
  }

  ghost function Run(s: System, steps: seq<Step>): System
    requires IsRun(s, steps)
    decreases |steps|
  {
    if steps == [] then s else Run(Apply(s, steps[0]), steps[1..])
  }

  lemma {:induction false} TimelyRunsRun(s: System, steps: seq<Step>)
    requires TimelyRun(s, steps)
    ensures IsRun(s, steps)
    decreases |steps|
  {
    if steps != [] {
      TimelyRunsRun(Apply(s, steps[0]), steps[1..]);
    }
  }

  lemma {:induction false} RunKeeps(s: System, steps: seq<Step>)
    requires Inv(s) && TimelyRun(s, steps)
    ensures IsRun(s, steps) && Inv(Run(s, steps)) && Timely(Run(s, steps))
    decreases |steps|
  {
    hide Inv, Timely, Enabled, Apply;
    TimelyRunsRun(s, steps);
    if steps != [] {
      StepKeeps(s, steps[0]);
      RunKeeps(Apply(s, steps[0]), steps[1..]);
    }
  }

  /** A delivery is over for good: within the lease no step touches the row of a delivery that is over. */
  lemma TerminalStays(s: System, step: Step, id: DeliveryId)
    requires Inv(s) && Timely(s) && Enabled(s, step) && id in s.table && Terminal(s.table[id])
    ensures id in Apply(s, step).table && Apply(s, step).table[id] == s.table[id]
  {
  }

  lemma {:induction false} TerminalStaysOverRuns(s: System, steps: seq<Step>, id: DeliveryId)
    requires Inv(s) && TimelyRun(s, steps) && id in s.table && Terminal(s.table[id])
    ensures IsRun(s, steps) && id in Run(s, steps).table && Run(s, steps).table[id] == s.table[id]
    decreases |steps|
  {
    hide Inv, Timely, Enabled, Apply;
    TimelyRunsRun(s, steps);
    if steps != [] {
      StepKeeps(s, steps[0]);
      TerminalStays(s, steps[0], id);
      TerminalStaysOverRuns(Apply(s, steps[0]), steps[1..], id);
    }
  }

  /** How often a run claims a delivery. */
  function Claims(steps: seq<Step>, id: DeliveryId): nat {
    if steps == [] then 0 else (if steps[0].Take? && steps[0].id == id then 1 else 0) + Claims(steps[1..], id)
  }

  function Attempts(s: System, id: DeliveryId): nat {
    if id in s.table then s.table[id].attempts else 0
  }

  lemma StepCounts(s: System, step: Step, id: DeliveryId)
    requires Enabled(s, step)
    ensures Attempts(Apply(s, step), id) == Attempts(s, id) + Claims([step], id)
  {
  }

  /** The attempts column counts the claims, on every run, timely or not. */
  lemma {:induction false} AttemptsCountClaims(s: System, steps: seq<Step>, id: DeliveryId)
    requires IsRun(s, steps)
    ensures Attempts(Run(s, steps), id) == Attempts(s, id) + Claims(steps, id)
    decreases |steps|
  {
    hide Enabled, Apply;
    if steps != [] {
      StepCounts(s, steps[0], id);
      AttemptsCountClaims(Apply(s, steps[0]), steps[1..], id);
      assert Claims([steps[0]], id) + Claims(steps[1..], id) == Claims(steps, id);
    }
  }

  /**
   On every timely run from an empty outbox at most one worker holds a delivery, its claim agrees with the
   row, and a delivery is claimed at most five times plus once for each claim that died with its worker.
   */
  lemma EveryTimelyRun(steps: seq<Step>)
    requires TimelyRun(EMPTY, steps)
    ensures IsRun(EMPTY, steps)
    ensures ClaimsDistinct(Run(EMPTY, steps)) && ClaimsAgree(Run(EMPTY, steps))
    ensures forall id :: Claims(steps, id) <= MAX_ATTEMPTS + Lost(Run(EMPTY, steps), id)
  {
    RunKeeps(EMPTY, steps);
    forall id ensures Claims(steps, id) <= MAX_ATTEMPTS + Lost(Run(EMPTY, steps), id) {
      AttemptsCountClaims(EMPTY, steps, id);
    }
  }

  // ---------------------------------------------------------------- the bound is reached

  lemma {:induction false} TimelyThen(s: System, a: seq<Step>, b: seq<Step>)
    requires TimelyRun(s, a) && IsRun(s, a) && TimelyRun(Run(s, a), b) && IsRun(Run(s, a), b)
    ensures TimelyRun(s, a + b) && IsRun(s, a + b) && Run(s, a + b) == Run(Run(s, a), b)
    ensures forall id :: Claims(a + b, id) == Claims(a, id) + Claims(b, id)
    decreases |a|
  {
    hide Timely, Enabled, Apply;
    if a == [] {
      assert a + b == b;
    } else {
      assert (a + b)[1..] == a[1..] + b;
      TimelyThen(Apply(s, a[0]), a[1..], b);
    }
  }

  /** Nobody is busy; delivery 0 was attempted n times, lost that often, and may be claimed now. */
  predicate Ready(s: System, n: nat, lost: nat) {
    && s.busy == map[] && 0 in s.table && Eligible(s.table[0], s.now) && s.table[0].attempts == n && Lost(s, 0) == lost
  }

  /** One attempt that fails, and the wait after it. */
  function FailedRound(n: Ordinal): seq<Step>
    requires n < MAX_ATTEMPTS
  {
    [Take(0, 0), Report(0, false), Wait(RetryDelay(n))]
  }

  lemma RetryDelayIsNat(n: Ordinal)
    requires n < MAX_ATTEMPTS
    ensures 0 <= RetryDelay(n)
  {
  }

  /** One attempt whose worker crashes, and the wait for its lease to run out. */
  const LOST_ROUND: seq<Step> := [Take(0, 0), Crash(0), Wait(LEASE)]

  lemma ThreeSteps(s: System, a: Step, b: Step, c: Step, u: System, v: System, w: System)
    requires Timely(s) && Enabled(s, a) && u == Apply(s, a)
    requires Timely(u) && Enabled(u, b) && v == Apply(u, b)
    requires Timely(v) && Enabled(v, c) && w == Apply(v, c) && Timely(w)
    ensures TimelyRun(s, [a, b, c]) && IsRun(s, [a, b, c]) && Run(s, [a, b, c]) == w
  {
    hide Timely, Enabled, Apply;
    assert [a, b, c][1..] == [b, c] && [b, c][1..] == [c] && [c][1..] == [];
    assert TimelyRun(w, []) && IsRun(w, []) && Run(w, []) == w;
    assert TimelyRun(v, [c]) && IsRun(v, [c]) && Run(v, [c]) == w;
    assert TimelyRun(u, [b, c]) && IsRun(u, [b, c]) && Run(u, [b, c]) == w;
  }

  lemma FailedRoundRuns(s: System, n: nat)
    requires Ready(s, n, 0) && n + 1 < MAX_ATTEMPTS
    ensures TimelyRun(s, FailedRound(n + 1)) && IsRun(s, FailedRound(n + 1))
    ensures Ready(Run(s, FailedRound(n + 1)), n + 1, 0)
    ensures Claims(FailedRound(n + 1), 0) == 1
  {
    RetryDelayIsNat(n + 1);
    var u := Apply(s, Take(0, 0));
    var v := Apply(u, Report(0, false));
    var w := Apply(v, Wait(RetryDelay(n + 1)));
    ThreeSteps(s, Take(0, 0), Report(0, false), Wait(RetryDelay(n + 1)), u, v, w);
    assert w.busy == map[];
    CountThree(Report(0, false), Wait(RetryDelay(n + 1)));
  }

  lemma CountThree(b: Step, c: Step)
    requires !b.Take? && !c.Take?
    ensures Claims([Take(0, 0), b, c], 0) == 1
  {
    assert [Take(0, 0), b, c][1..] == [b, c] && [b, c][1..] == [c] && [c][1..] == [];
    assert Claims([], 0) == 0 && Claims([c], 0) == 0 && Claims([b, c], 0) == 0;
  }

  lemma LostRoundRuns(s: System, n: nat, lost: nat)
    requires Ready(s, n, lost)
    ensures TimelyRun(s, LOST_ROUND) && IsRun(s, LOST_ROUND) && Ready(Run(s, LOST_ROUND), n + 1, lost + 1)
    ensures Claims(LOST_ROUND, 0) == 1
  {
    var u := Apply(s, Take(0, 0));
    var v := Apply(u, Crash(0));
    var w := Apply(v, Wait(LEASE));
    ThreeSteps(s, Take(0, 0), Crash(0), Wait(LEASE), u, v, w);
    assert w.busy == map[];
    CountThree(Crash(0), Wait(LEASE));
  }

  lemma {:induction false} FailedRounds(s: System, n: nat) returns (steps: seq<Step>)
    requires Ready(s, 0, 0) && n < MAX_ATTEMPTS
    ensures TimelyRun(s, steps) && IsRun(s, steps) && Ready(Run(s, steps), n, 0) && Claims(steps, 0) == n
    decreases n
  {
    hide Ready, FailedRound;
    if n == 0 {
      steps := [];
      ReadyIsTimely(s, 0, 0);
    } else {
      var before := FailedRounds(s, n - 1);
      FailedRoundRuns(Run(s, before), n - 1);
      TimelyThen(s, before, FailedRound(n));
      steps := before + FailedRound(n);
    }
  }

  lemma ReadyIsTimely(s: System, n: nat, lost: nat)
    requires Ready(s, n, lost)
    ensures Timely(s)
  {
  }

  lemma {:induction false} LostRounds(s: System, n: nat, crashes: nat) returns (steps: seq<Step>)
    requires Ready(s, n, 0)
    ensures TimelyRun(s, steps) && IsRun(s, steps) && Ready(Run(s, steps), n + crashes, crashes)
    ensures Claims(steps, 0) == crashes
    decreases crashes
  {
    hide Ready;
    if crashes == 0 {
      steps := [];
      ReadyIsTimely(s, n, 0);
    } else {
      var before := LostRounds(s, n, crashes - 1);
      LostRoundRuns(Run(s, before), n + crashes - 1, crashes - 1);
      TimelyThen(s, before, LOST_ROUND);
      steps := before + LOST_ROUND;
    }
  }

  lemma LastTake(s: System, n: nat, lost: nat)
    requires Ready(s, n, lost)
    ensures TimelyRun(s, [Take(0, 0)]) && IsRun(s, [Take(0, 0)]) && Lost(Run(s, [Take(0, 0)]), 0) == lost
    ensures Claims([Take(0, 0)], 0) == 1
  {
    var u := Apply(s, Take(0, 0));
    assert [Take(0, 0)][1..] == [];
    assert TimelyRun(u, []) && IsRun(u, []) && Run(u, []) == u;
    assert Claims([], 0) == 0;
  }

  /**
   The bound is exact: for every number of crashes there is a run within the lease that claims a delivery five
   times and once more for each of them.  With one crash that is a sixth time.
   */
  lemma BoundIsReached(crashes: nat) returns (steps: seq<Step>)
    ensures TimelyRun(EMPTY, steps) && IsRun(EMPTY, steps)
    ensures Lost(Run(EMPTY, steps), 0) == crashes && Claims(steps, 0) == MAX_ATTEMPTS + crashes
  {
    var start := [Enqueue(0)];
    var s := Apply(EMPTY, Enqueue(0));
    assert start[1..] == [];
    assert TimelyRun(s, []) && IsRun(s, []) && Run(s, []) == s && Claims([], 0) == 0;
    assert TimelyRun(EMPTY, start) && IsRun(EMPTY, start) && Run(EMPTY, start) == s && Claims(start, 0) == 0;
    assert Ready(s, 0, 0);
    hide Ready, Apply, Timely, Enabled;
    var failed := FailedRounds(s, 4);
    TimelyThen(EMPTY, start, failed);
    var lost := LostRounds(Run(s, failed), 4, crashes);
    TimelyThen(EMPTY, start + failed, lost);
    var end := Run(EMPTY, start + failed + lost);
    LastTake(end, 4 + crashes, crashes);
    TimelyThen(EMPTY, start + failed + lost, [Take(0, 0)]);
    steps := start + failed + lost + [Take(0, 0)];
  }

  // ---------------------------------------------------------------- without the lease

  lemma UnheldTerminalStays(s: System, step: Step, id: DeliveryId)
    requires Enabled(s, step) && id in s.table && Terminal(s.table[id]) && !IsHeld(s, id)
    ensures id in Apply(s, step).table && Apply(s, step).table[id] == s.table[id] && !IsHeld(Apply(s, step), id)
  {
    assert step.Report? ==> s.busy[step.worker].id != id;
  }

  lemma {:induction false} UnheldTerminalStaysOverRuns(s: System, steps: seq<Step>, id: DeliveryId)
    requires IsRun(s, steps) && id in s.table && Terminal(s.table[id]) && !IsHeld(s, id)
    ensures id in Run(s, steps).table && Run(s, steps).table[id] == s.table[id]
    decreases |steps|
  {
    hide Enabled, Apply, Terminal, IsHeld;
    if steps != [] {
      UnheldTerminalStays(s, steps[0], id);
      UnheldTerminalStaysOverRuns(Apply(s, steps[0]), steps[1..], id);
    }
  }

  lemma LateReportChanges(s: System, w: WorkerId, id: DeliveryId) returns (steps: seq<Step>)
    requires id in s.table && Terminal(s.table[id]) && w in s.busy && s.busy[w].id == id
    ensures IsRun(s, steps) && id in Run(s, steps).table && Run(s, steps).table[id] != s.table[id]
  {
    var late := Report(w, s.table[id].status == Failed);
    assert Apply(s, late).table[id].status != s.table[id].status;
    steps := [late];
    ConsRun(s, steps, Apply(s, late));
  }

  /**
   Over all runs, within the lease or not, the row of a delivery that is over never changes again exactly if no
   worker still holds it: a worker that reports late overwrites the outcome.
   */
  lemma TerminalStaysIffNotHeld(s: System, id: DeliveryId)
    requires id in s.table && Terminal(s.table[id])
    ensures (forall steps :: IsRun(s, steps) ==> id in Run(s, steps).table && Run(s, steps).table[id] == s.table[id])
            <==> !IsHeld(s, id)
  {
    if IsHeld(s, id) {
      var w :| w in s.busy && s.busy[w].id == id;
      var steps := LateReportChanges(s, w, id);
    } else {
      forall steps | IsRun(s, steps) ensures id in Run(s, steps).table && Run(s, steps).table[id] == s.table[id] {
        UnheldTerminalStaysOverRuns(s, steps, id);
      }
    }
  }

  /** A run that outlasts the lease by no more than its last instant and sends a delivered message again. */
  lemma LateReportReopens()
    ensures var steps := [Enqueue(0), Take(1, 0), Wait(LEASE), Take(2, 0), Report(2, true), Report(1, false)];
            && IsRun(EMPTY, steps[..5]) && IsRun(EMPTY, steps)
            && var before, after := Run(EMPTY, steps[..5]).table, Run(EMPTY, steps).table;
               && 0 in before && before[0].status == Succeeded
               && 0 in after && after[0].status == Pending
  {
    var steps := [Enqueue(0), Take(1, 0), Wait(LEASE), Take(2, 0), Report(2, true), Report(1, false)];
    var s1 := Apply(EMPTY, steps[0]);
    var s2 := Apply(s1, steps[1]);
    var s3 := Apply(s2, steps[2]);
    var s4 := Apply(s3, steps[3]);
    var s5 := Apply(s4, steps[4]);
    var s6 := Apply(s5, steps[5]);
    assert s5.table[0].status == Succeeded && s6.table[0].status == Pending;
    RunOfSix(steps, s1, s2, s3, s4, s5, s6);
  }

  lemma RunOfSix(steps: seq<Step>, s1: System, s2: System, s3: System, s4: System, s5: System, s6: System)
    requires |steps| == 6
    requires Enabled(EMPTY, steps[0]) && s1 == Apply(EMPTY, steps[0])
    requires Enabled(s1, steps[1]) && s2 == Apply(s1, steps[1])
    requires Enabled(s2, steps[2]) && s3 == Apply(s2, steps[2])
    requires Enabled(s3, steps[3]) && s4 == Apply(s3, steps[3])
    requires Enabled(s4, steps[4]) && s5 == Apply(s4, steps[4])
    requires Enabled(s5, steps[5]) && s6 == Apply(s5, steps[5])
    ensures IsRun(EMPTY, steps[..5]) && Run(EMPTY, steps[..5]) == s5
    ensures IsRun(EMPTY, steps) && Run(EMPTY, steps) == s6
  {
    hide Enabled, Apply;
    ConsRun(s5, steps[5..], s6);
    ConsRun(s4, steps[4..], s6);
    ConsRun(s3, steps[3..], s6);
    ConsRun(s2, steps[2..], s6);
    ConsRun(s1, steps[1..], s6);
    ConsRun(EMPTY, steps, s6);
    ConsRun(s4, steps[4..5], s5);
    ConsRun(s3, steps[3..5], s5);
    ConsRun(s2, steps[2..5], s5);
    ConsRun(s1, steps[1..5], s5);
    ConsRun(EMPTY, steps[..5], s5);
  }

  lemma ConsRun(s: System, steps: seq<Step>, end: System)
    requires steps != [] && Enabled(s, steps[0])
    requires IsRun(Apply(s, steps[0]), steps[1..]) && Run(Apply(s, steps[0]), steps[1..]) == end
    ensures IsRun(s, steps) && Run(s, steps) == end
  {
  }
}
