/**
 Webhook deliveries: the table that workers claim deliveries from and report their results to
 (webhook_service.py).  A claim is a lease of five minutes; a delivery is retried after growing delays.
 Times are in microseconds.
 */
module Webhook {
  import opened Options
  import opened Sets

  type DeliveryId = nat
  type Time = int

  const MINUTE: int := 60_000_000
  const LEASE: int := 5 * MINUTE
  const MAX_ATTEMPTS: nat := 5
  const RETRY_MINUTES: seq<int> := [1, 5, 15, 60, 180]

  datatype Status = Pending | Sending | Succeeded | Failed

  datatype Delivery = Delivery(status: Status, attempts: nat, nextRetryAt: Time, updatedAt: Time)

  /** A worker's copy of what it claimed: attempts is at least one, at is when it claimed. */
  datatype Claim = Claim(id: DeliveryId, attempts: Ordinal, at: Time)

  type Ordinal = n: nat | 1 <= n witness 1

  type Table = map<DeliveryId, Delivery>

  predicate Terminal(d: Delivery) {
    d.status == Succeeded || d.status == Failed
  }

  predicate Eligible(d: Delivery, now: Time) {
    || (d.status == Pending && d.nextRetryAt <= now)
    || (d.status == Sending && d.updatedAt <= now - LEASE)
  }

  function EligibleIds(t: Table, now: Time): set<DeliveryId> {
    set id | id in t && Eligible(t[id], now)
  }

  function Taken(d: Delivery, now: Time): Delivery {
    d.(status := Sending, attempts := d.attempts + 1, updatedAt := now)
  }

  /** _claim_delivery on the given eligible delivery */
  function ClaimOf(t: Table, id: DeliveryId, now: Time): Claim
    requires id in t
  {
    Claim(id, t[id].attempts + 1, now)
  }

  /** The wait after failed attempt n; the table's fifth entry is never reached. */
  function RetryDelay(attempt: Ordinal): int
    requires attempt < MAX_ATTEMPTS
  {
    RETRY_MINUTES[attempt - 1] * MINUTE
  }

  function Reported(d: Delivery, claim: Claim, ok: bool, now: Time): Delivery {
    if ok then d.(status := Succeeded, updatedAt := now)
    else if claim.attempts >= MAX_ATTEMPTS then d.(status := Failed, updatedAt := now)
    else d.(status := Pending, nextRetryAt := now + RetryDelay(claim.attempts), updatedAt := now)
  }

  /** _finish_delivery: it trusts the claim and never looks at the stored status or attempts. */
  function Finished(t: Table, claim: Claim, ok: bool, now: Time): Table {
    if claim.id !in t then t else t[claim.id := Reported(t[claim.id], claim, ok, now)]
  }

  /** The minutes before the next attempt, after each of the first four. */
  const WAITS: seq<int> := [1, 5, 15, 60]

  /**
   A report on an attempt leaves the delivery succeeded exactly if it was a success; a failure leaves it failed
   from the fifth attempt on, and before that waiting for its next one.
   */
  predicate Decided(before: Delivery, after: Delivery, attempt: Ordinal, ok: bool, now: Time) {
    && (after.status == Succeeded <==> ok)
    && (after.status == Failed <==> !ok && attempt >= 5)
    && (after.status == Pending <==> !ok && attempt <= 4)
    && after.attempts == before.attempts && after.updatedAt == now
    && after.nextRetryAt == if !ok && attempt <= 4 then now + WAITS[attempt - 1] * 60_000_000 else before.nextRetryAt
  }

  // ---------------------------------------------------------------- the schedule of one delivery

  /** The row after attempts that each take some time and fail, the next one starting as soon as it may. */
  function AfterFailures(d: Delivery, durations: seq<nat>): Delivery
    requires d.status == Pending
    decreases |durations|
  {
    if durations == [] then d
    else
      var start := d.nextRetryAt;
      var end := start + durations[0];
      var next := Reported(Taken(d, start), Claim(0, d.attempts + 1, start), false, end);
      if next.status == Pending then AfterFailures(next, durations[1..]) else next
  }

  function Total(times: seq<int>): int {
    if times == [] then 0 else times[0] + Total(times[1..])
  }

  /** The row waits for its next attempt until exactly the given time. */
  ghost predicate WaitsUntil(d: Delivery, time: Time) {
    forall t :: Eligible(d, t) <==> time <= t
  }

  /**
   A delivery that always fails waits 1, 5, 15 and 60 minutes after its first four attempts, however long
   these take, and is given up after the fifth.
   */
  lemma FiveFailures(d: Delivery, durations: seq<nat>)
    requires d.status == Pending && d.attempts == 0 && |durations| <= 5
    ensures |durations| <= 4 ==>
              && AfterFailures(d, durations).attempts == |durations|
              && WaitsUntil(AfterFailures(d, durations),
                            d.nextRetryAt + Total(durations) + Total(WAITS[..|durations|]) * MINUTE)
    ensures |durations| == 5 ==>
              AfterFailures(d, durations).status == Failed && AfterFailures(d, durations).attempts == 5
  {
    if |durations| <= 4 {
      Schedule(d, durations);
      assert RETRY_MINUTES[0..|durations|] == WAITS[..|durations|];
    } else {
      LastFailure(d, durations);
    }
  }

  /** A claimed delivery can be claimed again exactly from five minutes later on, and not before unless reported. */
  lemma LeaseRunsOut(d: Delivery, now: Time)
    ensures WaitsUntil(Taken(d, now), now + 300_000_000)
  {
  }

  lemma {:induction false} Schedule(d: Delivery, durations: seq<nat>)
    requires d.status == Pending && d.attempts + |durations| <= 4
    ensures var u := AfterFailures(d, durations);
            && u.status == Pending && u.attempts == d.attempts + |durations|
            && u.nextRetryAt
               == d.nextRetryAt + Total(durations) + Total(RETRY_MINUTES[d.attempts..d.attempts + |durations|]) * MINUTE
    decreases |durations|
  {
    if durations != [] {
      var next := FailOnce(d, durations);
      Schedule(next, durations[1..]);
      var waits := RETRY_MINUTES[d.attempts..d.attempts + |durations|];
      assert waits[1..] == RETRY_MINUTES[d.attempts + 1..d.attempts + |durations|];
    }
  }

  lemma {:induction false} LastFailure(d: Delivery, durations: seq<nat>)
    requires d.status == Pending && d.attempts + |durations| == 5 && durations != []
    ensures AfterFailures(d, durations).status == Failed && AfterFailures(d, durations).attempts == 5
    decreases |durations|
  {
    if d.attempts < 4 {
      var next := FailOnce(d, durations);
      LastFailure(next, durations[1..]);
    }
  }

  lemma FailOnce(d: Delivery, durations: seq<nat>) returns (next: Delivery)
    requires d.status == Pending && d.attempts < 4 && durations != []
    ensures next.status == Pending && next.attempts == d.attempts + 1
    ensures next.nextRetryAt == d.nextRetryAt + durations[0] + RETRY_MINUTES[d.attempts] * MINUTE
    ensures AfterFailures(d, durations) == AfterFailures(next, durations[1..])
  {
    next := Reported(Taken(d, d.nextRetryAt), Claim(0, d.attempts + 1, d.nextRetryAt), false,
                     d.nextRetryAt + durations[0]);
  }

  // ---------------------------------------------------------------- the table

  class Outbox {
    var deliveries: Table

    constructor ()
      ensures deliveries == map[]
    {
      deliveries := map[];
    }

    /** Claims the eligible delivery with the lowest id, if there is one. */
    method ClaimNext(now: Time) returns (claimed: Option<Claim>)
      modifies this
      ensures claimed.None? <==> old(EligibleIds(deliveries, now)) == {}
      ensures claimed.None? ==> deliveries == old(deliveries)
      ensures claimed.Some? ==>
                && var id := claimed.value.id;
                && id in old(EligibleIds(deliveries, now))
                && (forall k :: k in old(EligibleIds(deliveries, now)) ==> id <= k)
                && claimed.value == ClaimOf(old(deliveries), id, now)
                && deliveries == old(deliveries)[id := Taken(old(deliveries)[id], now)]
    {
      var ids := EligibleIds(deliveries, now);
      if ids == {} {
        return None;
      }
      var id := Least(ids);
      var attempts := deliveries[id].attempts + 1;
      deliveries := deliveries[id := deliveries[id].(status := Sending, attempts := attempts, updatedAt := now)];
      claimed := Some(Claim(id, attempts, now));
    }

    method Finish(claimed: Claim, ok: bool, now: Time)
      modifies this
      ensures deliveries == Finished(old(deliveries), claimed, ok, now)
      ensures claimed.id in old(deliveries) ==>
                Decided(old(deliveries)[claimed.id], deliveries[claimed.id], claimed.attempts, ok, now)
    {
      if claimed.id !in deliveries {
        return;
      }
      var d := deliveries[claimed.id].(updatedAt := now);
      if ok {
        d := d.(status := Succeeded);
      } else if claimed.attempts >= MAX_ATTEMPTS {
        d := d.(status := Failed);
      } else {
        d := d.(status := Pending, nextRetryAt := now + RETRY_MINUTES[claimed.attempts - 1] * MINUTE);
      }
      deliveries := deliveries[claimed.id := d];
    }

    /** One round of a worker on its own: the send may fail, and takes from start to end. */
    method DeliverPendingOnce(start: Time, ok: bool, end: Time) returns (delivered: bool)
      modifies this
      ensures delivered <==> old(EligibleIds(deliveries, start)) != {}
      ensures !delivered ==> deliveries == old(deliveries)
      ensures delivered ==>
                var id := Least(old(EligibleIds(deliveries, start)));
                var before := old(deliveries)[id];
                var claim := Claim(id, before.attempts + 1, start);
                && deliveries == old(deliveries)[id := Reported(Taken(before, start), claim, ok, end)]
                && Decided(before.(attempts := before.attempts + 1), deliveries[id], before.attempts + 1, ok, end)
    {
      var claimed := ClaimNext(start);
      if claimed.None? {
        return false;
      }
      Finish(claimed.value, ok, end);
      delivered := true;
    }
  }
}
