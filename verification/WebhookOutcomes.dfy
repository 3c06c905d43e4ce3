/**
 What becomes of a delivery: one report decides by its outcome and, if that is a failure, by the attempt it reports;
 and over runs within the lease the last report on a delivery decides.
 */
module WebhookOutcomes {
  import opened Webhook
  import opened WebhookRuns

  // ---------------------------------------------------------------- one report

  /** A report on a stored delivery, whoever makes it and however late; all other deliveries stay. */
  lemma ReportDecides(s: System, worker: WorkerId, ok: bool)
    requires Enabled(s, Report(worker, ok))
    ensures var u, claim := Apply(s, Report(worker, ok)), s.busy[worker];
            && u.table.Keys == s.table.Keys && u.busy == s.busy - {worker} && u.now == s.now && u.lost == s.lost
            && (forall id :: id in s.table && id != claim.id ==> u.table[id] == s.table[id])
            && (claim.id in s.table ==> Decided(s.table[claim.id], u.table[claim.id], claim.attempts, ok, s.now))
  {
  }

  /** A claim puts the delivery, and nothing else, under way: one attempt more, from now on, its due time kept. */
  lemma ClaimStarts(s: System, worker: WorkerId, id: DeliveryId)
    requires Enabled(s, Take(worker, id))
    ensures var u := Apply(s, Take(worker, id));
            && u.table.Keys == s.table.Keys && u.now == s.now && u.lost == s.lost
            && (forall k :: k in s.table && k != id ==> u.table[k] == s.table[k])
            && u.table[id] == Delivery(Sending, s.table[id].attempts + 1, s.table[id].nextRetryAt, s.now)
            && u.busy == s.busy[worker := Claim(id, s.table[id].attempts + 1, s.now)]
  {
  }

  // ---------------------------------------------------------------- runs

  datatype Sent = Sent(attempt: Ordinal, ok: bool)

  /** The reports a run makes on a delivery. */
  ghost function Reports(s: System, steps: seq<Step>, id: DeliveryId): seq<Sent>
    requires IsRun(s, steps)
    decreases |steps|
  {
    if steps == [] then [] else
      var first := if steps[0].Report? && s.busy[steps[0].worker].id == id
                   then [Sent(s.busy[steps[0].worker].attempts, steps[0].ok)] else [];
      first + Reports(Apply(s, steps[0]), steps[1..], id)
  }

  predicate IsOver(s: System, id: DeliveryId) {
    id in s.table && Terminal(s.table[id])
  }

  /** Only the last report can be a success or be on a fifth attempt. */
  predicate OnlyLastDecides(reports: seq<Sent>) {
    forall i :: 0 <= i < |reports| - 1 ==> !reports[i].ok && reports[i].attempt < MAX_ATTEMPTS
  }

  /** The status is what the last report makes it. */
  predicate LastDecides(d: Delivery, reports: seq<Sent>) {
    if reports == [] then !Terminal(d) else
      var last := reports[|reports| - 1];
      && (d.status == Succeeded <==> last.ok)
      && (d.status == Failed <==> !last.ok && last.attempt >= MAX_ATTEMPTS)
  }

  lemma {:induction false} OverIsNotReported(s: System, steps: seq<Step>, id: DeliveryId)
    requires Inv(s) && TimelyRun(s, steps) && IsOver(s, id)
    ensures IsRun(s, steps) && Reports(s, steps, id) == []
    decreases |steps|
  {
    TimelyRunsRun(s, steps);
    if steps != [] {
      StepKeeps(s, steps[0]);
      TerminalStays(s, steps[0], id);
      OverIsNotReportedNow(s, steps[0], id);
      hide Inv, Timely, Enabled, Apply;
      OverIsNotReported(Apply(s, steps[0]), steps[1..], id);
    }
  }

  lemma OverIsNotReportedNow(s: System, step: Step, id: DeliveryId)
    requires Inv(s) && Enabled(s, step) && IsOver(s, id)
    ensures step.Report? ==> s.busy[step.worker].id != id
  {
  }

  /** A step that is no report on the delivery does not decide it. */
  lemma UndecidedStays(s: System, step: Step, id: DeliveryId)
    requires Inv(s) && Enabled(s, step) && !IsOver(s, id)
    requires step.Report? ==> s.busy[step.worker].id != id
    ensures !IsOver(Apply(s, step), id)
  {
  }

  lemma ReportedNow(s: System, step: Step, id: DeliveryId)
    requires Inv(s) && Enabled(s, step) && step.Report? && s.busy[step.worker].id == id
    ensures var u := Apply(s, step);
            && id in s.table && !IsOver(s, id) && id in u.table
            && LastDecides(u.table[id], [Sent(s.busy[step.worker].attempts, step.ok)])
  {
    ReportDecides(s, step.worker, step.ok);
  }

  lemma {:induction false} ReportsDecide(s: System, steps: seq<Step>, id: DeliveryId)
    requires Inv(s) && TimelyRun(s, steps) && !IsOver(s, id)
    ensures IsRun(s, steps) && OnlyLastDecides(Reports(s, steps, id))
    ensures id in Run(s, steps).table ==> LastDecides(Run(s, steps).table[id], Reports(s, steps, id))
    ensures id !in Run(s, steps).table ==> Reports(s, steps, id) == []
    decreases |steps|
  {
    TimelyRunsRun(s, steps);
    if steps != [] {
      StepKeeps(s, steps[0]);
      TableGrows(s, steps[0]);
      var u := Apply(s, steps[0]);
      if steps[0].Report? && s.busy[steps[0].worker].id == id {
        ReportedNow(s, steps[0], id);
        var first := Sent(s.busy[steps[0].worker].attempts, steps[0].ok);
        hide Inv, Timely, Enabled, Apply;
        if IsOver(u, id) {
          OverIsNotReported(u, steps[1..], id);
          TerminalStaysOverRuns(u, steps[1..], id);
          assert Reports(s, steps, id) == [first];
        } else {
          TablesGrow(u, steps[1..]);
          ReportsDecide(u, steps[1..], id);
          PrefixedReports(first, Reports(u, steps[1..], id), Run(u, steps[1..]).table[id]);
        }
      } else {
        UndecidedStays(s, steps[0], id);
        hide Inv, Timely, Enabled, Apply;
        ReportsDecide(u, steps[1..], id);
        assert Reports(s, steps, id) == Reports(u, steps[1..], id);
      }
    }
  }

  lemma PrefixedReports(first: Sent, rest: seq<Sent>, d: Delivery)
    requires !first.ok && first.attempt < MAX_ATTEMPTS && OnlyLastDecides(rest) && LastDecides(d, rest)
    ensures OnlyLastDecides([first] + rest) && LastDecides(d, [first] + rest)
  {
  }

  lemma TableGrows(s: System, step: Step)
    requires Enabled(s, step)
    ensures s.table.Keys <= Apply(s, step).table.Keys
  {
  }

  lemma {:induction false} TablesGrow(s: System, steps: seq<Step>)
    requires IsRun(s, steps)
    ensures s.table.Keys <= Run(s, steps).table.Keys
    decreases |steps|
  {
    if steps != [] {
      TableGrows(s, steps[0]);
      hide Enabled, Apply;
      TablesGrow(Apply(s, steps[0]), steps[1..]);
    }
  }

  predicate SomeSuccess(reports: seq<Sent>) {
    exists i :: 0 <= i < |reports| && reports[i].ok
  }

  predicate SomeFifth(reports: seq<Sent>) {
    exists i :: 0 <= i < |reports| && reports[i].attempt >= MAX_ATTEMPTS
  }

  /**
   On every timely run from an empty outbox a delivery has succeeded exactly if some report on it was a success, and
   has failed exactly if none was and one was on a fifth attempt or a later one; the last report is the only one
   that can be either.
   */
  lemma EveryDeliveryIsDecided(steps: seq<Step>, id: DeliveryId)
    requires TimelyRun(EMPTY, steps)
    ensures IsRun(EMPTY, steps) && OnlyLastDecides(Reports(EMPTY, steps, id))
    ensures id in Run(EMPTY, steps).table ==>
              var d, reports := Run(EMPTY, steps).table[id], Reports(EMPTY, steps, id);
              && (d.status == Succeeded <==> SomeSuccess(reports))
              && (d.status == Failed <==> !SomeSuccess(reports) && SomeFifth(reports))
  {
    ReportsDecide(EMPTY, steps, id);
    if id in Run(EMPTY, steps).table {
      LastIsSome(Run(EMPTY, steps).table[id], Reports(EMPTY, steps, id));
    }
  }

  lemma LastIsSome(d: Delivery, reports: seq<Sent>)
    requires OnlyLastDecides(reports) && LastDecides(d, reports)
    ensures d.status == Succeeded <==> SomeSuccess(reports)
    ensures d.status == Failed <==> !SomeSuccess(reports) && SomeFifth(reports)
  {
    if reports != [] {
      var last := |reports| - 1;
      assert reports[last].ok ==> SomeSuccess(reports);
      assert reports[last].attempt >= MAX_ATTEMPTS ==> SomeFifth(reports);
    }
  }
}
