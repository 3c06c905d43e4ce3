/**
 Writing the external platform's data back to purchase records (purchase_record_sync_service.py): texts
 and dates are filled in only where they are missing, and a status only moves forward.
 */
module RecordSync {
  import opened Options
  import opened Texts
  import opened PlanNumbers
  import opened Purchases

  // ---------------------------------------------------------------- status

  const APPLIED := "已申购"
  const PURCHASED := "已采购"
  const PARTLY_STOCKED := "部分入库"
  const STOCKED := "已入库"

  /** _STATUS_PROGRESSION: for each target the statuses it may replace. */
  const PROGRESSION: map<string, set<string>> := map[
    STOCKED := {APPLIED, PURCHASED, PARTLY_STOCKED, STOCKED},
    PARTLY_STOCKED := {APPLIED, PURCHASED, PARTLY_STOCKED},
    PURCHASED := {APPLIED, PURCHASED}]

  /** _is_blank */
  predicate IsBlank(text: Option<string>) {
    text.None? || Strip(text.value) == ""
  }

  predicate Moves(status: string, target: Option<string>) {
    && !IsBlank(target)
    && status != Strip(target.value)
    && Strip(target.value) in PROGRESSION && status in PROGRESSION[Strip(target.value)]
  }

  function Progress(status: string, target: Option<string>): string {
    if Moves(status, target) then Strip(target.value) else status
  }

  // ---------------------------------------------------------------- payload

  datatype SyncData = SyncData(
    salesperson: Option<string>,
    contractNo: Option<string>,
    vesselNo: Option<string>,
    consolidationPort: Option<string>,
    consolidationDate: Option<Date>,
    sailingDate: Option<Date>,
    status: Option<string>)

  predicate Fills(value: Option<string>, stored: Option<string>) {
    !IsBlank(value) && IsBlank(stored)
  }

  function Fill(value: Option<string>, stored: Option<string>): Option<string> {
    if Fills(value, stored) then Some(Strip(value.value)) else stored
  }

  predicate FillsDate(value: Option<Date>, stored: Option<Date>) {
    value.Some? && stored.None?
  }

  function FillDate(value: Option<Date>, stored: Option<Date>): Option<Date> {
    if FillsDate(value, stored) then value else stored
  }

  predicate HeaderChanges(h: Header, d: SyncData) {
    || Fills(d.contractNo, h.contractNo) || Fills(d.vesselNo, h.vesselNo)
    || Fills(d.consolidationPort, h.consolidationPort)
    || FillsDate(d.consolidationDate, h.consolidationDate) || FillsDate(d.sailingDate, h.sailingDate)
  }

  function SyncedHeader(h: Header, d: SyncData): Header {
    h.(contractNo := Fill(d.contractNo, h.contractNo), vesselNo := Fill(d.vesselNo, h.vesselNo),
       consolidationPort := Fill(d.consolidationPort, h.consolidationPort),
       consolidationDate := FillDate(d.consolidationDate, h.consolidationDate),
       sailingDate := FillDate(d.sailingDate, h.sailingDate),
       version := h.version + Count(HeaderChanges(h, d)))
  }

  predicate LineChanges(l: LineBody, d: SyncData) {
    Fills(d.salesperson, l.salesperson) || Moves(l.status, d.status)
  }

  function SyncedBody(l: LineBody, d: SyncData): LineBody {
    l.(salesperson := Fill(d.salesperson, l.salesperson), status := Progress(l.status, d.status),
       version := l.version + Count(LineChanges(l, d)))
  }

  function SyncedLine(l: Line, d: SyncData): Line {
    l.(body := SyncedBody(l.body, d))
  }

  // ---------------------------------------------------------------- the service

  function LinesOf(s: Store, trace: string): set<LineId> {
    set l | l in s.t.lines && s.t.lines[l].body.traceNo == Some(trace)
  }

  function HeadersOfLines(s: Store, lines: set<LineId>): set<HeaderId> {
    set l | l in lines && l in s.t.lines && s.t.lines[l].header in s.t.headers :: s.t.lines[l].header
  }

  function SyncHeaders(headers: map<HeaderId, Header>, ids: set<HeaderId>, d: SyncData): map<HeaderId, Header> {
    map h | h in headers :: if h in ids then SyncedHeader(headers[h], d) else headers[h]
  }

  function SyncLines(lines: map<LineId, Line>, ids: set<LineId>, d: SyncData): map<LineId, Line> {
    map l | l in lines :: if l in ids then SyncedLine(lines[l], d) else lines[l]
  }

  function ChangedHeaders(headers: map<HeaderId, Header>, ids: set<HeaderId>, d: SyncData): set<HeaderId> {
    set h | h in ids && h in headers && HeaderChanges(headers[h], d)
  }

  function ChangedLines(lines: map<LineId, Line>, ids: set<LineId>, d: SyncData): set<LineId> {
    set l | l in ids && l in lines && LineChanges(lines[l].body, d)
  }

  datatype SyncError = EmptyTrace | NoSuchRecord

  datatype Affected = Affected(headers: nat, lines: nat)

  datatype SyncOutcome = SyncOutcome(store: Store, result: Result<Affected, SyncError>)

  function Synced(s: Store, trace: string, d: SyncData): Store {
    var lines := LinesOf(s, trace);
    s.(t := s.t.(headers := SyncHeaders(s.t.headers, HeadersOfLines(s, lines), d),
                 lines := SyncLines(s.t.lines, lines, d)))
  }

  function SyncCounts(s: Store, trace: string, d: SyncData): Affected {
    var lines := LinesOf(s, trace);
    Affected(|ChangedHeaders(s.t.headers, HeadersOfLines(s, lines), d)|, |ChangedLines(s.t.lines, lines, d)|)
  }

  /** apply_trace_sync */
  function ApplySync(s: Store, trace: string, d: SyncData): SyncOutcome {
    var t := Strip(trace);
    if t == "" then SyncOutcome(s, Failure(EmptyTrace))
    else if LinesOf(s, t) == {} then SyncOutcome(s, Failure(NoSuchRecord))
    else SyncOutcome(Synced(s, t, d), Success(SyncCounts(s, t, d)))
  }

  // ---------------------------------------------------------------- stripping

  lemma {:induction false} DropLeadingIsSuffix(s: string, blank: char -> bool)
    ensures |DropLeading(s, blank)| <= |s| && DropLeading(s, blank) == s[|s| - |DropLeading(s, blank)|..]
    ensures DropLeading(s, blank) != "" ==> !blank(DropLeading(s, blank)[0])
    decreases |s|
  {
    if s != "" && blank(s[0]) {
      DropLeadingIsSuffix(s[1..], blank);
    }
  }

  lemma {:induction false} DropTrailingIsPrefix(s: string, blank: char -> bool)
    ensures var r := DropTrailing(s, blank);
            |r| <= |s| && r == s[..|r|] && (r != "" ==> !blank(r[|r| - 1]))
            && forall i :: |r| <= i < |s| ==> blank(s[i])
    decreases |s|
  {
    if s != "" && blank(s[|s| - 1]) {
      DropTrailingIsPrefix(s[..|s| - 1], blank);
    }
  }

  lemma {:induction false} DroppedAreBlank(s: string, blank: char -> bool)
    ensures |DropLeading(s, blank)| <= |s|
    ensures forall i :: 0 <= i < |s| - |DropLeading(s, blank)| ==> blank(s[i])
    decreases |s|
  {
    if s != "" && blank(s[0]) {
      DroppedAreBlank(s[1..], blank);
      forall i | 0 <= i < |s| - |DropLeading(s, blank)| ensures blank(s[i]) {
        assert i > 0 ==> s[i] == s[1..][i - 1];
      }
    }
  }

  /** A text whose ends are not blank is left alone. */
  lemma StripKeeps(s: string)
    requires s == "" || (!IsSpace(s[0]) && !IsSpace(s[|s| - 1]))
    ensures Strip(s) == s
  {
  }

  lemma StripMeaning(s: string)
    ensures Strip(s) != "" ==> !IsSpace(Strip(s)[0]) && !IsSpace(Strip(s)[|Strip(s)| - 1])
    ensures Strip(Strip(s)) == Strip(s)
  {
    var front := DropLeading(s, IsSpace);
    DropLeadingIsSuffix(s, IsSpace);
    DropTrailingIsPrefix(front, IsSpace);
    assert Strip(s) == DropTrailing(front, IsSpace);
    if Strip(s) != "" {
      assert Strip(s)[0] == front[0];
    }
    StripKeeps(Strip(s));
  }

  // ---------------------------------------------------------------- once more changes nothing

  lemma FilledIsFull(value: Option<string>, stored: Option<string>)
    ensures !Fills(value, Fill(value, stored))
  {
    if value.Some? {
      StripMeaning(value.value);
    }
  }

  lemma ProgressedStays(status: string, target: Option<string>)
    ensures !Moves(Progress(status, target), target)
  {
  }

  lemma SyncedHeaderStays(h: Header, d: SyncData)
    ensures !HeaderChanges(SyncedHeader(h, d), d) && SyncedHeader(SyncedHeader(h, d), d) == SyncedHeader(h, d)
  {
    FilledIsFull(d.contractNo, h.contractNo);
    FilledIsFull(d.vesselNo, h.vesselNo);
    FilledIsFull(d.consolidationPort, h.consolidationPort);
    hide Fills;
  }

  lemma SyncedLineStays(l: Line, d: SyncData)
    ensures !LineChanges(SyncedLine(l, d).body, d) && SyncedLine(SyncedLine(l, d), d) == SyncedLine(l, d)
  {
    FilledIsFull(d.salesperson, l.body.salesperson);
    ProgressedStays(l.body.status, d.status);
    hide Fills, Moves;
  }

  lemma SyncKeepsTraces(s: Store, trace: string, d: SyncData, other: string)
    ensures LinesOf(Synced(s, trace, d), other) == LinesOf(s, other)
    ensures forall lines :: HeadersOfLines(Synced(s, trace, d), lines) == HeadersOfLines(s, lines)
  {
    var u := Synced(s, trace, d);
    hide SyncedHeader, SyncedBody;
    assert u.t.lines.Keys == s.t.lines.Keys && u.t.headers.Keys == s.t.headers.Keys;
    assert forall l :: l in s.t.lines ==> u.t.lines[l].header == s.t.lines[l].header;
    forall l | l in s.t.lines ensures u.t.lines[l].body.traceNo == s.t.lines[l].body.traceNo {
      SyncedBodyKeepsTrace(s.t.lines[l].body, d);
    }
  }

  lemma SyncedBodyKeepsTrace(l: LineBody, d: SyncData)
    ensures SyncedBody(l, d).traceNo == l.traceNo
  {
  }

  lemma SyncHeadersTwice(headers: map<HeaderId, Header>, ids: set<HeaderId>, d: SyncData)
    ensures SyncHeaders(SyncHeaders(headers, ids, d), ids, d) == SyncHeaders(headers, ids, d)
    ensures ChangedHeaders(SyncHeaders(headers, ids, d), ids, d) == {}
  {
    hide SyncedHeader, HeaderChanges;
    forall h | h in headers ensures SyncedHeader(SyncedHeader(headers[h], d), d) == SyncedHeader(headers[h], d)
                                    && !HeaderChanges(SyncedHeader(headers[h], d), d) {
      SyncedHeaderStays(headers[h], d);
    }
  }

  lemma SyncLinesTwice(lines: map<LineId, Line>, ids: set<LineId>, d: SyncData)
    ensures SyncLines(SyncLines(lines, ids, d), ids, d) == SyncLines(lines, ids, d)
    ensures ChangedLines(SyncLines(lines, ids, d), ids, d) == {}
  {
    hide SyncedLine, LineChanges;
    forall l | l in lines ensures SyncedLine(SyncedLine(lines[l], d), d) == SyncedLine(lines[l], d)
                                  && !LineChanges(SyncedLine(lines[l], d).body, d) {
      SyncedLineStays(lines[l], d);
    }
  }

  /** Writing the same payload back again changes nothing and reports no affected row. */
  lemma SyncIsIdempotent(s: Store, trace: string, d: SyncData)
    requires ApplySync(s, trace, d).result.Success?
    ensures ApplySync(ApplySync(s, trace, d).store, trace, d)
            == SyncOutcome(ApplySync(s, trace, d).store, Success(Affected(0, 0)))
  {
    hide LinesOf, HeadersOfLines, SyncHeaders, SyncLines, ChangedHeaders, ChangedLines, Strip;
    var t := Strip(trace);
    var lines := LinesOf(s, t);
    SyncKeepsTraces(s, t, d, t);
    SyncHeadersTwice(s.t.headers, HeadersOfLines(s, lines), d);
    SyncLinesTwice(s.t.lines, lines, d);
  }

  /** A version goes up by one exactly where something changed, and what is not blank is never overwritten. */
  lemma SyncOnlyFills(h: Header, l: LineBody, d: SyncData)
    ensures var g := SyncedHeader(h, d);
            && (!IsBlank(h.contractNo) ==> g.contractNo == h.contractNo)
            && (!IsBlank(h.vesselNo) ==> g.vesselNo == h.vesselNo)
            && (!IsBlank(h.consolidationPort) ==> g.consolidationPort == h.consolidationPort)
            && (h.consolidationDate.Some? ==> g.consolidationDate == h.consolidationDate)
            && (h.sailingDate.Some? ==> g.sailingDate == h.sailingDate)
            && (g == h || (g.version == h.version + 1 && g.(version := h.version) != h))
    ensures var m := SyncedBody(l, d);
            && (!IsBlank(l.salesperson) ==> m.salesperson == l.salesperson)
            && (m == l || (m.version == l.version + 1 && m.(version := l.version) != l))
  {
    FillChanges(d.contractNo, h.contractNo);
    FillChanges(d.vesselNo, h.vesselNo);
    FillChanges(d.consolidationPort, h.consolidationPort);
    FillChanges(d.salesperson, l.salesperson);
    hide Fill;
  }

  lemma FillChanges(value: Option<string>, stored: Option<string>)
    ensures Fill(value, stored) != stored <==> Fills(value, stored)
  {
    if value.Some? {
      StripMeaning(value.value);
    }
  }

  // ---------------------------------------------------------------- the chain of statuses

  predicate InChain(status: string) {
    status == APPLIED || status == PURCHASED || status == PARTLY_STOCKED || status == STOCKED
  }

  function Rank(status: string): nat {
    if status == PURCHASED then 1 else if status == PARTLY_STOCKED then 2 else if status == STOCKED then 3 else 0
  }

  /** The rank a target asks for; a blank or unknown target asks for nothing. */
  function Asked(target: Option<string>): nat {
    if IsBlank(target) then 0 else Rank(Strip(target.value))
  }

  function Max(a: nat, b: nat): nat {
    if a < b then b else a
  }

  lemma ChainDistinct()
    ensures APPLIED != PURCHASED && APPLIED != PARTLY_STOCKED && APPLIED != STOCKED
    ensures PURCHASED != PARTLY_STOCKED && PURCHASED != STOCKED && PARTLY_STOCKED != STOCKED
  {
    assert APPLIED[1] == '申' && PURCHASED[1] == '采' && PARTLY_STOCKED[1] == '分' && STOCKED[1] == '入';
  }

  lemma RankIsName(a: string, b: string)
    requires InChain(a) && InChain(b) && Rank(a) == Rank(b)
    ensures a == b
  {
    ChainDistinct();
  }

  /** One payload moves a status of the chain to the higher of the two ranks, and no other status. */
  lemma ProgressIsMax(status: string, target: Option<string>)
    ensures InChain(status) ==>
              InChain(Progress(status, target)) && Rank(Progress(status, target)) == Max(Rank(status), Asked(target))
    ensures !InChain(status) ==> Progress(status, target) == status
  {
    ChainDistinct();
    hide Strip;
  }

  function ProgressAll(status: string, targets: seq<Option<string>>): string
    decreases |targets|
  {
    if targets == [] then status else ProgressAll(Progress(status, targets[0]), targets[1..])
  }

  ghost predicate SomeAsks(targets: multiset<Option<string>>, rank: nat) {
    exists t :: t in targets && Asked(t) == rank
  }

  ghost function HighestAsked(targets: multiset<Option<string>>): nat {
    if SomeAsks(targets, 3) then 3 else if SomeAsks(targets, 2) then 2 else if SomeAsks(targets, 1) then 1 else 0
  }

  /**
   However many payloads come and in whatever order, a status of the chain ends at the highest rank among
   itself and all targets; a status outside the chain never moves.
   */
  lemma {:induction false} ProgressAllIsMax(status: string, targets: seq<Option<string>>)
    ensures InChain(status) ==>
              InChain(ProgressAll(status, targets))
              && Rank(ProgressAll(status, targets)) == Max(Rank(status), HighestAsked(multiset(targets)))
    ensures !InChain(status) ==> ProgressAll(status, targets) == status
    decreases |targets|
  {
    hide Asked, Progress, Rank, InChain;
    if targets != [] {
      ProgressIsMax(status, targets[0]);
      ProgressAllIsMax(Progress(status, targets[0]), targets[1..]);
      assert multiset(targets) == multiset{targets[0]} + multiset(targets[1..]) by {
        assert targets == [targets[0]] + targets[1..];
      }
      HighestAdds(targets[0], multiset(targets[1..]));
    }
  }

  lemma HighestAdds(t: Option<string>, rest: multiset<Option<string>>)
    ensures HighestAsked(multiset{t} + rest) == Max(Asked(t), HighestAsked(rest))
  {
    AskedBound(t);
    hide Asked;
    forall r ensures SomeAsks(multiset{t} + rest, r) <==> Asked(t) == r || SomeAsks(rest, r) {
      SomeAsksAdds(t, rest, r);
    }
    hide SomeAsks;
  }

  lemma AskedBound(t: Option<string>)
    ensures Asked(t) <= 3
  {
  }

  lemma SomeAsksAdds(t: Option<string>, rest: multiset<Option<string>>, r: nat)
    ensures SomeAsks(multiset{t} + rest, r) <==> Asked(t) == r || SomeAsks(rest, r)
  {
    hide Asked;
    var all := multiset{t} + rest;
    assert t in all;
    if u :| u in rest && Asked(u) == r {
      assert u in all;
    }
  }

  /** The order of the payloads does not matter. */
  lemma OrderDoesNotMatter(status: string, a: seq<Option<string>>, b: seq<Option<string>>)
    requires multiset(a) == multiset(b)
    ensures ProgressAll(status, a) == ProgressAll(status, b)
  {
    ProgressAllIsMax(status, a);
    ProgressAllIsMax(status, b);
    hide Rank, InChain, ProgressAll, HighestAsked;
    if InChain(status) {
      RankIsName(ProgressAll(status, a), ProgressAll(status, b));
    }
  }

  // ---------------------------------------------------------------- several payloads

  function SyncAll(s: Store, trace: string, ds: seq<SyncData>): Store
    decreases |ds|
  {
    if ds == [] then s else SyncAll(ApplySync(s, trace, ds[0]).store, trace, ds[1..])
  }

  function Targets(ds: seq<SyncData>): seq<Option<string>> {
    seq(|ds|, i requires 0 <= i < |ds| => ds[i].status)
  }

  /** The value that fills a blank: the first that is not blank itself. */
  function FirstGiven(values: seq<Option<string>>, stored: Option<string>): Option<string> {
    if values == [] then stored else FirstGiven(values[1..], Fill(values[0], stored))
  }

  lemma {:induction false} FirstGivenMeaning(values: seq<Option<string>>, stored: Option<string>, i: nat)
    ensures !IsBlank(stored) ==> FirstGiven(values, stored) == stored
    ensures (forall v :: v in values ==> IsBlank(v)) ==> FirstGiven(values, stored) == stored
    ensures (i < |values| && IsBlank(stored) && !IsBlank(values[i])
             && forall j :: 0 <= j < i ==> IsBlank(values[j])) ==>
              FirstGiven(values, stored) == Some(Strip(values[i].value))
    decreases |values|
  {
    if values != [] {
      FilledIsFull(values[0], stored);
      FirstGivenMeaning(values[1..], Fill(values[0], stored), if i == 0 then 0 else i - 1);
      hide Strip;
      assert i > 0 && i < |values| ==> values[1..][i - 1] == values[i];
      assert forall j :: 0 <= j < |values| - 1 ==> values[1..][j] == values[j + 1];
    }
  }

  function Salespersons(ds: seq<SyncData>): seq<Option<string>> {
    seq(|ds|, i requires 0 <= i < |ds| => ds[i].salesperson)
  }

  /** Along any series of payloads for a trace number, what each of its lines ends up with. */
  lemma {:induction false} SyncAllMeaning(s: Store, trace: string, ds: seq<SyncData>, l: LineId)
    requires Strip(trace) != "" && l in LinesOf(s, Strip(trace))
    ensures l in LinesOf(SyncAll(s, trace, ds), Strip(trace))
    ensures var before, after := s.t.lines[l].body, SyncAll(s, trace, ds).t.lines[l].body;
            && after.status == ProgressAll(before.status, Targets(ds))
            && after.salesperson == FirstGiven(Salespersons(ds), before.salesperson)
    decreases |ds|
  {
    hide Strip, Progress, Fill, ApplySync, LinesOf;
    LineIsThere(s, Strip(trace), l);
    if ds != [] {
      SyncedLineAt(s, trace, ds[0], l);
      SyncAllMeaning(ApplySync(s, trace, ds[0]).store, trace, ds[1..], l);
      assert Targets(ds)[1..] == Targets(ds[1..]) && Salespersons(ds)[1..] == Salespersons(ds[1..]);
    }
  }

  lemma LineIsThere(s: Store, trace: string, l: LineId)
    requires l in LinesOf(s, trace)
    ensures l in s.t.lines
  {
  }

  lemma SyncedLineAt(s: Store, trace: string, d: SyncData, l: LineId)
    requires Strip(trace) != "" && l in LinesOf(s, Strip(trace))
    ensures var u := ApplySync(s, trace, d).store;
            && l in LinesOf(u, Strip(trace)) && l in u.t.lines
            && u.t.lines[l].body.status == Progress(s.t.lines[l].body.status, d.status)
            && u.t.lines[l].body.salesperson == Fill(d.salesperson, s.t.lines[l].body.salesperson)
  {
    hide Strip, Progress, Fill;
    SyncKeepsTraces(s, Strip(trace), d, Strip(trace));
  }

  function ContractNoOf(d: SyncData): Option<string> {
    d.contractNo
  }

  function VesselNoOf(d: SyncData): Option<string> {
    d.vesselNo
  }

  function ConsolidationPortOf(d: SyncData): Option<string> {
    d.consolidationPort
  }

  function ConsolidationDateOf(d: SyncData): Option<Date> {
    d.consolidationDate
  }

  function SailingDateOf(d: SyncData): Option<Date> {
    d.sailingDate
  }

  function TextsOf(ds: seq<SyncData>, of: SyncData -> Option<string>): seq<Option<string>> {
    seq(|ds|, i requires 0 <= i < |ds| => of(ds[i]))
  }

  function DatesOf(ds: seq<SyncData>, of: SyncData -> Option<Date>): seq<Option<Date>> {
    seq(|ds|, i requires 0 <= i < |ds| => of(ds[i]))
  }

  /** The first date given, unless there is one already. */
  function FirstDate(values: seq<Option<Date>>, stored: Option<Date>): Option<Date> {
    if values == [] then stored else FirstDate(values[1..], FillDate(values[0], stored))
  }

  lemma {:induction false} FirstDateMeaning(values: seq<Option<Date>>, stored: Option<Date>, i: nat)
    ensures stored.Some? ==> FirstDate(values, stored) == stored
    ensures (forall v :: v in values ==> v.None?) ==> FirstDate(values, stored) == stored
    ensures (i < |values| && stored.None? && values[i].Some? && forall j :: 0 <= j < i ==> values[j].None?) ==>
              FirstDate(values, stored) == values[i]
    decreases |values|
  {
    if values != [] {
      FirstDateMeaning(values[1..], FillDate(values[0], stored), if i == 0 then 0 else i - 1);
      assert i > 0 && i < |values| ==> values[1..][i - 1] == values[i];
      assert forall j :: 0 <= j < |values| - 1 ==> values[1..][j] == values[j + 1];
    }
  }

  /** A header after a series of payloads: each of its five fields holds the first value that fills it. */
  ghost predicate IsFilled(before: Header, after: Header, ds: seq<SyncData>) {
    && after.contractNo == FirstGiven(TextsOf(ds, ContractNoOf), before.contractNo)
    && after.vesselNo == FirstGiven(TextsOf(ds, VesselNoOf), before.vesselNo)
    && after.consolidationPort == FirstGiven(TextsOf(ds, ConsolidationPortOf), before.consolidationPort)
    && after.consolidationDate == FirstDate(DatesOf(ds, ConsolidationDateOf), before.consolidationDate)
    && after.sailingDate == FirstDate(DatesOf(ds, SailingDateOf), before.sailingDate)
  }

  /** Along any series of payloads for a trace number, what the headers of its lines end up with. */
  lemma {:induction false} SyncAllFillsHeaders(s: Store, trace: string, ds: seq<SyncData>, l: LineId)
    requires Strip(trace) != "" && l in LinesOf(s, Strip(trace)) && HasLine(s, l)
    ensures var h, u := s.t.lines[l].header, SyncAll(s, trace, ds);
            HasLine(u, l) && u.t.lines[l].header == h && IsFilled(s.t.headers[h], u.t.headers[h], ds)
    decreases |ds|
  {
    hide Strip, ApplySync, LinesOf, IsFilled;
    var h := s.t.lines[l].header;
    if ds == [] {
      FilledByNothing(s.t.headers[h]);
    } else {
      var u := ApplySync(s, trace, ds[0]).store;
      SyncedHeaderAt(s, trace, ds[0], l);
      SyncAllFillsHeaders(u, trace, ds[1..], l);
      FilledStep(s.t.headers[h], u.t.headers[h], SyncAll(s, trace, ds).t.headers[h], ds);
    }
  }

  lemma FilledByNothing(h: Header)
    ensures IsFilled(h, h, [])
  {
  }

  lemma TextsStep(ds: seq<SyncData>, of: SyncData -> Option<string>, stored: Option<string>)
    requires ds != []
    ensures FirstGiven(TextsOf(ds, of), stored) == FirstGiven(TextsOf(ds[1..], of), Fill(of(ds[0]), stored))
  {
    hide Fill;
    assert TextsOf(ds, of)[1..] == TextsOf(ds[1..], of);
  }

  lemma DatesStep(ds: seq<SyncData>, of: SyncData -> Option<Date>, stored: Option<Date>)
    requires ds != []
    ensures FirstDate(DatesOf(ds, of), stored) == FirstDate(DatesOf(ds[1..], of), FillDate(of(ds[0]), stored))
  {
    hide FillDate;
    assert DatesOf(ds, of)[1..] == DatesOf(ds[1..], of);
  }

  lemma FilledStep(before: Header, middle: Header, after: Header, ds: seq<SyncData>)
    requires ds != [] && IsFilled(middle, after, ds[1..])
    requires middle == SyncedHeader(before, ds[0])
    ensures IsFilled(before, after, ds)
  {
    hide Fill, FillDate, FirstGiven, FirstDate, TextsOf, DatesOf, HeaderChanges;
    TextsStep(ds, ContractNoOf, before.contractNo);
    TextsStep(ds, VesselNoOf, before.vesselNo);
    TextsStep(ds, ConsolidationPortOf, before.consolidationPort);
    DatesStep(ds, ConsolidationDateOf, before.consolidationDate);
    DatesStep(ds, SailingDateOf, before.sailingDate);
  }

  lemma SyncedHeaderAt(s: Store, trace: string, d: SyncData, l: LineId)
    requires Strip(trace) != "" && l in LinesOf(s, Strip(trace)) && HasLine(s, l)
    ensures var h, u := s.t.lines[l].header, ApplySync(s, trace, d).store;
            && l in LinesOf(u, Strip(trace)) && HasLine(u, l) && u.t.lines[l].header == h
            && u.t.headers[h] == SyncedHeader(s.t.headers[h], d)
  {
    hide Strip, SyncedHeader, SyncedBody;
    SyncKeepsTraces(s, Strip(trace), d, Strip(trace));
    assert s.t.lines[l].header in HeadersOfLines(s, LinesOf(s, Strip(trace)));
  }
}
