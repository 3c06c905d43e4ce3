/**
 Which record lines are still to be synchronised (the query behind list_sync_targets), and how writing
 data back settles them.
 */
module SyncTargets {
  import opened Options
  import opened Texts
  import opened Tables
  import opened Purchases
  import opened RecordSync
  import opened PurchaseRuns
  import Pager
  import PurchaseDates

  datatype SyncField =
    | Salesperson | ContractNo | VesselNo | ConsolidationDate | ConsolidationPort | SailingDate | StatusField

  /** Without a list of fields every field counts, except the status. */
  function Active(fields: set<SyncField>): set<SyncField> {
    if fields == {} then {Salesperson, ContractNo, VesselNo, ConsolidationDate, ConsolidationPort, SailingDate}
    else fields
  }

  /** column IS NULL OR TRIM(column) = '' */
  predicate SqlBlank(text: Option<string>) {
    text.None? || Trim(text.value) == ""
  }

  predicate Lacks(l: LineBody, h: Header, field: SyncField) {
    match field
    case Salesperson => SqlBlank(l.salesperson)
    case ContractNo => SqlBlank(h.contractNo)
    case VesselNo => SqlBlank(h.vesselNo)
    case ConsolidationDate => h.consolidationDate.None?
    case ConsolidationPort => SqlBlank(h.consolidationPort)
    case SailingDate => h.sailingDate.None?
    case StatusField => l.status in {APPLIED, PURCHASED, PARTLY_STOCKED}
  }

  /** The line has a trace number, lacks one of the fields, and its order number is not before the cutoff. */
  predicate IsDue(l: LineBody, h: Header, fields: set<SyncField>, cutoff: string) {
    && !SqlBlank(l.traceNo)
    && (exists field :: field in Active(fields) && Lacks(l, h, field))
    && (cutoff == "" || (h.purchaseOrderNo.Some? && LexLe(cutoff, Trim(h.purchaseOrderNo.value))))
  }

  predicate DueLine(s: Store, l: LineId, fields: set<SyncField>, cutoff: string)
    requires l in s.t.lines
  {
    s.t.lines[l].header in s.t.headers && IsDue(s.t.lines[l].body, s.t.headers[s.t.lines[l].header], fields, cutoff)
  }

  function DueRows(s: Store, fields: set<SyncField>, cutoff: string): Pager.Rows {
    map l | l in s.t.lines && DueLine(s, l, fields, cutoff) && s.t.lines[l].body.traceNo.Some? ::
      s.t.lines[l].body.traceNo.value
  }

  /** list_sync_targets */
  function ListTargets(s: Store, limit: nat, cursor: Pager.RowId, fields: set<SyncField>, cutoff: string): Pager.Page {
    Pager.PageAt(DueRows(s, fields, Strip(cutoff)), limit, cursor)
  }

  // ---------------------------------------------------------------- the two notions of blank

  lemma {:induction false} AllBlankIsDropped(s: string, blank: char -> bool)
    requires forall i :: 0 <= i < |s| ==> blank(s[i])
    ensures DropLeading(s, blank) == ""
    decreases |s|
  {
    if s != "" {
      AllBlankIsDropped(s[1..], blank);
    }
  }

  predicate AllSpaces(s: string) {
    forall i :: 0 <= i < |s| ==> s[i] == ' '
  }

  predicate AllWhitespace(s: string) {
    forall i :: 0 <= i < |s| ==> IsSpace(s[i])
  }

  lemma TrimsAwayIff(s: string)
    ensures Trim(s) == "" <==> AllSpaces(s)
  {
    var space := (c: char) => c == ' ';
    var front := DropLeading(s, space);
    assert Trim(s) == DropTrailing(front, space);
    DropLeadingIsSuffix(s, space);
    DropTrailingIsPrefix(front, space);
    DroppedAreBlank(s, space);
    if AllSpaces(s) {
      AllBlankIsDropped(s, space);
    }
  }

  lemma StripsAwayIff(s: string)
    ensures Strip(s) == "" <==> AllWhitespace(s)
  {
    var front := DropLeading(s, IsSpace);
    assert Strip(s) == DropTrailing(front, IsSpace);
    DropLeadingIsSuffix(s, IsSpace);
    DropTrailingIsPrefix(front, IsSpace);
    DroppedAreBlank(s, IsSpace);
    if AllWhitespace(s) {
      AllBlankIsDropped(s, IsSpace);
    }
  }

  /**
   The query and the service agree on whether a text is blank unless it is all whitespace and some of that is
   not a space; so they agree on every text that was stripped before it was stored.
   */
  lemma BlanksAgreeIff(text: string)
    ensures (SqlBlank(Some(text)) <==> IsBlank(Some(text))) <==> (AllWhitespace(text) ==> AllSpaces(text))
    ensures Strip(text) == text ==> (SqlBlank(Some(text)) <==> IsBlank(Some(text)))
  {
    TrimsAwayIff(text);
    StripsAwayIff(text);
  }

  lemma SqlBlankIsBlank(text: Option<string>)
    ensures SqlBlank(text) ==> IsBlank(text)
  {
    if text.Some? {
      TrimsAwayIff(text.value);
      StripsAwayIff(text.value);
    }
  }

  lemma FilledIsNotBlank(value: Option<string>, stored: Option<string>)
    requires !IsBlank(value)
    ensures !SqlBlank(Fill(value, stored))
  {
    StripMeaning(value.value);
    SqlBlankIsBlank(Fill(value, stored));
  }

  lemma FillSettles(value: Option<string>, stored: Option<string>)
    ensures SqlBlank(Fill(value, stored)) ==> SqlBlank(stored)
  {
    if !IsBlank(value) {
      FilledIsNotBlank(value, stored);
    }
  }

  // ---------------------------------------------------------------- settling

  lemma ProgressSettles(status: string, target: Option<string>)
    ensures Progress(status, target) in {APPLIED, PURCHASED, PARTLY_STOCKED} ==>
              status in {APPLIED, PURCHASED, PARTLY_STOCKED}
    ensures !IsBlank(target) && Strip(target.value) == STOCKED ==>
              Progress(status, target) !in {APPLIED, PURCHASED, PARTLY_STOCKED}
  {
    ChainDistinct();
    hide Strip;
  }

  lemma LacksLess(l: LineBody, h: Header, d: SyncData, e: SyncData, field: SyncField)
    requires d == e || d == Nothing()
    ensures Lacks(SyncedBody(l, d), SyncedHeader(h, e), field) ==> Lacks(l, h, field)
  {
    FillSettles(d.salesperson, l.salesperson);
    FillSettles(e.contractNo, h.contractNo);
    FillSettles(e.vesselNo, h.vesselNo);
    FillSettles(e.consolidationPort, h.consolidationPort);
    ProgressSettles(l.status, d.status);
    hide Fill, Progress, SqlBlank, LineChanges, HeaderChanges;
  }

  /** A payload without data. */
  function Nothing(): SyncData {
    SyncData(None, None, None, None, None, None, None)
  }

  lemma NothingChanges(l: LineBody, h: Header)
    ensures SyncedBody(l, Nothing()) == l && SyncedHeader(h, Nothing()) == h
  {
  }

  lemma SyncKeepsKeys(l: LineBody, h: Header, d: SyncData)
    ensures SyncedBody(l, d).traceNo == l.traceNo && SyncedHeader(h, d).purchaseOrderNo == h.purchaseOrderNo
  {
  }

  lemma DueLess(l: LineBody, h: Header, d: SyncData, e: SyncData, fields: set<SyncField>, cutoff: string)
    requires d == e || d == Nothing()
    ensures IsDue(SyncedBody(l, d), SyncedHeader(h, e), fields, cutoff) ==> IsDue(l, h, fields, cutoff)
  {
    SyncKeepsKeys(l, h, d);
    SyncKeepsKeys(l, h, e);
    hide Lacks, SyncedBody, SyncedHeader, Trim, LexLe, SqlBlank;
    if IsDue(SyncedBody(l, d), SyncedHeader(h, e), fields, cutoff) {
      var field :| field in Active(fields) && Lacks(SyncedBody(l, d), SyncedHeader(h, e), field);
      LacksLess(l, h, d, e, field);
    }
  }

  /** How a sync leaves any one line and its header. */
  lemma SyncedAt(s: Store, trace: string, d: SyncData, l: LineId)
    requires l in s.t.lines && s.t.lines[l].header in s.t.headers
    ensures var u := Synced(s, trace, d);
            var h := s.t.lines[l].header;
            && l in u.t.lines && u.t.lines[l].header == h && h in u.t.headers
            && u.t.lines[l].body == SyncedBody(s.t.lines[l].body, if l in LinesOf(s, trace) then d else Nothing())
            && (u.t.headers[h] == SyncedHeader(s.t.headers[h], d)
                || (l !in LinesOf(s, trace) && u.t.headers[h] == SyncedHeader(s.t.headers[h], Nothing())))
  {
    NothingChanges(s.t.lines[l].body, s.t.headers[s.t.lines[l].header]);
    hide SyncedBody, SyncedHeader;
    if l in LinesOf(s, trace) {
      assert s.t.lines[l].header in HeadersOfLines(s, LinesOf(s, trace));
    }
  }

  lemma SyncedDueLess(s: Store, trace: string, d: SyncData, l: LineId, fields: set<SyncField>, cutoff: string)
    requires l in s.t.lines && l in Synced(s, trace, d).t.lines && DueLine(Synced(s, trace, d), l, fields, cutoff)
    requires s.t.lines[l].header in s.t.headers
    ensures DueLine(s, l, fields, cutoff)
  {
    var h := s.t.headers[s.t.lines[l].header];
    SyncedAt(s, trace, d, l);
    DueLess(s.t.lines[l].body, h, d, d, fields, cutoff);
    DueLess(s.t.lines[l].body, h, Nothing(), d, fields, cutoff);
    DueLess(s.t.lines[l].body, h, Nothing(), Nothing(), fields, cutoff);
    hide IsDue, Synced, SyncedBody, SyncedHeader, LinesOf;
  }

  /** Writing data back never makes a line due. */
  lemma SyncOnlySettles(s: Store, trace: string, d: SyncData, fields: set<SyncField>, cutoff: string)
    requires Valid(s)
    ensures DueRows(ApplySync(s, trace, d).store, fields, cutoff).Keys <= DueRows(s, fields, cutoff).Keys
  {
    var u := ApplySync(s, trace, d).store;
    forall l | l in DueRows(u, fields, cutoff) ensures l in DueRows(s, fields, cutoff) {
      if u != s {
        DueBefore(s, Strip(trace), d, l, fields, cutoff);
      }
    }
  }

  lemma DueBefore(s: Store, trace: string, d: SyncData, l: LineId, fields: set<SyncField>, cutoff: string)
    requires Valid(s) && l in DueRows(Synced(s, trace, d), fields, cutoff)
    ensures l in DueRows(s, fields, cutoff)
  {
    hide SyncedBody, SyncedHeader, IsDue;
    assert l in s.t.lines && s.t.lines[l].header in OwningHeaders(s.t);
    SyncedDueLess(s, trace, d, l, fields, cutoff);
    SyncedAt(s, trace, d, l);
    SyncKeepsKeys(s.t.lines[l].body, s.t.headers[s.t.lines[l].header], d);
    SyncKeepsKeys(s.t.lines[l].body, s.t.headers[s.t.lines[l].header], Nothing());
  }

  // ---------------------------------------------------------------- paging while data is written back

  /** Each store is the one before with one more payload written back. */
  ghost predicate IsSyncHistory(stores: seq<Store>) {
    forall k :: 0 <= k < |stores| - 1 ==> IsSynced(stores[k], stores[k + 1])
  }

  ghost predicate IsSynced(s: Store, u: Store) {
    exists trace, d :: u == ApplySync(s, trace, d).store
  }

  /** What the client is shown that takes each page from the store of its time. */
  function ListedOver(stores: seq<Store>, limit: nat, cursor: Pager.RowId, fields: set<SyncField>, cutoff: string)
    : seq<Pager.Target>
    decreases |stores|
  {
    if stores == [] then [] else
      var page := ListTargets(stores[0], limit, cursor, fields, cutoff);
      if page.items == [] then [] else page.items + ListedOver(stores[1..], limit, page.nextCursor, fields, cutoff)
  }

  /** It gets to an empty page. */
  predicate ListingEnds(stores: seq<Store>, limit: nat, cursor: Pager.RowId, fields: set<SyncField>, cutoff: string)
    decreases |stores|
  {
    && stores != []
    && var page := ListTargets(stores[0], limit, cursor, fields, cutoff);
       page.items == [] || ListingEnds(stores[1..], limit, page.nextCursor, fields, cutoff)
  }

  function TablesOf(stores: seq<Store>, fields: set<SyncField>, cutoff: string): seq<Pager.Rows> {
    seq(|stores|, k requires 0 <= k < |stores| => DueRows(stores[k], fields, Strip(cutoff)))
  }

  lemma {:induction false} ListingIsWalk(stores: seq<Store>, limit: nat, cursor: Pager.RowId, fields: set<SyncField>,
                                         cutoff: string)
    ensures ListedOver(stores, limit, cursor, fields, cutoff)
            == Pager.WalkOver(TablesOf(stores, fields, cutoff), limit, cursor)
    ensures ListingEnds(stores, limit, cursor, fields, cutoff)
            <==> Pager.Ends(TablesOf(stores, fields, cutoff), limit, cursor)
    decreases |stores|
  {
    hide DueRows, Strip, Pager.PageAt;
    if stores != [] {
      assert TablesOf(stores, fields, cutoff)[1..] == TablesOf(stores[1..], fields, cutoff);
      ListingIsWalk(stores[1..], limit, ListTargets(stores[0], limit, cursor, fields, cutoff).nextCursor, fields,
                    cutoff);
    }
  }

  /** A line that is due now was due before, under the same trace number. */
  lemma SyncKeepsTrace(s: Store, trace: string, d: SyncData, l: LineId, fields: set<SyncField>, cutoff: string)
    requires Valid(s) && l in DueRows(ApplySync(s, trace, d).store, fields, cutoff)
    ensures l in DueRows(s, fields, cutoff)
    ensures DueRows(s, fields, cutoff)[l] == DueRows(ApplySync(s, trace, d).store, fields, cutoff)[l]
  {
    SyncOnlySettles(s, trace, d, fields, cutoff);
    assert l in DueRows(ApplySync(s, trace, d).store, fields, cutoff).Keys;
    DueRowIsTrace(s, l, fields, cutoff);
    DueRowIsTrace(ApplySync(s, trace, d).store, l, fields, cutoff);
    SyncKeepsTraceNo(s, trace, d, l);
    hide DueRows, ApplySync;
  }

  lemma DueRowIsTrace(s: Store, l: LineId, fields: set<SyncField>, cutoff: string)
    requires l in DueRows(s, fields, cutoff)
    ensures l in s.t.lines && s.t.lines[l].body.traceNo == Some(DueRows(s, fields, cutoff)[l])
  {
    hide IsDue;
  }

  lemma SyncKeepsTraceNo(s: Store, trace: string, d: SyncData, l: LineId)
    requires l in s.t.lines
    ensures var u := ApplySync(s, trace, d).store;
            l in u.t.lines && u.t.lines[l].body.traceNo == s.t.lines[l].body.traceNo
  {
    SyncedBodyKeepsTrace(s.t.lines[l].body, d);
    hide SyncedHeader, SyncedBody, Strip;
  }

  lemma {:induction false} DueAllAlong(stores: seq<Store>, k: nat, l: LineId, fields: set<SyncField>, cutoff: string)
    requires IsSyncHistory(stores) && k < |stores| && Valid(stores[0])
    requires l in DueRows(stores[|stores| - 1], fields, cutoff)
    ensures Valid(stores[k]) && l in DueRows(stores[k], fields, cutoff)
    ensures DueRows(stores[k], fields, cutoff)[l] == DueRows(stores[|stores| - 1], fields, cutoff)[l]
    decreases |stores| - k
  {
    hide Valid, DueRows, ApplySync, Items;
    HistoryIsValid(stores, k);
    if k < |stores| - 1 {
      DueAllAlong(stores, k + 1, l, fields, cutoff);
      assert IsSynced(stores[k], stores[k + 1]);
      var trace, d :| stores[k + 1] == ApplySync(stores[k], trace, d).store;
      SyncKeepsTrace(stores[k], trace, d, l, fields, cutoff);
    }
  }

  lemma {:induction false} HistoryIsValid(stores: seq<Store>, k: nat)
    requires IsSyncHistory(stores) && k < |stores| && Valid(stores[0])
    ensures Valid(stores[k])
    decreases k
  {
    hide Valid, ApplySync, Items;
    if k > 0 {
      HistoryIsValid(stores, k - 1);
      assert IsSynced(stores[k - 1], stores[k]);
      var trace, d :| stores[k] == ApplySync(stores[k - 1], trace, d).store;
      SyncKeeps(stores[k - 1], trace, d);
    }
  }

  /**
   Paging from the start while payloads are written back between the pages, whatever they hold: when an empty
   page comes, every trace number that is still due has been shown.
   */
  lemma StillDueIsShown(stores: seq<Store>, limit: nat, fields: set<SyncField>, cutoff: string, l: LineId)
    requires limit >= 1 && stores != [] && Valid(stores[0]) && IsSyncHistory(stores)
    requires ListingEnds(stores, limit, 0, fields, cutoff)
    requires l in DueRows(stores[|stores| - 1], fields, Strip(cutoff))
    ensures Pager.Shown(ListedOver(stores, limit, 0, fields, cutoff),
                        DueRows(stores[|stores| - 1], fields, Strip(cutoff))[l])
  {
    hide Valid, DueRows, Strip, ListedOver, ListingEnds, IsSyncHistory;
    var tables := TablesOf(stores, fields, cutoff);
    var trace := DueRows(stores[|stores| - 1], fields, Strip(cutoff))[l];
    ListingIsWalk(stores, limit, 0, fields, cutoff);
    forall k | 0 <= k < |tables| ensures l in tables[k] && tables[k][l] == trace {
      DueAllAlong(stores, k, l, fields, Strip(cutoff));
    }
    Pager.NothingOmitted(tables, limit, 0, l, trace);
  }

  // ---------------------------------------------------------------- the default list of fields

  const ALL_FIELDS: set<SyncField> :=
    {Salesperson, ContractNo, VesselNo, ConsolidationDate, ConsolidationPort, SailingDate, StatusField}

  /** The line lacks nothing but a final status. */
  ghost predicate LacksOnlyStatus(l: LineBody, h: Header) {
    Lacks(l, h, StatusField) && forall field :: field in Active({}) ==> !Lacks(l, h, field)
  }

  lemma AllAreListed(field: SyncField)
    ensures field in ALL_FIELDS && field in Active(ALL_FIELDS)
  {
    assert Salesperson in ALL_FIELDS;
    match field
    case _ =>
  }

  lemma DueIff(l: LineBody, h: Header, fields: set<SyncField>, cutoff: string)
    ensures IsDue(l, h, fields, cutoff)
            <==> IsDue(l, h, ALL_FIELDS, cutoff) && exists field :: field in Active(fields) && Lacks(l, h, field)
  {
    hide Lacks, SqlBlank, LexLe, Trim;
    if field :| field in Active(fields) && Lacks(l, h, field) {
      AllAreListed(field);
    }
  }

  /**
   Asking for no field in particular finds the same lines as asking for every field if and only if no line
   that is due lacks nothing but a final status: the default leaves the status out.
   */
  lemma DefaultCoversAllIff(s: Store, cutoff: string)
    ensures DueRows(s, {}, cutoff) == DueRows(s, ALL_FIELDS, cutoff)
            <==> forall l :: l in DueRows(s, ALL_FIELDS, cutoff) ==>
                   !LacksOnlyStatus(s.t.lines[l].body, s.t.headers[s.t.lines[l].header])
  {
    forall l | l in s.t.lines && s.t.lines[l].header in s.t.headers
      ensures l in DueRows(s, {}, cutoff)
              <==> l in DueRows(s, ALL_FIELDS, cutoff)
                   && !LacksOnlyStatus(s.t.lines[l].body, s.t.headers[s.t.lines[l].header])
    {
      DueByDefaultIff(s.t.lines[l].body, s.t.headers[s.t.lines[l].header], cutoff);
    }
    hide IsDue, LacksOnlyStatus;
    var some, all := DueRows(s, {}, cutoff), DueRows(s, ALL_FIELDS, cutoff);
    assert forall l :: l in some || l in all ==> l in s.t.lines && s.t.lines[l].header in s.t.headers;
    forall l | l in some && l in all ensures some[l] == all[l] {
      DueRowIsTrace(s, l, {}, cutoff);
      DueRowIsTrace(s, l, ALL_FIELDS, cutoff);
    }
    hide DueRows;
    if some.Keys == all.Keys {
      SameRows(some, all);
    }
  }

  lemma SameRows(a: Pager.Rows, b: Pager.Rows)
    requires a.Keys == b.Keys && forall l :: l in a && l in b ==> a[l] == b[l]
    ensures a == b
  {
    assert forall l :: l in a ==> l in a.Keys && l in b;
  }

  lemma DueByDefaultIff(l: LineBody, h: Header, cutoff: string)
    ensures IsDue(l, h, {}, cutoff) <==> IsDue(l, h, ALL_FIELDS, cutoff) && !LacksOnlyStatus(l, h)
  {
    DueIff(l, h, {}, cutoff);
    hide Lacks, SqlBlank, LexLe, Trim;
    if IsDue(l, h, ALL_FIELDS, cutoff) {
      var field :| field in Active(ALL_FIELDS) && Lacks(l, h, field);
      assert field in Active({}) || field == StatusField;
    }
  }

  /** A complete line that is only applied for. */
  lemma CompleteLineLacksOnlyStatus(l: LineBody, h: Header)
    requires l.traceNo == Some("T") && l.salesperson == Some("S") && l.status == APPLIED
    requires h.contractNo == Some("C") && h.vesselNo == Some("V") && h.consolidationPort == Some("P")
    requires h.consolidationDate.Some? && h.sailingDate.Some?
    ensures IsDue(l, h, ALL_FIELDS, "") && !IsDue(l, h, {}, "")
  {
    LettersAreNotBlank();
    hide SqlBlank;
    assert StatusField in Active(ALL_FIELDS) && Lacks(l, h, StatusField);
  }

  /** One line, complete but only applied for. */
  const APPLIED_LINE: LineBody :=
    LineBody("20250101", None, None, "", "bolt", "", "", "", "", None, None, 1, APPLIED, "", None, Some("T"), Some("S"),
             [], 1)

  const COMPLETE_HEADER: Header :=
    Header(None, Some("C"), Some("V"), Some("20250101"), Some("P"), Some("20250101"), None, None, 1)

  lemma OneRecordDue(l: LineBody, h: Header, fields: set<SyncField>)
    requires l.traceNo == Some("T")
    ensures DueRows(PurchaseDates.OneRecord(l, h), fields, "")
            == if IsDue(l, h, fields, "") then map[1 := "T"] else map[]
  {
    hide IsDue;
  }

  /** A valid store whose only line is due when every field is asked for, and not by default. */
  lemma DefaultLeavesOutStatus()
    ensures var s := PurchaseDates.OneRecord(APPLIED_LINE, COMPLETE_HEADER);
            Valid(s) && DueRows(s, ALL_FIELDS, "") == map[1 := "T"] && DueRows(s, {}, "") == map[]
  {
    PurchaseDates.OneRecordIsValid(APPLIED_LINE, COMPLETE_HEADER);
    CompleteLineLacksOnlyStatus(APPLIED_LINE, COMPLETE_HEADER);
    hide IsDue, DueRows, Valid, PurchaseDates.Dated, PurchaseDates.OneRecord;
    OneRecordDue(APPLIED_LINE, COMPLETE_HEADER, ALL_FIELDS);
    OneRecordDue(APPLIED_LINE, COMPLETE_HEADER, {});
  }

  lemma LettersAreNotBlank()
    ensures !SqlBlank(Some("T")) && !SqlBlank(Some("S")) && !SqlBlank(Some("C")) && !SqlBlank(Some("V"))
    ensures !SqlBlank(Some("P"))
  {
    LetterIsNotBlank('T');
    LetterIsNotBlank('S');
    LetterIsNotBlank('C');
    LetterIsNotBlank('V');
    LetterIsNotBlank('P');
  }

  lemma LetterIsNotBlank(c: char)
    requires c != ' '
    ensures !SqlBlank(Some([c]))
  {
    TrimsAwayIff([c]);
    assert [c][0] == c;
  }

  // ---------------------------------------------------------------- a full payload

  /** The fields the user script asks for. */
  const SCRIPT_FIELDS: set<SyncField> := {ContractNo, VesselNo, Salesperson, StatusField}

  predicate IsFull(d: SyncData) {
    && !IsBlank(d.contractNo) && !IsBlank(d.vesselNo) && !IsBlank(d.salesperson)
    && !IsBlank(d.status) && Strip(d.status.value) == STOCKED
  }

  lemma FullLacksNothing(l: LineBody, h: Header, d: SyncData, field: SyncField)
    requires IsFull(d) && field in SCRIPT_FIELDS
    ensures !Lacks(SyncedBody(l, d), SyncedHeader(h, d), field)
  {
    FilledIsNotBlank(d.contractNo, h.contractNo);
    FilledIsNotBlank(d.vesselNo, h.vesselNo);
    FilledIsNotBlank(d.salesperson, l.salesperson);
    ProgressSettles(l.status, d.status);
    hide Fill, Progress, SqlBlank, LineChanges, HeaderChanges;
  }

  /** After a payload with all four fields and the final status no line of its trace number is due any more. */
  lemma FullPayloadSettles(s: Store, trace: string, d: SyncData, cutoff: string)
    requires IsFull(d) && Strip(trace) == trace && ApplySync(s, trace, d).result.Success?
    ensures var rows := DueRows(ApplySync(s, trace, d).store, SCRIPT_FIELDS, cutoff);
            forall l :: l in rows ==> rows[l] != trace
  {
    var u := Synced(s, trace, d);
    forall l | l in DueRows(u, SCRIPT_FIELDS, cutoff) ensures DueRows(u, SCRIPT_FIELDS, cutoff)[l] != trace {
      if u.t.lines[l].body.traceNo == Some(trace) {
        SettledLine(s, trace, d, l, cutoff);
      }
    }
  }

  lemma SettledLine(s: Store, trace: string, d: SyncData, l: LineId, cutoff: string)
    requires IsFull(d) && l in s.t.lines && l in Synced(s, trace, d).t.lines
    requires Synced(s, trace, d).t.lines[l].body.traceNo == Some(trace)
    ensures !DueLine(Synced(s, trace, d), l, SCRIPT_FIELDS, cutoff)
  {
    if DueLine(Synced(s, trace, d), l, SCRIPT_FIELDS, cutoff) {
      var h := s.t.headers[s.t.lines[l].header];
      SyncedAt(s, trace, d, l);
      SyncKeepsKeys(s.t.lines[l].body, h, d);
      SyncKeepsKeys(s.t.lines[l].body, h, Nothing());
      hide SyncedBody, SyncedHeader, Lacks, Synced;
      assert l in LinesOf(s, trace);
      forall field | field in SCRIPT_FIELDS
        ensures !Lacks(SyncedBody(s.t.lines[l].body, d), SyncedHeader(h, d), field)
      {
        FullLacksNothing(s.t.lines[l].body, h, d, field);
      }
    }
  }
}
