/**
 What the query behind list_sync_targets filters by: the cutoff on order numbers, the fields that are asked for and
 the trace number, each said of the stored rows and of how the answers to different questions compare.
 */
module TargetFilters {
  import opened Options
  import opened Texts
  import opened Purchases
  import opened RecordSync
  import opened SyncTargets

  // ---------------------------------------------------------------- the cutoff

  /** The trimmed order number of the record a line belongs to. */
  function OrderNo(s: Store, l: LineId): Option<string>
    requires HasLine(s, l)
  {
    var number := s.t.headers[s.t.lines[l].header].purchaseOrderNo;
    if number.Some? then Some(Trim(number.value)) else None
  }

  /** A cutoff keeps exactly the rows whose order number is there and not before it. */
  lemma CutoffKeepsFrom(s: Store, fields: set<SyncField>, cutoff: string, l: LineId)
    requires cutoff != ""
    ensures l in DueRows(s, fields, cutoff)
            <==> l in DueRows(s, fields, "") && HasLine(s, l)
                 && OrderNo(s, l).Some? && LexLe(cutoff, OrderNo(s, l).value)
    ensures l in DueRows(s, fields, cutoff) ==> DueRows(s, fields, cutoff)[l] == DueRows(s, fields, "")[l]
  {
    hide Lacks, LexLe, Trim, Active;
  }

  /** Raising the cutoff never adds a row. */
  lemma RaisingCutoffDrops(s: Store, fields: set<SyncField>, low: string, high: string)
    requires LexLe(low, high)
    ensures DueRows(s, fields, high).Keys <= DueRows(s, fields, low).Keys
  {
    forall l | l in DueRows(s, fields, high) ensures l in DueRows(s, fields, low) {
      if high != "" {
        CutoffKeepsFrom(s, fields, high, l);
        if low != "" {
          LexTransitive(low, high, OrderNo(s, l).value);
          CutoffKeepsFrom(s, fields, low, l);
        }
      }
    }
    hide DueRows;
  }

  /** A row stays listed under its own order number as the cutoff, and under none that comes after it. */
  lemma OwnNumberIsLastCutoff(s: Store, fields: set<SyncField>, l: LineId, cutoff: string)
    requires l in DueRows(s, fields, "") && HasLine(s, l) && OrderNo(s, l).Some? && OrderNo(s, l).value != ""
    ensures l in DueRows(s, fields, OrderNo(s, l).value)
    ensures l in DueRows(s, fields, cutoff) <==> LexLe(cutoff, OrderNo(s, l).value)
  {
    LexTotal(OrderNo(s, l).value, "");
    CutoffKeepsFrom(s, fields, OrderNo(s, l).value, l);
    if cutoff != "" {
      CutoffKeepsFrom(s, fields, cutoff, l);
    }
    hide DueRows;
  }

  function WithOrderNo(s: Store, h: HeaderId, number: Option<string>): Store
    requires h in s.t.headers
  {
    s.(t := s.t.(headers := s.t.headers[h := s.t.headers[h].(purchaseOrderNo := number)]))
  }

  /** Without a cutoff order numbers do not matter: rows without one are listed like all others. */
  lemma OrderNoMattersToCutoffOnly(s: Store, fields: set<SyncField>, h: HeaderId, number: Option<string>)
    requires h in s.t.headers
    ensures DueRows(WithOrderNo(s, h, number), fields, "") == DueRows(s, fields, "")
  {
    var u := WithOrderNo(s, h, number);
    hide Active, SqlBlank;
    forall l | l in s.t.lines ensures DueLine(u, l, fields, "") <==> DueLine(s, l, fields, "") {
      if s.t.lines[l].header in s.t.headers {
        SameFieldsLacked(s.t.lines[l].body, s.t.headers[s.t.lines[l].header], number);
      }
    }
    hide DueLine;
  }

  lemma SameFieldsLacked(l: LineBody, h: Header, number: Option<string>)
    ensures forall field :: Lacks(l, h.(purchaseOrderNo := number), field) <==> Lacks(l, h, field)
  {
    hide SqlBlank;
  }

  /** Trimming cuts spaces off both ends, and nothing else. */
  lemma TrimCutsSpaces(s: string) returns (front: string, back: string)
    ensures s == front + Trim(s) + back && AllSpaces(front) && AllSpaces(back)
    ensures Trim(s) != "" ==> Trim(s)[0] != ' ' && Trim(s)[|Trim(s)| - 1] != ' '
  {
    var space := (c: char) => c == ' ';
    var rest := DropLeading(s, space);
    DroppedAreBlank(s, space);
    DropLeadingIsSuffix(s, space);
    DropTrailingIsPrefix(rest, space);
    assert Trim(s) == DropTrailing(rest, space);
    front, back := s[..|s| - |rest|], rest[|Trim(s)|..];
    assert Trim(s) != "" ==> Trim(s)[0] == rest[0];
  }

  // ---------------------------------------------------------------- the fields

  /** Nothing is stored, or spaces only. */
  predicate IsMissing(text: Option<string>) {
    text.Some? ==> AllSpaces(text.value)
  }

  /** The line still waits for the field; for a status that means one of the chain before the last. */
  predicate WaitsFor(s: Store, l: LineId, field: SyncField)
    requires HasLine(s, l)
  {
    var body, header := s.t.lines[l].body, s.t.headers[s.t.lines[l].header];
    match field
    case Salesperson => IsMissing(body.salesperson)
    case ContractNo => IsMissing(header.contractNo)
    case VesselNo => IsMissing(header.vesselNo)
    case ConsolidationPort => IsMissing(header.consolidationPort)
    case ConsolidationDate => header.consolidationDate.None?
    case SailingDate => header.sailingDate.None?
    case StatusField => InChain(body.status) && Rank(body.status) < 3
  }

  lemma BlankIsMissing(text: Option<string>)
    ensures SqlBlank(text) <==> IsMissing(text)
  {
    if text.Some? {
      TrimsAwayIff(text.value);
    }
  }

  lemma LacksIff(s: Store, l: LineId, field: SyncField)
    requires HasLine(s, l)
    ensures Lacks(s.t.lines[l].body, s.t.headers[s.t.lines[l].header], field) <==> WaitsFor(s, l, field)
  {
    var body, header := s.t.lines[l].body, s.t.headers[s.t.lines[l].header];
    BlankIsMissing(body.salesperson);
    BlankIsMissing(header.contractNo);
    BlankIsMissing(header.vesselNo);
    BlankIsMissing(header.consolidationPort);
    ChainDistinct();
    hide SqlBlank, IsMissing;
  }

  /** A line is due, under no cutoff, exactly if it has a trace number and waits for a field that is asked for. */
  lemma DueIfWaiting(s: Store, fields: set<SyncField>, l: LineId)
    ensures l in DueRows(s, fields, "")
            <==> && HasLine(s, l) && !IsMissing(s.t.lines[l].body.traceNo)
                 && exists field :: WaitsFor(s, l, field)
                                    && if fields == {} then field != StatusField else field in fields
    ensures l in DueRows(s, fields, "") ==> s.t.lines[l].body.traceNo == Some(DueRows(s, fields, "")[l])
  {
    if HasLine(s, l) {
      var body, header := s.t.lines[l].body, s.t.headers[s.t.lines[l].header];
      BlankIsMissing(body.traceNo);
      forall field ensures Lacks(body, header, field) <==> WaitsFor(s, l, field) {
        LacksIff(s, l, field);
      }
      ActiveIff(fields);
      hide Lacks, WaitsFor, SqlBlank, IsMissing, Active;
      if field :| WaitsFor(s, l, field) && field in Active(fields) {
        assert Lacks(body, header, field);
      }
      if field :| field in Active(fields) && Lacks(body, header, field) {
        assert WaitsFor(s, l, field);
      }
    }
  }

  lemma ActiveIff(fields: set<SyncField>)
    ensures forall field :: field in Active(fields) <==> if fields == {} then field != StatusField else field in fields
  {
    forall field ensures field in Active({}) <==> field != StatusField {
      match field
      case _ =>
    }
  }

  /** Asking for more fields finds exactly what asking for each would find. */
  lemma FieldsAddUp(s: Store, a: set<SyncField>, b: set<SyncField>, cutoff: string)
    requires a != {} && b != {}
    ensures DueRows(s, a + b, cutoff).Keys == DueRows(s, a, cutoff).Keys + DueRows(s, b, cutoff).Keys
  {
    hide Lacks, SqlBlank, LexLe, Trim;
    assert a + b != {};
    forall l ensures l in DueRows(s, a + b, cutoff) <==> l in DueRows(s, a, cutoff) || l in DueRows(s, b, cutoff) {
    }
    hide DueRows;
  }
}
