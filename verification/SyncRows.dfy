/**
 What writing one payload back leaves in the rows, said of the payload and the rows before it: which requests are
 accepted, which rows are touched, what their fields and versions are then, and what the counts count.
 */
module SyncRows {
  import opened Options
  import opened Texts
  import opened PlanNumbers
  import opened Purchases
  import opened RecordSync

  /** The ten ASCII characters that Python takes for whitespace. */
  const WHITESPACE: set<char> :=
    {' ', '\t', '\n', '\r', 11 as char, 12 as char, 28 as char, 29 as char, 30 as char, 31 as char}

  /** A text is blank exactly if it is missing or has nothing but whitespace. */
  lemma BlankIff(text: Option<string>)
    ensures IsBlank(text) <==> (text.Some? ==> forall i :: 0 <= i < |text.value| ==> text.value[i] in WHITESPACE)
  {
    assert forall c: char :: c in WHITESPACE <==> IsSpace(c);
    if text.Some? {
      var front, back := StripCutsSpaces(text.value);
      var t := Strip(text.value);
      assert t != "" ==> text.value[|front|] == t[0];
    }
  }

  /** Stripping cuts whitespace off both ends, and nothing else. */
  lemma StripCutsSpaces(s: string) returns (front: string, back: string)
    ensures s == front + Strip(s) + back
    ensures (forall i :: 0 <= i < |front| ==> IsSpace(front[i])) && forall i :: 0 <= i < |back| ==> IsSpace(back[i])
    ensures Strip(s) != "" ==> !IsSpace(Strip(s)[0]) && !IsSpace(Strip(s)[|Strip(s)| - 1])
  {
    var rest := DropLeading(s, IsSpace);
    DroppedAreBlank(s, IsSpace);
    DropLeadingIsSuffix(s, IsSpace);
    DropTrailingIsPrefix(rest, IsSpace);
    StripMeaning(s);
    front, back := s[..|s| - |rest|], rest[|Strip(s)|..];
  }

  /** A blank text takes a value that is not blank, stripped; any other text stays. */
  predicate TextFilled(stored: Option<string>, value: Option<string>, after: Option<string>) {
    if IsBlank(stored) && !IsBlank(value) then after == Some(Strip(value.value)) else after == stored
  }

  /** A missing date takes a given one; any other date stays. */
  predicate DateFilled(stored: Option<Date>, value: Option<Date>, after: Option<Date>) {
    if stored.None? && value.Some? then after == value else after == stored
  }

  /** The five fields are filled, the others stay, and the version is the next one exactly if a field changed. */
  predicate HeaderFilled(h: Header, d: SyncData, g: Header) {
    && TextFilled(h.contractNo, d.contractNo, g.contractNo)
    && TextFilled(h.vesselNo, d.vesselNo, g.vesselNo)
    && TextFilled(h.consolidationPort, d.consolidationPort, g.consolidationPort)
    && DateFilled(h.consolidationDate, d.consolidationDate, g.consolidationDate)
    && DateFilled(h.sailingDate, d.sailingDate, g.sailingDate)
    && g.purchaseOrderNo == h.purchaseOrderNo && g.remark == h.remark && g.purchaseDate == h.purchaseDate
    && g.version == h.version + Count(g.(version := h.version) != h)
  }

  /** The salesperson is filled, the status moves up to the rank asked for if it is in the chain, the rest stays. */
  predicate LineFilled(l: LineBody, d: SyncData, m: LineBody) {
    && TextFilled(l.salesperson, d.salesperson, m.salesperson)
    && (if InChain(l.status) then InChain(m.status) && Rank(m.status) == Max(Rank(l.status), Asked(d.status))
        else m.status == l.status)
    && m.(salesperson := l.salesperson, status := l.status, version := l.version) == l
    && m.version == l.version + Count(m.(version := l.version) != l)
  }

  lemma TextIsFilled(value: Option<string>, stored: Option<string>)
    ensures TextFilled(stored, value, Fill(value, stored))
    ensures Fill(value, stored) != stored <==> Fills(value, stored)
  {
    FillChanges(value, stored);
  }

  lemma HeaderIsFilled(h: Header, d: SyncData)
    ensures HeaderFilled(h, d, SyncedHeader(h, d))
    ensures SyncedHeader(h, d) != h <==> HeaderChanges(h, d)
  {
    TextIsFilled(d.contractNo, h.contractNo);
    TextIsFilled(d.vesselNo, h.vesselNo);
    TextIsFilled(d.consolidationPort, h.consolidationPort);
    hide Fill, Fills, TextFilled;
  }

  lemma LineIsFilled(l: LineBody, d: SyncData)
    ensures LineFilled(l, d, SyncedBody(l, d))
    ensures SyncedBody(l, d) != l <==> LineChanges(l, d)
  {
    TextIsFilled(d.salesperson, l.salesperson);
    ProgressIsMax(l.status, d.status);
    hide Fill, Fills, TextFilled, InChain, Rank, Asked, Max, PROGRESSION, Strip;
  }

  /** The line is of the trace number. */
  predicate IsOf(s: Store, l: LineId, trace: string) {
    l in s.t.lines && s.t.lines[l].body.traceNo == Some(trace)
  }

  ghost predicate IsHeaderOf(s: Store, h: HeaderId, trace: string) {
    exists l :: IsOf(s, l, trace) && s.t.lines[l].header == h
  }

  /** The lines of the trace number and their headers are filled; everything else is as it was. */
  ghost predicate RowsFilled(s: Store, u: Store, trace: string, d: SyncData) {
    && u.t.lines.Keys == s.t.lines.Keys && u.t.headers.Keys == s.t.headers.Keys
    && (forall l :: l in s.t.lines ==>
          if IsOf(s, l, trace) then LineFilled(s.t.lines[l].body, d, u.t.lines[l].body)
                                    && u.t.lines[l].(body := s.t.lines[l].body) == s.t.lines[l]
          else u.t.lines[l] == s.t.lines[l])
    && (forall h :: h in s.t.headers ==>
          if IsHeaderOf(s, h, trace) then HeaderFilled(s.t.headers[h], d, u.t.headers[h])
          else u.t.headers[h] == s.t.headers[h])
    && u == s.(t := s.t.(lines := u.t.lines, headers := u.t.headers))
  }

  ghost function DifferentHeaders(s: Store, u: Store): set<HeaderId> {
    set h | h in s.t.headers && h in u.t.headers && u.t.headers[h] != s.t.headers[h]
  }

  ghost function DifferentLines(s: Store, u: Store): set<LineId> {
    set l | l in s.t.lines && l in u.t.lines && u.t.lines[l] != s.t.lines[l]
  }

  /**
   Writing a payload back succeeds exactly for a trace number some line has; it fills that trace number's lines and
   their headers, touches nothing else, and answers with how many headers and lines it changed.
   */
  lemma SyncFillsRows(s: Store, trace: string, d: SyncData)
    ensures var o, t := ApplySync(s, trace, d), Strip(trace);
            && (o.result.Success? <==> t != "" && exists l :: IsOf(s, l, t))
            && (o.result.Failure? ==> o.store == s && (o.result.error.EmptyTrace? <==> t == ""))
            && (o.result.Success? ==>
                  && RowsFilled(s, o.store, t, d)
                  && o.result.value == Affected(|DifferentHeaders(s, o.store)|, |DifferentLines(s, o.store)|))
  {
    var t := Strip(trace);
    TracedIff(s, t);
    hide Strip, Synced, SyncCounts, LinesOf, IsOf, RowsFilled;
    if ApplySync(s, trace, d).result.Success? {
      SyncedRows(s, t, d);
      CountsAreDifferences(s, t, d);
    }
  }

  lemma TracedIff(s: Store, t: string)
    ensures forall l :: l in LinesOf(s, t) <==> IsOf(s, l, t)
    ensures LinesOf(s, t) != {} <==> exists l :: IsOf(s, l, t)
    ensures forall h :: h in HeadersOfLines(s, LinesOf(s, t)) <==> h in s.t.headers && IsHeaderOf(s, h, t)
  {
    forall h | h in s.t.headers && IsHeaderOf(s, h, t) ensures h in HeadersOfLines(s, LinesOf(s, t)) {
      var l :| IsOf(s, l, t) && s.t.lines[l].header == h;
    }
    if l :| IsOf(s, l, t) {
      assert l in LinesOf(s, t);
    }
    if LinesOf(s, t) != {} {
      var l :| l in LinesOf(s, t);
      assert IsOf(s, l, t);
    }
  }

  lemma SyncedRows(s: Store, t: string, d: SyncData)
    ensures RowsFilled(s, Synced(s, t, d), t, d)
  {
    TracedIff(s, t);
    hide LinesOf, HeadersOfLines, IsOf, IsHeaderOf, LineFilled, HeaderFilled, SyncedBody, SyncedHeader;
    forall l | l in s.t.lines ensures LineFilled(s.t.lines[l].body, d, SyncedBody(s.t.lines[l].body, d)) {
      LineIsFilled(s.t.lines[l].body, d);
    }
    forall h | h in s.t.headers ensures HeaderFilled(s.t.headers[h], d, SyncedHeader(s.t.headers[h], d)) {
      HeaderIsFilled(s.t.headers[h], d);
    }
  }

  lemma CountsAreDifferences(s: Store, t: string, d: SyncData)
    ensures var u := Synced(s, t, d);
            SyncCounts(s, t, d) == Affected(|DifferentHeaders(s, u)|, |DifferentLines(s, u)|)
  {
    var lines := LinesOf(s, t);
    var u := Synced(s, t, d);
    hide LinesOf, HeadersOfLines, SyncedBody, SyncedHeader, LineChanges, HeaderChanges;
    forall l | l in s.t.lines
      ensures SyncedBody(s.t.lines[l].body, d) != s.t.lines[l].body <==> LineChanges(s.t.lines[l].body, d)
    {
      LineIsFilled(s.t.lines[l].body, d);
    }
    forall h | h in s.t.headers
      ensures SyncedHeader(s.t.headers[h], d) != s.t.headers[h] <==> HeaderChanges(s.t.headers[h], d)
    {
      HeaderIsFilled(s.t.headers[h], d);
    }
    assert ChangedHeaders(s.t.headers, HeadersOfLines(s, lines), d) == DifferentHeaders(s, u);
    assert ChangedLines(s.t.lines, lines, d) == DifferentLines(s, u);
  }
}
