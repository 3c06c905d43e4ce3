/**
 When a batch of records can be given one plan date, and what numbers their snapshots get: exactly if every
 record is current and the date has enough numbers left, and then the next numbers in the order of the batch.
 */
module RecordOutcomes {
  import opened Options
  import opened PlanNumbers
  import opened Purchases
  import opened PurchaseRuns
  import opened PurchaseRestore
  import opened PurchaseDates
  import opened PurchaseOutcomes

  predicate HasRow(s: Store, ref: Reference) {
    ref.id in s.t.lines
  }

  predicate HaveRows(s: Store, refs: seq<Reference>) {
    forall i :: 0 <= i < |refs| ==> HasRow(s, refs[i])
  }

  predicate RedatesLine(s: Store, ref: Reference, date: Date)
    requires HasRow(s, ref)
  {
    s.t.lines[ref.id].body.planDate != date
  }

  /** How many of the lines the batch gives a new date. */
  function CountRedatedLines(s: Store, refs: seq<Reference>, date: Date): nat
    requires HaveRows(s, refs)
  {
    if refs == [] then 0 else
      assert HasRow(s, refs[0]) && HaveRows(s, refs[1..]);
      Count(RedatesLine(s, refs[0], date)) + CountRedatedLines(s, refs[1..], date)
  }

  // ---------------------------------------------------------------- one line

  lemma SameLineNumbersWith(s: Store, id: LineId, line: Line, prefix: string)
    requires id in s.t.lines && line.number == s.t.lines[id].number
    ensures NumbersWith(WithLine(s, id, line), prefix) == NumbersWith(s, prefix)
  {
    var u := WithLine(s, id, line);
    hide StartsWith;
    assert u.t.plans == s.t.plans;
    forall x ensures x in SnapshotNosWith(u, prefix) <==> x in SnapshotNosWith(s, prefix) {
      if x in SnapshotNosWith(s, prefix) {
        var l :| l in s.t.lines && StartsWith(s.t.lines[l].number, prefix) && s.t.lines[l].number == x;
        assert l in u.t.lines && u.t.lines[l].number == x;
      }
      if x in SnapshotNosWith(u, prefix) {
        var l :| l in u.t.lines && StartsWith(u.t.lines[l].number, prefix) && u.t.lines[l].number == x;
        assert l in s.t.lines && s.t.lines[l].number == x;
      }
    }
  }

  lemma OneMoreLineNumberWith(s: Store, id: LineId, line: Line, prefix: string)
    requires id in s.t.lines && StartsWith(line.number, prefix)
    ensures line.number in NumbersWith(WithLine(s, id, line), prefix)
    ensures NumbersWith(WithLine(s, id, line), prefix) <= NumbersWith(s, prefix) + {line.number}
  {
    var u := WithLine(s, id, line);
    hide StartsWith;
    assert u.t.plans == s.t.plans && u.t.lines[id] == line;
    forall x | x in SnapshotNosWith(u, prefix) ensures x in SnapshotNosWith(s, prefix) + {line.number} {
      var l :| l in u.t.lines && StartsWith(u.t.lines[l].number, prefix) && u.t.lines[l].number == x;
      assert l != id ==> l in s.t.lines && s.t.lines[l].number == x;
    }
  }

  lemma PatchLineShape(s: Store, ref: Reference, patch: RecordPatch, date: Date)
    requires HasRow(s, ref) && patch.planDate == Some(date)
    ensures var o := PatchLine(s, ref.id, patch);
            && (o.result.Success? <==> (RedatesLine(s, ref, date) ==> NextPlanNo(s, date).Success?))
            && (o.result.Success? ==>
                  && ref.id in o.store.t.lines && o.store == WithLine(s, ref.id, o.store.t.lines[ref.id])
                  && o.store.t.lines[ref.id].number
                     == (if RedatesLine(s, ref, date) then NextPlanNo(s, date).value else s.t.lines[ref.id].number)
                  && o.store.t.lines[ref.id].body.planDate == date)
  {
    hide NextPlanNo;
  }

  lemma PatchLineGivesOut(s: Store, u: Store, ref: Reference, date: Date)
    requires WellNumbered(s) && WellNumbered(u) && HasRow(s, ref) && ref.id in u.t.lines
    requires u == WithLine(s, ref.id, u.t.lines[ref.id])
    requires RedatesLine(s, ref, date) ==>
               NextPlanNo(s, date).Success? && u.t.lines[ref.id].number == NextPlanNo(s, date).value
    requires !RedatesLine(s, ref, date) ==> u.t.lines[ref.id].number == s.t.lines[ref.id].number
    ensures NextIndex(u, date) == NextIndex(s, date) + Count(RedatesLine(s, ref, date))
  {
    hide WellNumbered, NextIndex, NextPlanNo, NumbersWith;
    if RedatesLine(s, ref, date) {
      NextPlanNoNamesDate(s, date);
      hide StartsWith;
      OneMoreLineNumberWith(s, ref.id, u.t.lines[ref.id], Prefix(date));
      GivingOut(s, u, date);
    } else {
      SameLineNumbersWith(s, ref.id, u.t.lines[ref.id], Prefix(date));
      SameNext(s, u, date);
    }
  }

  /** One line of the batch: it succeeds if there is a number left for it. */
  lemma PatchLineMeaning(s: Store, ref: Reference, patch: RecordPatch, date: Date)
    requires Valid(s) && HasRow(s, ref) && patch.planDate == Some(date)
    ensures var o := PatchLine(s, ref.id, patch);
            && (o.result.Success? <==> NextIndex(s, date) + Count(RedatesLine(s, ref, date)) <= 1000)
            && (o.result.Success? ==>
                  && ref.id in o.store.t.lines
                  && o.store.t.lines[ref.id].number
                     == (if RedatesLine(s, ref, date) && NextIndex(s, date) <= 999
                         then PlanNo(date, NextIndex(s, date)) else s.t.lines[ref.id].number)
                  && o.store.t.lines[ref.id].body.planDate == date
                  && NextIndex(o.store, date) == NextIndex(s, date) + Count(RedatesLine(s, ref, date)))
  {
    hide Valid, Items, WellNumbered, NextIndex, NextPlanNo, NumbersWith, PatchLine;
    ValidIsWellNumbered(s);
    NextIndexMeaning(s, date);
    PatchLineShape(s, ref, patch, date);
    if PatchLine(s, ref.id, patch).result.Success? {
      PatchLineKeeps(s, ref.id, patch);
      ValidIsWellNumbered(PatchLine(s, ref.id, patch).store);
      PatchLineGivesOut(s, PatchLine(s, ref.id, patch).store, ref, date);
    }
  }

  // ---------------------------------------------------------------- the lines of a batch

  /** Lines that are the same in both stores count the same. */
  lemma {:induction false} SameLineCounts(s: Store, u: Store, refs: seq<Reference>, date: Date)
    requires HaveRows(s, refs) && HaveRows(u, refs)
    requires forall i :: 0 <= i < |refs| ==>
               HasRow(s, refs[i]) && HasRow(u, refs[i]) && u.t.lines[refs[i].id] == s.t.lines[refs[i].id]
    ensures CountRedatedLines(u, refs, date) == CountRedatedLines(s, refs, date)
    decreases |refs|
  {
    if refs != [] {
      assert HasRow(s, refs[0]) && HasRow(u, refs[0]);
      assert forall i :: 0 <= i < |refs[1..]| ==> refs[1..][i] == refs[i + 1];
      SameLineCounts(s, u, refs[1..], date);
    }
  }

  /** The index the line at position i of the batch gets, if it gets a new one. */
  function GivenLineIndex(s: Store, refs: seq<Reference>, i: nat, date: Date): nat
    requires HaveRows(s, refs) && i < |refs|
  {
    NextIndex(s, date) + CountRedatedLines(s, refs[..i], date)
  }

  /** Position i of the batch has the date, and holds the number it had or the one given out to it. */
  ghost predicate LineNumbered(s: Store, u: Store, refs: seq<Reference>, i: nat, date: Date)
    requires HaveRows(s, refs) && i < |refs|
  {
    && HasRow(s, refs[i]) && refs[i].id in u.t.lines && u.t.lines[refs[i].id].body.planDate == date
    && (if RedatesLine(s, refs[i], date)
        then GivenLineIndex(s, refs, i, date) <= 999
             && u.t.lines[refs[i].id].number == PlanNo(date, GivenLineIndex(s, refs, i, date))
        else u.t.lines[refs[i].id].number == s.t.lines[refs[i].id].number)
  }

  lemma RowsAreThere(s: Store, refs: seq<Reference>)
    requires HaveRows(s, refs)
    ensures forall i :: 0 <= i < |refs| ==> refs[i].id in s.t.lines
  {
    assert forall i :: 0 <= i < |refs| ==> HasRow(s, refs[i]) ==> refs[i].id in s.t.lines;
  }

  /** After the first line of the batch the others are as they were. */
  lemma OtherLinesAreTheSame(s: Store, refs: seq<Reference>, patch: RecordPatch, date: Date)
    requires HaveRows(s, refs) && refs != [] && DistinctReferences(refs)
    ensures HasRow(s, refs[0])
    ensures var u := PatchLine(s, refs[0].id, patch).store;
            && HaveRows(u, refs[1..]) && HaveRows(s, refs[1..])
            && CountRedatedLines(u, refs[1..], date) == CountRedatedLines(s, refs[1..], date)
  {
    assert HasRow(s, refs[0]);
    var u := PatchLine(s, refs[0].id, patch).store;
    var rest := refs[1..];
    hide PatchLine;
    forall i | 0 <= i < |rest|
      ensures HasRow(s, rest[i]) && HasRow(u, rest[i]) && u.t.lines[rest[i].id] == s.t.lines[rest[i].id]
    {
      assert rest[i] == refs[i + 1] && HasRow(s, refs[i + 1]);
      PatchLineKeepsOthers(s, refs[0].id, patch, rest[i].id);
    }
    SameLineCounts(s, u, rest, date);
  }

  lemma {:induction false} LinesRenumberInARow(s: Store, refs: seq<Reference>, patch: RecordPatch, date: Date)
    requires Valid(s) && HaveRows(s, refs) && DistinctReferences(refs) && patch.planDate == Some(date)
    ensures forall i :: 0 <= i < |refs| ==> refs[i].id in s.t.lines
    ensures PatchLines(s, refs, patch).result.Success?
            <==> NextIndex(s, date) + CountRedatedLines(s, refs, date) <= 1000
    ensures PatchLines(s, refs, patch).result.Success? ==>
              forall i :: 0 <= i < |refs| ==> LineNumbered(s, PatchLines(s, refs, patch).store, refs, i, date)
    decreases |refs|
  {
    hide Valid, Items, NextIndex, PatchLine, RedatesLine, LineNumbered;
    RowsAreThere(s, refs);
    ValidHasNext(s, date);
    if refs != [] {
      var rest := refs[1..];
      assert forall i :: 0 <= i < |rest| ==> rest[i] == refs[i + 1];
      assert HasRow(s, refs[0]);
      var first := PatchLine(s, refs[0].id, patch);
      PatchLineMeaning(s, refs[0], patch, date);
      if first.result.Success? {
        PatchLineKeeps(s, refs[0].id, patch);
        OtherLinesAreTheSame(s, refs, patch, date);
        LinesRenumberInARow(first.store, rest, patch, date);
        if PatchLines(s, refs, patch).result.Success? {
          FirstAndOthersNumbered(s, refs, patch, date);
        }
      }
    }
  }

  lemma FirstAndOthersNumbered(s: Store, refs: seq<Reference>, patch: RecordPatch, date: Date)
    requires Valid(s) && HaveRows(s, refs) && refs != [] && DistinctReferences(refs)
    requires patch.planDate == Some(date)
    requires HasRow(s, refs[0]) && PatchLine(s, refs[0].id, patch).result.Success?
    requires var u := PatchLine(s, refs[0].id, patch).store;
             && HaveRows(u, refs[1..]) && (forall i :: 0 <= i < |refs[1..]| ==> refs[1..][i].id in u.t.lines)
             && forall i :: 0 <= i < |refs[1..]| ==>
                  LineNumbered(u, PatchLines(u, refs[1..], patch).store, refs[1..], i, date)
    ensures forall i :: 0 <= i < |refs| ==> refs[i].id in s.t.lines
    ensures forall i :: 0 <= i < |refs| ==> LineNumbered(s, PatchLines(s, refs, patch).store, refs, i, date)
  {
    hide PatchLine, PatchLines, Valid, NextIndex, LineNumbered, RedatesLine;
    RowsAreThere(s, refs);
    var u := PatchLine(s, refs[0].id, patch).store;
    PatchLineMeaning(s, refs[0], patch, date);
    FirstLineNumbered(s, refs, patch, date);
    forall i | 0 < i < |refs| ensures LineNumbered(s, PatchLines(s, refs, patch).store, refs, i, date) {
      assert LineNumbered(u, PatchLines(u, refs[1..], patch).store, refs[1..], i - 1, date);
      LaterLineNumbered(s, u, refs, i, patch, date);
    }
  }

  lemma FirstLineNumbered(s: Store, refs: seq<Reference>, patch: RecordPatch, date: Date)
    requires Valid(s) && HaveRows(s, refs) && refs != [] && DistinctReferences(refs)
    requires patch.planDate == Some(date)
    requires HasRow(s, refs[0]) && PatchLine(s, refs[0].id, patch).result.Success?
    requires HaveRows(PatchLine(s, refs[0].id, patch).store, refs[1..])
    ensures forall i :: 0 <= i < |refs| ==> refs[i].id in s.t.lines
    ensures LineNumbered(s, PatchLines(s, refs, patch).store, refs, 0, date)
  {
    hide PatchLine, Valid, NextIndex;
    RowsAreThere(s, refs);
    var u := PatchLine(s, refs[0].id, patch).store;
    RowsAreThere(u, refs[1..]);
    PatchLineMeaning(s, refs[0], patch, date);
    assert forall i :: 0 <= i < |refs[1..]| ==> refs[1..][i] == refs[i + 1];
    PatchLinesKeepExactly(u, refs[1..], patch, refs[0].id);
    assert refs[..0] == [];
  }

  lemma {:induction false} PatchLinesKeepExactly(s: Store, refs: seq<Reference>, patch: RecordPatch, l: LineId)
    requires l in s.t.lines && forall i :: 0 <= i < |refs| ==> refs[i].id in s.t.lines && refs[i].id != l
    ensures var u := PatchLines(s, refs, patch).store; l in u.t.lines && u.t.lines[l] == s.t.lines[l]
    decreases |refs|
  {
    hide PatchLine;
    if refs != [] {
      var first := PatchLine(s, refs[0].id, patch);
      PatchLineKeepsOthers(s, refs[0].id, patch, l);
      if first.result.Success? {
        PatchLinesKeepExactly(first.store, refs[1..], patch, l);
      }
    }
  }

  lemma LaterLineNumbered(s: Store, u: Store, refs: seq<Reference>, i: nat, patch: RecordPatch, date: Date)
    requires HaveRows(s, refs) && 0 < i < |refs| && DistinctReferences(refs) && HasRow(s, refs[0])
    requires PatchLine(s, refs[0].id, patch).result.Success? && u == PatchLine(s, refs[0].id, patch).store
    requires HaveRows(u, refs[1..])
    requires NextIndex(u, date) == NextIndex(s, date) + Count(RedatesLine(s, refs[0], date))
    requires forall k :: 0 <= k < |refs[1..]| ==> refs[1..][k].id in u.t.lines
    requires LineNumbered(u, PatchLines(u, refs[1..], patch).store, refs[1..], i - 1, date)
    ensures forall k :: 0 <= k < |refs| ==> refs[k].id in s.t.lines
    ensures LineNumbered(s, PatchLines(s, refs, patch).store, refs, i, date)
  {
    RowsAreThere(s, refs);
    assert PatchLines(s, refs, patch) == PatchLines(u, refs[1..], patch);
    hide PatchLine, PatchLines, NextIndex;
    assert refs[1..][i - 1] == refs[i];
    PatchLineKeepsOthers(s, refs[0].id, patch, refs[i].id);
    GivenLineIndexStep(s, u, refs, i, patch, date);
    hide GivenLineIndex;
    assert HasRow(s, refs[i]);
  }

  lemma GivenLineIndexStep(s: Store, u: Store, refs: seq<Reference>, i: nat, patch: RecordPatch, date: Date)
    requires HaveRows(s, refs) && 0 < i < |refs| && DistinctReferences(refs) && HasRow(s, refs[0])
    requires u == PatchLine(s, refs[0].id, patch).store && HaveRows(u, refs[1..])
    requires NextIndex(u, date) == NextIndex(s, date) + Count(RedatesLine(s, refs[0], date))
    ensures GivenLineIndex(u, refs[1..], i - 1, date) == GivenLineIndex(s, refs, i, date)
  {
    var front := refs[..i];
    assert front[1..] == refs[1..][..i - 1] && front[0] == refs[0];
    assert HaveRows(s, front);
    OtherLinesAreTheSame(s, front, patch, date);
  }

  // ---------------------------------------------------------------- the batch

  /** The record exists and its header has the version the reference names. */
  predicate IsCurrent(s: Store, ref: Reference) {
    HasLine(s, ref.id) && ref.version == s.t.headers[s.t.lines[ref.id].header].version
  }

  predicate AreCurrent(s: Store, refs: seq<Reference>) {
    forall i :: 0 <= i < |refs| ==> IsCurrent(s, refs[i])
  }

  lemma {:induction false} NoneStaleIff(s: Store, refs: seq<Reference>)
    requires forall i :: 0 <= i < |refs| ==> HasLine(s, refs[i].id)
    ensures StaleReference(s, refs).None? <==> AreCurrent(s, refs)
    decreases |refs|
  {
    if refs != [] {
      var rest := refs[1..];
      assert forall i :: 0 <= i < |rest| ==> rest[i] == refs[i + 1];
      assert HasLine(s, refs[0].id);
      NoneStaleIff(s, rest);
      if IsCurrent(s, refs[0]) && AreCurrent(s, rest) {
        forall i | 0 <= i < |refs| ensures IsCurrent(s, refs[i]) {
          assert i > 0 ==> refs[i] == rest[i - 1];
        }
      }
    }
  }

  lemma CurrentHaveRows(s: Store, refs: seq<Reference>)
    requires AreCurrent(s, refs)
    ensures HaveRows(s, refs) && forall i :: 0 <= i < |refs| ==> HasLine(s, refs[i].id)
  {
    forall i | 0 <= i < |refs| ensures HasRow(s, refs[i]) && HasLine(s, refs[i].id) {
      assert IsCurrent(s, refs[i]);
    }
  }

  lemma PatchHeadersKeepNext(s: Store, headers: set<HeaderId>, patch: RecordPatch, date: Date)
    requires Valid(s)
    ensures NextIndex(PatchHeaders(s, headers, patch), date) == NextIndex(s, date)
  {
    hide Valid, Items, NextIndex;
    PatchHeadersKeeps(s, headers, patch);
    var u := PatchHeaders(s, headers, patch);
    assert NumbersWith(u, Prefix(date)) == NumbersWith(s, Prefix(date));
    ValidIsWellNumbered(s);
    ValidIsWellNumbered(u);
    SameNext(s, u, date);
  }

  /**
   A batch that gives records one plan date succeeds exactly if it names distinct, current records and the date
   has enough numbers left for the lines that change their date; and it gives these, in the order of the batch,
   the numbers that follow the highest one in use.
   */
  lemma RecordsRenumberInARow(s: Store, refs: seq<Reference>, patch: RecordPatch, date: Date)
    requires Valid(s) && patch.planDate == Some(date)
    ensures UpdateRecords(s, refs, patch).result.Success?
            <==> DistinctReferences(refs) && AreCurrent(s, refs)
                 && HaveRows(s, refs) && NextIndex(s, date) + CountRedatedLines(s, refs, date) <= 1000
    ensures UpdateRecords(s, refs, patch).result.Success? ==>
              forall i :: 0 <= i < |refs| ==> LineNumbered(s, UpdateRecords(s, refs, patch).store, refs, i, date)
  {
    hide Valid, Items, NextIndex, PatchLines, LineNumbered, StaleReference;
    if forall i :: 0 <= i < |refs| ==> HasLine(s, refs[i].id) {
      NoneStaleIff(s, refs);
    }
    if AreCurrent(s, refs) {
      CurrentHaveRows(s, refs);
      if DistinctReferences(refs) {
        CurrentBatch(s, refs, patch, date);
      }
    }
  }

  lemma CurrentBatch(s: Store, refs: seq<Reference>, patch: RecordPatch, date: Date)
    requires Valid(s) && HaveRows(s, refs) && DistinctReferences(refs) && patch.planDate == Some(date)
    ensures forall i :: 0 <= i < |refs| ==> refs[i].id in s.t.lines
    ensures var o := PatchLines(PatchHeaders(s, HeadersOf(s, refs), patch), refs, patch);
            && (o.result.Success? <==> NextIndex(s, date) + CountRedatedLines(s, refs, date) <= 1000)
            && (o.result.Success? ==> forall i :: 0 <= i < |refs| ==> LineNumbered(s, o.store, refs, i, date))
  {
    hide Valid, Items, NextIndex, PatchLines, LineNumbered;
    RowsAreThere(s, refs);
    var u := PatchHeaders(s, HeadersOf(s, refs), patch);
    PatchHeadersKeeps(s, HeadersOf(s, refs), patch);
    PatchHeadersKeepNext(s, HeadersOf(s, refs), patch, date);
    HeadersDoNotCount(s, u, refs, date);
    LinesRenumberInARow(u, refs, patch, date);
    var o := PatchLines(u, refs, patch);
    if o.result.Success? {
      forall i | 0 <= i < |refs| ensures LineNumbered(s, o.store, refs, i, date) {
        assert LineNumbered(u, o.store, refs, i, date);
        SameNumbered(s, u, o.store, refs, i, date);
      }
    }
  }

  lemma HeadersDoNotCount(s: Store, u: Store, refs: seq<Reference>, date: Date)
    requires HaveRows(s, refs) && u.t.lines == s.t.lines
    ensures HaveRows(u, refs) && CountRedatedLines(u, refs, date) == CountRedatedLines(s, refs, date)
  {
    forall i | 0 <= i < |refs| ensures HasRow(s, refs[i]) && HasRow(u, refs[i]) {
      assert HasRow(s, refs[i]);
    }
    SameLineCounts(s, u, refs, date);
  }

  lemma SameNumbered(s: Store, u: Store, w: Store, refs: seq<Reference>, i: nat, date: Date)
    requires HaveRows(s, refs) && HaveRows(u, refs) && i < |refs| && u.t.lines == s.t.lines
    requires NextIndex(u, date) == NextIndex(s, date) && LineNumbered(u, w, refs, i, date)
    ensures LineNumbered(s, w, refs, i, date)
  {
    hide NextIndex;
    assert forall k :: 0 <= k < i ==> HasRow(s, refs[k]) && refs[..i][k] == refs[k];
    HeadersDoNotCount(s, u, refs[..i], date);
  }

  lemma {:induction false} UndatedLinesSucceed(s: Store, refs: seq<Reference>, patch: RecordPatch)
    requires HaveRows(s, refs) && patch.planDate.None?
    ensures forall i :: 0 <= i < |refs| ==> refs[i].id in s.t.lines
    ensures PatchLines(s, refs, patch).result.Success?
    decreases |refs|
  {
    RowsAreThere(s, refs);
    if refs != [] {
      var u := PatchLine(s, refs[0].id, patch).store;
      forall i | 0 <= i < |refs[1..]| ensures HasRow(u, refs[1..][i]) {
        assert refs[1..][i] == refs[i + 1];
      }
      hide PatchLine;
      UndatedLinesSucceed(u, refs[1..], patch);
    }
  }

  /** Without a date a batch succeeds exactly for distinct, current records. */
  lemma UndatedRecordsSucceedIff(s: Store, refs: seq<Reference>, patch: RecordPatch)
    requires patch.planDate.None?
    ensures UpdateRecords(s, refs, patch).result.Success? <==> DistinctReferences(refs) && AreCurrent(s, refs)
  {
    hide PatchLines, StaleReference, PatchHeaders;
    if forall i :: 0 <= i < |refs| ==> HasLine(s, refs[i].id) {
      NoneStaleIff(s, refs);
    }
    if AreCurrent(s, refs) {
      CurrentHaveRows(s, refs);
      var u := PatchHeaders(s, HeadersOf(s, refs), patch);
      PatchHeadersKeepRows(s, HeadersOf(s, refs), patch, refs);
      UndatedLinesSucceed(u, refs, patch);
    }
  }

  lemma PatchHeadersKeepRows(s: Store, headers: set<HeaderId>, patch: RecordPatch, refs: seq<Reference>)
    requires HaveRows(s, refs)
    ensures HaveRows(PatchHeaders(s, headers, patch), refs)
  {
    forall i | 0 <= i < |refs| ensures HasRow(PatchHeaders(s, headers, patch), refs[i]) {
      assert HasRow(s, refs[i]);
    }
  }
}
