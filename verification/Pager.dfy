/**
 The pager over synchronisation targets: rows are filtered by a cursor before they are grouped by trace
 number, groups come latest first, and the client continues below the last group it was shown.
 */
module Pager {
  import opened Sets

  type RowId = nat

  /** The trace number of each row that still lacks something. */
  type Rows = map<RowId, string>

  datatype Target = Target(trace: string, count: nat, cursor: RowId)

  datatype Page = Page(items: seq<Target>, hasMore: bool, nextCursor: RowId)

  function IdsOf(rows: Rows, trace: string): set<RowId> {
    set l | l in rows && rows[l] == trace
  }

  /** GROUP BY trace_no ORDER BY MAX(id) DESC, with COUNT and MAX(id) */
  function Grouped(rows: Rows): seq<Target>
    decreases rows.Keys
  {
    if rows.Keys == {} then [] else
      var latest := Greatest(rows.Keys);
      var ids := IdsOf(rows, rows[latest]);
      assert latest in ids && (rows - ids).Keys < rows.Keys;
      [Target(rows[latest], |ids|, latest)] + Grouped(rows - ids)
  }

  /** A cursor of zero is no cursor. */
  function Below(rows: Rows, cursor: RowId): Rows {
    if cursor == 0 then rows else map l | l in rows && l < cursor :: rows[l]
  }

  function UpTo<T>(items: seq<T>, n: nat): seq<T> {
    if |items| <= n then items else items[..n]
  }

  /** list_sync_targets: one group more than asked for tells whether there are more. */
  function PageAt(rows: Rows, limit: nat, cursor: RowId): Page {
    var fetched := UpTo(Grouped(Below(rows, cursor)), limit + 1);
    var items := UpTo(fetched, limit);
    Page(items, |fetched| > limit, if items == [] then 0 else items[|items| - 1].cursor)
  }

  // ---------------------------------------------------------------- what grouping means

  /** The group of its trace number: all its rows counted, the latest of them as cursor. */
  ghost predicate IsGroup(rows: Rows, t: Target) {
    && t.cursor in rows && rows[t.cursor] == t.trace
    && t.count == |IdsOf(rows, t.trace)|
    && forall l :: l in rows && rows[l] == t.trace ==> l <= t.cursor
  }

  ghost predicate Descending(items: seq<Target>) {
    forall i, j :: 0 <= i < j < |items| ==> items[i].cursor > items[j].cursor && items[i].trace != items[j].trace
  }

  ghost predicate Shown(items: seq<Target>, trace: string) {
    exists i :: 0 <= i < |items| && items[i].trace == trace
  }

  lemma OtherGroups(rows: Rows, trace: string, t: Target)
    requires IsGroup(rows - IdsOf(rows, trace), t)
    ensures t.trace != trace && IsGroup(rows, t)
  {
    var others := rows - IdsOf(rows, trace);
    assert t.trace != trace;
    assert IdsOf(others, t.trace) == IdsOf(rows, t.trace);
    forall l | l in rows && rows[l] == t.trace ensures l <= t.cursor {
      assert l in others && others[l] == t.trace;
    }
  }

  lemma FirstGroup(rows: Rows)
    requires rows.Keys != {}
    ensures var latest := Greatest(rows.Keys); IsGroup(rows, Target(rows[latest], |IdsOf(rows, rows[latest])|, latest))
  {
  }

  /** One group for each trace number, and the groups in descending order of their latest rows. */
  lemma {:induction false} GroupedMeaning(rows: Rows)
    ensures forall i :: 0 <= i < |Grouped(rows)| ==> IsGroup(rows, Grouped(rows)[i])
    ensures Descending(Grouped(rows))
    ensures forall l :: l in rows ==> Shown(Grouped(rows), rows[l])
    decreases rows.Keys
  {
    if rows.Keys != {} {
      var latest := Greatest(rows.Keys);
      var first := Target(rows[latest], |IdsOf(rows, rows[latest])|, latest);
      var others := rows - IdsOf(rows, rows[latest]);
      FirstGroup(rows);
      assert latest in IdsOf(rows, rows[latest]);
      assert others.Keys < rows.Keys;
      GroupedMeaning(others);
      OthersFollow(rows, first, Grouped(others));
      ShownFirstOrLater(rows, first, Grouped(others));
      assert Grouped(rows) == [first] + Grouped(others);
    }
  }

  lemma OthersFollow(rows: Rows, first: Target, rest: seq<Target>)
    requires IsGroup(rows, first) && first.cursor in rows && forall l :: l in rows ==> l <= first.cursor
    requires forall i :: 0 <= i < |rest| ==> IsGroup(rows - IdsOf(rows, first.trace), rest[i])
    requires Descending(rest)
    ensures forall i :: 0 <= i < |[first] + rest| ==> IsGroup(rows, ([first] + rest)[i])
    ensures Descending([first] + rest)
  {
    forall i | 0 <= i < |rest|
      ensures rest[i].trace != first.trace && IsGroup(rows, rest[i]) && rest[i].cursor < first.cursor
    {
      OtherGroups(rows, first.trace, rest[i]);
    }
  }

  lemma ShownFirstOrLater(rows: Rows, first: Target, rest: seq<Target>)
    requires var others := rows - IdsOf(rows, first.trace); forall l :: l in others ==> Shown(rest, others[l])
    ensures forall l :: l in rows ==> Shown([first] + rest, rows[l])
  {
    forall l | l in rows ensures Shown([first] + rest, rows[l]) {
      if rows[l] == first.trace {
        assert ([first] + rest)[0].trace == rows[l];
      } else {
        var others := rows - IdsOf(rows, first.trace);
        assert l in others && others[l] == rows[l];
        var i :| 0 <= i < |rest| && rest[i].trace == rows[l];
        assert ([first] + rest)[i + 1].trace == rows[l];
      }
    }
  }

  // ---------------------------------------------------------------- pages

  lemma PageMeaning(rows: Rows, limit: nat, cursor: RowId)
    requires limit >= 1
    ensures var r := Below(rows, cursor);
            var page := PageAt(rows, limit, cursor);
            && |page.items| <= limit && page.items <= Grouped(r)
            && (page.hasMore <==> |page.items| < |Grouped(r)|)
            && (page.items == [] <==> r.Keys == {})
            && (page.items != [] ==> page.nextCursor in r && page.nextCursor == page.items[|page.items| - 1].cursor)
  {
    var r := Below(rows, cursor);
    GroupedMeaning(r);
    var page := PageAt(rows, limit, cursor);
    if page.items != [] {
      assert IsGroup(r, Grouped(r)[|page.items| - 1]);
    }
  }

  /** A row whose trace number is not on the page lies below the next cursor, with all rows of that number. */
  lemma NotShownIsBelow(rows: Rows, limit: nat, cursor: RowId, l: RowId)
    requires limit >= 1 && l in Below(rows, cursor)
    requires !Shown(PageAt(rows, limit, cursor).items, Below(rows, cursor)[l])
    ensures PageAt(rows, limit, cursor).items != [] && l < PageAt(rows, limit, cursor).nextCursor
  {
    hide PageAt, Below, Grouped;
    var r := Below(rows, cursor);
    var items := PageAt(rows, limit, cursor).items;
    PageMeaning(rows, limit, cursor);
    GroupedMeaning(r);
    var g := Grouped(r);
    var i :| 0 <= i < |g| && g[i].trace == r[l];
    assert forall k :: 0 <= k < |items| ==> items[k] == g[k];
    assert IsGroup(r, g[i]) && items[|items| - 1] == g[|items| - 1];
  }

  /** When the pager says there is no more, every remaining trace number is on this page. */
  lemma NoMoreShowsAll(rows: Rows, limit: nat, cursor: RowId)
    requires limit >= 1 && !PageAt(rows, limit, cursor).hasMore
    ensures forall l :: l in Below(rows, cursor) ==> Shown(PageAt(rows, limit, cursor).items, Below(rows, cursor)[l])
  {
    PageMeaning(rows, limit, cursor);
    GroupedMeaning(Below(rows, cursor));
    assert PageAt(rows, limit, cursor).items == Grouped(Below(rows, cursor));
  }

  // ---------------------------------------------------------------- following the cursor

  lemma NextIsLower(rows: Rows, limit: nat, cursor: RowId)
    requires limit >= 1 && 0 !in rows && PageAt(rows, limit, cursor).items != []
    ensures var next := PageAt(rows, limit, cursor).nextCursor;
            && next >= 1 && (cursor != 0 ==> next < cursor)
            && Below(rows, next) == Below(Below(rows, cursor), next)
            && Below(rows, next).Keys < Below(rows, cursor).Keys
  {
    PageMeaning(rows, limit, cursor);
    var next := PageAt(rows, limit, cursor).nextCursor;
    assert next in Below(rows, cursor) && next !in Below(rows, next);
  }

  /** What a client is shown that starts at a cursor and follows next_cursor until a page is empty. */
  function Walk(rows: Rows, limit: nat, cursor: RowId): seq<Target>
    requires limit >= 1 && 0 !in rows
    decreases Below(rows, cursor).Keys
  {
    var page := PageAt(rows, limit, cursor);
    if page.items == [] then [] else
      NextIsLower(rows, limit, cursor);
      page.items + Walk(rows, limit, page.nextCursor)
  }

  /** The first time it shows up, a trace number comes with all its rows. */
  ghost predicate FirstShownWhole(rows: Rows, items: seq<Target>, trace: string) {
    exists i :: 0 <= i < |items| && items[i].trace == trace && IsGroup(rows, items[i])
                && forall j :: 0 <= j < i ==> items[j].trace != trace
  }

  lemma ShownOnPageIsWhole(rows: Rows, limit: nat, cursor: RowId, trace: string, rest: seq<Target>)
    requires limit >= 1 && Shown(PageAt(rows, limit, cursor).items, trace)
    ensures FirstShownWhole(Below(rows, cursor), PageAt(rows, limit, cursor).items + rest, trace)
  {
    var r := Below(rows, cursor);
    var items := PageAt(rows, limit, cursor).items;
    PageMeaning(rows, limit, cursor);
    GroupedMeaning(r);
    var i :| 0 <= i < |items| && items[i].trace == trace;
    assert items[i] == Grouped(r)[i] && (items + rest)[i] == items[i];
    forall j | 0 <= j < i ensures (items + rest)[j].trace != trace {
      assert (items + rest)[j] == Grouped(r)[j];
    }
  }

  lemma StillWhole(r: Rows, cursor: RowId, trace: string, t: Target)
    requires cursor >= 1 && forall l :: l in r && r[l] == trace ==> l < cursor
    requires IsGroup(Below(r, cursor), t) && t.trace == trace
    ensures IsGroup(r, t)
  {
    assert IdsOf(Below(r, cursor), trace) == IdsOf(r, trace);
    forall l | l in r && r[l] == trace ensures l <= t.cursor {
      assert l in Below(r, cursor) && Below(r, cursor)[l] == trace;
    }
  }

  /**
   Following the cursor over a fixed table shows every trace number, and the first time with its full count
   and its latest row; later repeats are possible, omissions are not.
   */
  lemma {:induction false} WalkShowsAll(rows: Rows, limit: nat, cursor: RowId, trace: string)
    requires limit >= 1 && 0 !in rows && exists l :: l in Below(rows, cursor) && Below(rows, cursor)[l] == trace
    ensures FirstShownWhole(Below(rows, cursor), Walk(rows, limit, cursor), trace)
    decreases Below(rows, cursor).Keys
  {
    var r := Below(rows, cursor);
    var page := PageAt(rows, limit, cursor);
    var some :| some in r && r[some] == trace;
    PageMeaning(rows, limit, cursor);
    assert page.items != [];
    NextIsLower(rows, limit, cursor);
    var rest := Walk(rows, limit, page.nextCursor);
    if Shown(page.items, trace) {
      ShownOnPageIsWhole(rows, limit, cursor, trace, rest);
    } else {
      forall l | l in r && r[l] == trace ensures l < page.nextCursor {
        NotShownIsBelow(rows, limit, cursor, l);
      }
      assert some in Below(rows, page.nextCursor);
      WalkShowsAll(rows, limit, page.nextCursor, trace);
      LaterIsWhole(r, page.nextCursor, page.items, rest, trace);
    }
  }

  lemma LaterIsWhole(r: Rows, cursor: RowId, items: seq<Target>, rest: seq<Target>, trace: string)
    requires cursor >= 1 && !Shown(items, trace) && FirstShownWhole(Below(r, cursor), rest, trace)
    requires forall l :: l in r && r[l] == trace ==> l < cursor
    ensures FirstShownWhole(r, items + rest, trace)
  {
    var i :| 0 <= i < |rest| && rest[i].trace == trace && IsGroup(Below(r, cursor), rest[i])
             && forall j :: 0 <= j < i ==> rest[j].trace != trace;
    StillWhole(r, cursor, trace, rest[i]);
    var k := |items| + i;
    assert (items + rest)[k] == rest[i];
    forall j | 0 <= j < k ensures (items + rest)[j].trace != trace {
      if j < |items| {
        assert items[j].trace != trace;
      } else {
        assert (items + rest)[j] == rest[j - |items|];
      }
    }
  }

  ghost predicate CursorsDescend(items: seq<Target>) {
    forall i, j :: 0 <= i < j < |items| ==> items[i].cursor > items[j].cursor
  }

  /** The cursors go strictly down along the whole walk. */
  lemma {:induction false} WalkDescends(rows: Rows, limit: nat, cursor: RowId)
    requires limit >= 1 && 0 !in rows
    ensures CursorsDescend(Walk(rows, limit, cursor))
    ensures forall i :: 0 <= i < |Walk(rows, limit, cursor)| ==>
              Walk(rows, limit, cursor)[i].cursor in Below(rows, cursor)
    decreases Below(rows, cursor).Keys
  {
    hide PageAt, Below, CursorsDescend;
    var page := PageAt(rows, limit, cursor);
    if page.items == [] {
      NothingDescends();
    } else {
      NextIsLower(rows, limit, cursor);
      WalkDescends(rows, limit, page.nextCursor);
      OnePageDescends(rows, limit, cursor);
      BelowIsBelow(rows, page.nextCursor);
      var rest := Walk(rows, limit, page.nextCursor);
      Concatenate(page.items, rest);
    }
  }

  lemma NothingDescends()
    ensures CursorsDescend([])
  {
  }

  lemma BelowIsBelow(rows: Rows, cursor: RowId)
    requires cursor >= 1
    ensures forall l :: l in Below(rows, cursor) ==> l < cursor
  {
  }

  lemma OnePageDescends(rows: Rows, limit: nat, cursor: RowId)
    requires limit >= 1
    ensures var page := PageAt(rows, limit, cursor);
            && CursorsDescend(page.items)
            && (forall i :: 0 <= i < |page.items| ==> page.items[i].cursor in Below(rows, cursor))
            && (page.items != [] ==> page.nextCursor == page.items[|page.items| - 1].cursor)
  {
    PageMeaning(rows, limit, cursor);
    GroupedMeaning(Below(rows, cursor));
    hide PageAt, Below, Grouped;
    PageDescends(PageAt(rows, limit, cursor).items, Grouped(Below(rows, cursor)), Below(rows, cursor));
  }

  lemma PageDescends(items: seq<Target>, groups: seq<Target>, rows: Rows)
    requires items <= groups && Descending(groups) && forall i :: 0 <= i < |groups| ==> IsGroup(rows, groups[i])
    ensures CursorsDescend(items) && forall i :: 0 <= i < |items| ==> items[i].cursor in rows
  {
    forall i | 0 <= i < |items| ensures items[i] == groups[i] && items[i].cursor in rows {
      assert IsGroup(rows, groups[i]);
    }
  }

  lemma Concatenate(items: seq<Target>, rest: seq<Target>)
    requires CursorsDescend(items) && CursorsDescend(rest) && items != []
    requires forall i :: 0 <= i < |rest| ==> rest[i].cursor < items[|items| - 1].cursor
    ensures CursorsDescend(items + rest)
  {
    forall i, j | 0 <= i < j < |items + rest| ensures (items + rest)[i].cursor > (items + rest)[j].cursor {
      if i < |items| <= j {
        assert items[i].cursor >= items[|items| - 1].cursor;
      }
    }
  }

  /** A repeat: the rows of a trace number that lie below another's latest row come again as a group of their own. */
  lemma RepeatsHappen(a: string, b: string)
    requires a != b
    ensures Walk(map[1 := a, 2 := b, 3 := a], 2, 0) == [Target(a, 2, 3), Target(b, 1, 2), Target(a, 1, 1)]
  {
    hide PageAt;
    var rows: Rows := map[1 := a, 2 := b, 3 := a];
    ThreePages(a, b);
    assert Walk(rows, 2, 1) == [];
    assert Walk(rows, 2, 2) == [Target(a, 1, 1)] + Walk(rows, 2, 1);
  }

  lemma ThreePages(a: string, b: string)
    requires a != b
    ensures PageAt(map[1 := a, 2 := b, 3 := a], 2, 0) == Page([Target(a, 2, 3), Target(b, 1, 2)], false, 2)
    ensures PageAt(map[1 := a, 2 := b, 3 := a], 2, 2) == Page([Target(a, 1, 1)], false, 1)
    ensures PageAt(map[1 := a, 2 := b, 3 := a], 2, 1) == Page([], false, 0)
  {
    hide Grouped, Below;
    var rows: Rows := map[1 := a, 2 := b, 3 := a];
    TwoGroups(a, b);
    OneGroup(map[1 := a], a, 1);
    Lower(a, b);
  }

  lemma Lower(a: string, b: string)
    ensures var rows: Rows := map[1 := a, 2 := b, 3 := a];
            && Below(rows, 0) == rows && Below(rows, 2) == map[1 := a]
            && Below(rows, 1) == map[] && Grouped(map[]) == []
  {
  }

  lemma OneGroup(rows: Rows, trace: string, id: RowId)
    requires rows == map[id := trace]
    ensures Grouped(rows) == [Target(trace, 1, id)]
  {
    GroupsOf(rows, trace, {id}, id);
    assert rows - {id} == map[];
  }

  lemma TwoGroups(a: string, b: string)
    requires a != b
    ensures Grouped(map[1 := a, 2 := b, 3 := a]) == [Target(a, 2, 3), Target(b, 1, 2)]
  {
    hide Grouped;
    var rows: Rows := map[1 := a, 2 := b, 3 := a];
    var ids: set<RowId> := {1, 3};
    assert IdsOf(rows, a) == ids;
    assert |ids| == 2;
    GroupsOf(rows, a, ids, 3);
    assert rows - ids == map[2 := b];
    OneGroup(map[2 := b], b, 2);
  }

  lemma GroupsOf(rows: Rows, trace: string, ids: set<RowId>, latest: RowId)
    requires latest in rows && rows[latest] == trace && ids == IdsOf(rows, trace)
    requires forall l :: l in rows ==> l <= latest
    ensures Grouped(rows) == [Target(trace, |ids|, latest)] + Grouped(rows - ids)
  {
    assert Greatest(rows.Keys) == latest;
  }

  // ---------------------------------------------------------------- a table that changes meanwhile

  /** The walk when each page is taken from the table of its time. */
  function WalkOver(tables: seq<Rows>, limit: nat, cursor: RowId): seq<Target>
    decreases |tables|
  {
    if tables == [] then [] else
      var page := PageAt(tables[0], limit, cursor);
      if page.items == [] then [] else page.items + WalkOver(tables[1..], limit, page.nextCursor)
  }

  /** The walk gets to an empty page. */
  predicate Ends(tables: seq<Rows>, limit: nat, cursor: RowId)
    decreases |tables|
  {
    && tables != []
    && var page := PageAt(tables[0], limit, cursor);
       page.items == [] || Ends(tables[1..], limit, page.nextCursor)
  }

  /** Whatever other rows come and go, a trace number that stays due throughout is shown. */
  lemma {:induction false} NothingOmitted(tables: seq<Rows>, limit: nat, cursor: RowId, l: RowId, trace: string)
    requires limit >= 1 && Ends(tables, limit, cursor)
    requires (forall k :: 0 <= k < |tables| ==> l in tables[k] && tables[k][l] == trace) && (cursor == 0 || l < cursor)
    ensures Shown(WalkOver(tables, limit, cursor), trace)
    decreases |tables|
  {
    var page := PageAt(tables[0], limit, cursor);
    PageMeaning(tables[0], limit, cursor);
    assert l in tables[0] && l in Below(tables[0], cursor);
    var rest := WalkOver(tables[1..], limit, page.nextCursor);
    if Shown(page.items, trace) {
      var i :| 0 <= i < |page.items| && page.items[i].trace == trace;
      assert (page.items + rest)[i].trace == trace;
    } else {
      NotShownIsBelow(tables[0], limit, cursor, l);
      assert forall k :: 0 <= k < |tables[1..]| ==> tables[1..][k] == tables[k + 1];
      NothingOmitted(tables[1..], limit, page.nextCursor, l, trace);
      var i :| 0 <= i < |rest| && rest[i].trace == trace;
      assert (page.items + rest)[|page.items| + i].trace == trace;
    }
  }

  // ---------------------------------------------------------------- the client

  /** The user script's stored cursor: it goes on below the last page, and starts over after an empty one. */
  class Client {
    var cursor: RowId

    constructor ()
      ensures cursor == 0
    {
      cursor := 0;
    }

    method Targets(rows: Rows, limit: nat) returns (items: seq<Target>)
      requires limit >= 1 && 0 !in rows
      modifies this
      ensures items == PageAt(rows, limit, cursor).items
      ensures cursor == if PageAt(rows, limit, old(cursor)).items == [] then 0 else old(cursor)
      ensures items == [] <==> rows.Keys == {}
      decreases cursor
    {
      PageMeaning(rows, limit, cursor);
      PageMeaning(rows, limit, 0);
      items := PageAt(rows, limit, cursor).items;
      if items == [] && cursor > 0 {
        cursor := 0;
        items := Targets(rows, limit);
      }
    }

    /** The scheduled runs over a table that stays as it is, from the stored cursor until the page that is empty. */
    method RunsToTheEnd(rows: Rows, limit: nat) returns (shown: seq<Target>)
      requires limit >= 1 && 0 !in rows
      modifies this
      ensures shown == Walk(rows, limit, old(cursor)) && PageAt(rows, limit, cursor).items == []
    {
      shown := [];
      while PageAt(rows, limit, cursor).items != []
        invariant shown + Walk(rows, limit, cursor) == Walk(rows, limit, old(cursor))
        decreases Below(rows, cursor).Keys
      {
        NextIsLower(rows, limit, cursor);
        var items := Run(rows, limit);
        shown := shown + items;
      }
    }

    /** One run: a page of targets, after which the smallest cursor on it is stored. */
    method Run(rows: Rows, limit: nat) returns (items: seq<Target>)
      requires limit >= 1 && 0 !in rows
      modifies this
      ensures var from := if PageAt(rows, limit, old(cursor)).items == [] then 0 else old(cursor);
              && items == PageAt(rows, limit, from).items
              && cursor == if items == [] then 0 else PageAt(rows, limit, from).nextCursor
    {
      items := Targets(rows, limit);
      if items != [] {
        ghost var from := cursor;
        OnePageDescends(rows, limit, from);
        var least := items[0].cursor;
        for i := 1 to |items|
          invariant least == items[i - 1].cursor
        {
          if items[i].cursor < least {
            least := items[i].cursor;
          }
        }
        cursor := least;
      }
    }
  }
}
