/** The tool list of bot.py `show_tools`: rows of `get_tools` grouped by name with total and
    available quantities, sorted by name, cut into pages of ten, with navigation and "take"
    buttons.

    The availability count looks issued rows up by tuple position. As written it compares
    position 1 of a `get_issued_tools` row (the tool name) with the group's tool ids, which
    never matches, so nothing is ever subtracted. The model takes the position as a
    parameter: `NAME_COLUMN` is the code as written, `TOOL_ID_COLUMN` the evident intent. */
module Catalogue {
  import opened Base
  import opened Text
  import Sorting
  import opened Grouping
  import opened Schema
  import opened Queries
  import opened Requests
  import opened Invariants

  const TOOLS_PER_PAGE: nat := 10

  /** A value of a Python tuple, where `"Болгарка" in [1, 2]` is simply false. */
  datatype PyValue = PyInt(i: int) | PyStr(s: string)

  /** Position 1 of a `get_issued_tools` row, which the availability count reads. */
  const NAME_COLUMN: nat := 1
  /** Position 0, the tool id. */
  const TOOL_ID_COLUMN: nat := 0

  /** One entry of `grouped_tools`. */
  datatype Group = Group(name: string, ids: seq<int>, total: int, available: int)

  // ---------------------------------------------------------------------------
  // Grouping by name
  // ---------------------------------------------------------------------------

  function RowName(r: ToolRow): string
  {
    r.name
  }

  function Ids(rows: seq<ToolRow>): (r: seq<int>)
    ensures |r| == |rows| && forall k :: 0 <= k < |rows| ==> r[k] == rows[k].id
  {
    seq(|rows|, k requires 0 <= k < |rows| => rows[k].id)
  }

  /** The sum of the `quantity` column. */
  function SumQuantity(rows: seq<ToolRow>): int
  {
    if |rows| == 0 then 0 else SumQuantity(rows[..|rows| - 1]) + rows[|rows| - 1].quantity
  }

  function GroupOf(b: Bucket<ToolRow>): Group
  {
    Group(b.key, Ids(b.members), SumQuantity(b.members), 0)
  }

  /** The first loop of `show_tools`: one group per name, in first-occurrence order, with the
      ids of the rows of that name and the sum of their quantities. */
  function NameGroups(rows: seq<ToolRow>): (r: seq<Group>)
    ensures forall k :: 0 <= k < |r| ==>
              && r[k].ids == Ids(Filter(rows, RowName, r[k].name))
              && r[k].total == SumQuantity(Filter(rows, RowName, r[k].name))
              && r[k].available == 0
              && |r[k].ids| > 0
    ensures forall k, l :: 0 <= k < l < |r| ==> r[k].name != r[l].name
  {
    var bs := GroupBy(rows, RowName);
    GroupBySpec(rows, RowName);
    GroupsOfBuckets(bs, rows)
  }

  /** One group per bucket of an exact grouping by name. */
  function GroupsOfBuckets(bs: seq<Bucket<ToolRow>>, rows: seq<ToolRow>): (r: seq<Group>)
    requires BucketsOf(bs, rows, RowName)
    ensures |r| == |bs| && forall k :: 0 <= k < |r| ==> r[k].name == bs[k].key
    ensures forall k :: 0 <= k < |r| ==>
              && r[k].ids == Ids(Filter(rows, RowName, r[k].name))
              && r[k].total == SumQuantity(Filter(rows, RowName, r[k].name))
              && r[k].available == 0
              && |r[k].ids| > 0
    ensures forall k, l :: 0 <= k < l < |r| ==> r[k].name != r[l].name
  {
    var r := seq(|bs|, k requires 0 <= k < |bs| => GroupOf(bs[k]));
    assert forall k :: 0 <= k < |bs| ==> r[k] == GroupOf(bs[k]);
    r
  }

  /** Every tool row falls in the group of its name. */
  lemma NameGroupsCoverRows(rows: seq<ToolRow>, x: ToolRow)
    requires x in rows
    ensures exists k :: 0 <= k < |NameGroups(rows)| && NameGroups(rows)[k].name == x.name
  {
    var bs := GroupBy(rows, RowName);
    GroupBySpec(rows, RowName);
    var k := FindBucket(bs, RowName(x)).value;
    assert NameGroups(rows)[k].name == bs[k].key;
  }

  // ---------------------------------------------------------------------------
  // Availability
  // ---------------------------------------------------------------------------

  /** Position `column` of a `get_issued_tools` row `(t.id, t.name, i.employee_name, ...)`. */
  function IssuedColumn(v: IssuedView, column: nat): PyValue
    requires column <= 2
  {
    if column == 0 then PyInt(v.toolId) else if column == 1 then PyStr(v.name) else PyStr(v.employee)
  }

  /** A list of ids as Python values. */
  function PyInts(ids: seq<int>): (r: seq<PyValue>)
    ensures forall x :: x in r <==> x.PyInt? && x.i in ids
  {
    var r := seq(|ids|, k requires 0 <= k < |ids| => PyInt(ids[k]));
    assert forall k :: 0 <= k < |ids| ==> r[k] == PyInt(ids[k]);
    r
  }

  /** `len([t for t in issued_tools if t[column] in ids])`. */
  function IssuedCount(views: seq<IssuedView>, ids: seq<int>, column: nat): (n: nat)
    requires column <= 2
    ensures n <= |views|
  {
    if |views| == 0 then 0
    else (if IssuedColumn(views[0], column) in PyInts(ids) then 1 else 0) + IssuedCount(views[1..], ids, column)
  }

  /** The second loop of `show_tools`: `available_qty = total_qty - issued_count`. */
  function WithAvailability(groups: seq<Group>, views: seq<IssuedView>, column: nat): (r: seq<Group>)
    requires column <= 2
    ensures |r| == |groups|
    ensures forall k :: 0 <= k < |r| ==>
              r[k] == groups[k].(available := groups[k].total - IssuedCount(views, groups[k].ids, column))
  {
    seq(|groups|, k requires 0 <= k < |groups| =>
      groups[k].(available := groups[k].total - IssuedCount(views, groups[k].ids, column)))
  }

  predicate GroupLe(a: Group, b: Group)
  {
    StrLe(a.name, b.name)
  }

  lemma GroupLeTotal()
    ensures Sorting.Total(GroupLe)
  {
    forall a: Group, b: Group ensures GroupLe(a, b) || GroupLe(b, a) {
      StrLeTotal(a.name, b.name);
    }
  }

  /** `sorted(grouped_tools.items())`: names are distinct, so this orders by name alone. */
  function SortGroups(groups: seq<Group>): (r: seq<Group>)
    ensures multiset(r) == multiset(groups)
    ensures forall i :: 0 < i < |r| ==> StrLe(r[i - 1].name, r[i].name)
  {
    GroupLeTotal();
    Sorting.Sort(GroupLe, groups)
  }

  /** The sorted, counted groups `show_tools` pages through, reading issued rows at `column`. */
  function ShowToolsGroups(s: Store, now: int, column: nat): (r: seq<Group>)
    requires column <= 2
    ensures multiset(r) == multiset(WithAvailability(NameGroups(GetTools(s)), GetIssuedTools(s, now), column))
    ensures forall g :: g in r ==>
              && g.ids == Ids(Filter(GetTools(s), RowName, g.name))
              && g.total == SumQuantity(Filter(GetTools(s), RowName, g.name))
              && g.available == g.total - IssuedCount(GetIssuedTools(s, now), g.ids, column)
              && |g.ids| > 0
    ensures forall i :: 0 < i < |r| ==> StrLe(r[i - 1].name, r[i].name)
  {
    var counted := WithAvailability(NameGroups(GetTools(s)), GetIssuedTools(s, now), column);
    var r := SortGroups(counted);
    forall g | g in r
      ensures && g.ids == Ids(Filter(GetTools(s), RowName, g.name))
              && g.total == SumQuantity(Filter(GetTools(s), RowName, g.name))
              && g.available == g.total - IssuedCount(GetIssuedTools(s, now), g.ids, column)
              && |g.ids| > 0
    {
      assert g in multiset(counted);
      CountedGroupFacts(GetTools(s), GetIssuedTools(s, now), column, g);
    }
    r
  }

  /** A counted name group: the tools of its name, their summed quantity, and that sum less
      the issued rows matched at `column`. */
  lemma CountedGroupFacts(rows: seq<ToolRow>, views: seq<IssuedView>, column: nat, g: Group)
    requires column <= 2
    requires g in WithAvailability(NameGroups(rows), views, column)
    ensures g.ids == Ids(Filter(rows, RowName, g.name))
    ensures g.total == SumQuantity(Filter(rows, RowName, g.name))
    ensures g.available == g.total - IssuedCount(views, g.ids, column)
    ensures |g.ids| > 0
  {
    var groups := NameGroups(rows);
    var counted := WithAvailability(groups, views, column);
    var k :| 0 <= k < |counted| && counted[k] == g;
    assert g == groups[k].(available := groups[k].total - IssuedCount(views, groups[k].ids, column));
  }

  /** As written: the name at position 1 is never one of the integer ids, so every group
      reports all of its quantity as available, whatever has been issued. */
  lemma AsWrittenAvailableIsTotal(s: Store, now: int, g: Group)
    requires g in ShowToolsGroups(s, now, NAME_COLUMN)
    ensures g.available == g.total
  {
    NameNeverMatches(GetIssuedTools(s, now), g.ids);
  }

  lemma {:induction false} NameNeverMatches(views: seq<IssuedView>, ids: seq<int>)
    ensures IssuedCount(views, ids, NAME_COLUMN) == 0
  {
    if |views| > 0 {
      NameNeverMatches(views[1..], ids);
    }
  }

  // ---------------------------------------------------------------------------
  // The intended count: the group's tools minus those issued
  // ---------------------------------------------------------------------------

  /** The number of issue rows whose tool id is one of `ids`. */
  function CountIdsIn(rows: seq<IssueRecord>, ids: seq<int>): nat
  {
    if |rows| == 0 then 0 else (if rows[0].toolId in ids then 1 else 0) + CountIdsIn(rows[1..], ids)
  }

  /** The number of rows named `name` whose status is `status`. */
  function NamedWithStatus(rows: seq<ToolRow>, name: string, status: Status): nat
  {
    if |rows| == 0 then 0
    else
      var last := rows[|rows| - 1];
      NamedWithStatus(rows[..|rows| - 1], name, status) + (if last.name == name && last.status == status then 1 else 0)
  }

  /** Counting issued views by tool id counts the underlying issue rows when all are listed. */
  lemma {:induction false} ViewsCountRows(s: Store, rows: seq<IssueRecord>, now: int, ids: seq<int>)
    requires forall i :: 0 <= i < |rows| ==> OpenJoined(s, rows[i])
    ensures IssuedCount(IssuedViews(s, rows, now), ids, TOOL_ID_COLUMN) == CountIdsIn(rows, ids)
  {
    if |rows| > 0 {
      ViewsCountRows(s, rows[1..], now, ids);
      var v := ViewOf(s, rows[0], now);
      assert IssuedViews(s, rows, now) == [v] + IssuedViews(s, rows[1..], now);
      assert ([v] + IssuedViews(s, rows[1..], now))[1..] == IssuedViews(s, rows[1..], now);
    }
  }

  lemma {:induction false} CountIdsInAppend(rows: seq<IssueRecord>, ids: seq<int>, x: int)
    requires x !in ids
    ensures CountIdsIn(rows, ids + [x]) == CountIdsIn(rows, ids) + CountRows(rows, x)
  {
    if |rows| > 0 {
      CountIdsInAppend(rows[1..], ids, x);
    }
  }

  lemma {:induction false} CountIdsInNone(rows: seq<IssueRecord>)
    ensures CountIdsIn(rows, []) == 0
  {
    if |rows| > 0 {
      CountIdsInNone(rows[1..]);
    }
  }

  lemma IdsAppend(a: seq<ToolRow>, b: seq<ToolRow>)
    ensures Ids(a + b) == Ids(a) + Ids(b)
  {
  }

  /** With one issue row per issued tool and none per available one, the issue rows of a
      name's tools number that name's issued tools. */
  lemma {:induction false} IssuedAmongNamed(rows: seq<ToolRow>, issued: seq<IssueRecord>, name: string)
    requires forall i, j :: 0 <= i < j < |rows| ==> rows[i].id < rows[j].id
    requires forall i :: 0 <= i < |rows| ==>
               CountRows(issued, rows[i].id) == if rows[i].status == Issued then 1 else 0
    ensures CountIdsIn(issued, Ids(Filter(rows, RowName, name))) == NamedWithStatus(rows, name, Issued)
  {
    if |rows| == 0 {
      CountIdsInNone(issued);
    } else {
      var init := rows[..|rows| - 1];
      var t := rows[|rows| - 1];
      assert rows == init + [t];
      IssuedAmongNamed(init, issued, name);
      FilterAppend(init, RowName, t, name);
      if t.name == name {
        NamedAppendStep(init, issued, t, name);
        assert Filter(rows, RowName, name) == Filter(init, RowName, name) + [t];
      } else {
        assert Filter(rows, RowName, name) == Filter(init, RowName, name);
      }
    }
  }

  /** The step of `IssuedAmongNamed` for a last row bearing the name: its id is new, so it
      adds its own issue rows to the count. */
  lemma NamedAppendStep(init: seq<ToolRow>, issued: seq<IssueRecord>, t: ToolRow, name: string)
    requires t.name == name
    requires forall i :: 0 <= i < |init| ==> init[i].id < t.id
    ensures CountIdsIn(issued, Ids(Filter(init, RowName, name) + [t]))
            == CountIdsIn(issued, Ids(Filter(init, RowName, name))) + CountRows(issued, t.id)
  {
    var before := Filter(init, RowName, name);
    FilterMembers(init, RowName, name);
    IdsAppend(before, [t]);
    assert Ids(before + [t]) == Ids(before) + [t.id];
    forall k | 0 <= k < |before| ensures Ids(before)[k] != t.id {
      assert before[k] in init;
      var idx :| 0 <= idx < |init| && init[idx] == before[k];
      assert init[idx].id < t.id;
    }
    assert t.id !in Ids(before);
    CountIdsInAppend(issued, Ids(before), t.id);
  }

  /** Every tool of a name is either available or issued. */
  lemma {:induction false} NamedSplit(rows: seq<ToolRow>, name: string)
    ensures |Filter(rows, RowName, name)| == NamedWithStatus(rows, name, Available) + NamedWithStatus(rows, name, Issued)
  {
    if |rows| > 0 {
      var init := rows[..|rows| - 1];
      assert rows == init + [rows[|rows| - 1]];
      NamedSplit(init, name);
      FilterAppend(init, RowName, rows[|rows| - 1], name);
    }
  }

  /** When every row has quantity 1, the sum of quantities is the number of rows. */
  lemma {:induction false} SumQuantityOnes(rows: seq<ToolRow>)
    requires forall x :: x in rows ==> x.quantity == DEFAULT_QUANTITY
    ensures SumQuantity(rows) == |rows|
  {
    if |rows| > 0 {
      assert rows[|rows| - 1] in rows;
      SumQuantityOnes(rows[..|rows| - 1]);
    }
  }

  /** With the tool-id position, and one row per physical item as populate_database.py seeds
      it, a group's available quantity is the number of its tools whose status is
      `available`, and so lies between 0 and the total. */
  lemma CorrectedAvailabilityCountsAvailableTools(s: Store, now: int, g: Group)
    requires Inv(s)
    requires forall i :: 0 <= i < |s.tools| ==> s.tools[i].quantity == DEFAULT_QUANTITY
    requires g in ShowToolsGroups(s, now, TOOL_ID_COLUMN)
    ensures g.available == NamedWithStatus(GetTools(s), g.name, Available)
    ensures 0 <= g.available <= g.total
  {
    GroupAvailability(s, now, g.(available := 0));
  }

  /** One group of `NameGroups`, counted with the tool-id position. */
  lemma GroupAvailability(s: Store, now: int, ng: Group)
    requires Inv(s)
    requires forall i :: 0 <= i < |s.tools| ==> s.tools[i].quantity == DEFAULT_QUANTITY
    requires ng.ids == Ids(Filter(GetTools(s), RowName, ng.name))
    requires ng.total == SumQuantity(Filter(GetTools(s), RowName, ng.name))
    ensures var available := ng.total - IssuedCount(GetIssuedTools(s, now), ng.ids, TOOL_ID_COLUMN);
            && available == NamedWithStatus(GetTools(s), ng.name, Available)
            && 0 <= available <= ng.total
  {
    var rows := GetTools(s);
    var named := Filter(rows, RowName, ng.name);
    FilterMembers(rows, RowName, ng.name);
    InvRowFacts(s);
    ViewsCountRows(s, s.issued, now, ng.ids);
    IssuedAmongNamed(rows, s.issued, ng.name);
    NamedSplit(rows, ng.name);
    SumQuantityOnes(named);
  }

  /** What the invariant says about the rows of `get_tools`. */
  lemma InvRowFacts(s: Store)
    requires Inv(s)
    requires forall i :: 0 <= i < |s.tools| ==> s.tools[i].quantity == DEFAULT_QUANTITY
    ensures forall i :: 0 <= i < |s.issued| ==> OpenJoined(s, s.issued[i])
    ensures var rows := GetTools(s);
            && (forall i, j :: 0 <= i < j < |rows| ==> rows[i].id < rows[j].id)
            && (forall i :: 0 <= i < |rows| ==> CountRows(s.issued, rows[i].id) == if rows[i].status == Issued then 1 else 0)
            && (forall x :: x in rows ==> x.quantity == DEFAULT_QUANTITY)
  {
  }

  // ---------------------------------------------------------------------------
  // Pages
  // ---------------------------------------------------------------------------

  /** `(n + TOOLS_PER_PAGE - 1) // TOOLS_PER_PAGE`, the ceiling of n / 10. */
  function TotalPages(n: nat): (r: nat)
    ensures r * TOOLS_PER_PAGE >= n
    ensures r == 0 || (r - 1) * TOOLS_PER_PAGE < n
  {
    (n + TOOLS_PER_PAGE - 1) / TOOLS_PER_PAGE
  }

  /** How Python reads a slice bound: negative counts from the end, then clamped to the length. */
  function SliceIndex(i: int, len: nat): (r: nat)
    ensures r <= len
    ensures 0 <= i <= len ==> r == i
  {
    if i < 0 then (if i + len < 0 then 0 else i + len) else if i > len then len else i
  }

  /** `s[a:b]`. */
  function PySlice<T>(s: seq<T>, a: int, b: int): seq<T>
  {
    var lo := SliceIndex(a, |s|);
    var hi := SliceIndex(b, |s|);
    if lo < hi then s[lo..hi] else []
  }

  /** The groups shown on page `page`: `sorted_tools[start_idx:end_idx]` with
      `start_idx = page * 10` and `end_idx = min(start_idx + 10, len(sorted_tools))`. */
  function PageOf<T>(items: seq<T>, page: int): (r: seq<T>)
    ensures |r| <= TOOLS_PER_PAGE
    ensures 0 <= page < TotalPages(|items|) ==>
              && page * TOOLS_PER_PAGE < |items|
              && r == items[page * TOOLS_PER_PAGE .. if page * TOOLS_PER_PAGE + TOOLS_PER_PAGE < |items| then page * TOOLS_PER_PAGE + TOOLS_PER_PAGE else |items|]
  {
    var start := page * TOOLS_PER_PAGE;
    var end := if start + TOOLS_PER_PAGE < |items| then start + TOOLS_PER_PAGE else |items|;
    PySlice(items, start, end)
  }

  /** Every item sits on page `i / 10`, at position `i % 10`. */
  lemma PageLocation<T>(items: seq<T>, i: nat)
    requires i < |items|
    ensures i / TOOLS_PER_PAGE < TotalPages(|items|)
    ensures i % TOOLS_PER_PAGE < |PageOf(items, i / TOOLS_PER_PAGE)|
    ensures PageOf(items, i / TOOLS_PER_PAGE)[i % TOOLS_PER_PAGE] == items[i]
  {
    var p := i / TOOLS_PER_PAGE;
    assert p * TOOLS_PER_PAGE <= i < p * TOOLS_PER_PAGE + TOOLS_PER_PAGE;
  }

  /** The pages before page `k`, one after another. */
  function PagesBefore<T>(items: seq<T>, k: nat): seq<T>
  {
    if k == 0 then [] else PagesBefore(items, k - 1) + PageOf(items, k - 1)
  }

  /** Reading the pages in order gives back every group exactly once, in order. */
  lemma PagesCoverAll<T>(items: seq<T>)
    ensures PagesBefore(items, TotalPages(|items|)) == items
  {
    PagesPrefix(items, TotalPages(|items|));
    assert items[..|items|] == items;
  }

  lemma {:induction false} PagesPrefix<T>(items: seq<T>, k: nat)
    requires k <= TotalPages(|items|)
    ensures PagesBefore(items, k) == items[..if k * TOOLS_PER_PAGE < |items| then k * TOOLS_PER_PAGE else |items|]
  {
    if k > 0 {
      PagesPrefix(items, k - 1);
    }
  }

  // ---------------------------------------------------------------------------
  // Buttons
  // ---------------------------------------------------------------------------

  datatype NavButton = Back(target: int) | Forward(target: int)

  /** The navigation row: "Back" to `page - 1` when `page > 0`, "Forward" to `page + 1` when
      `page < total_pages - 1`. */
  function NavButtons(page: int, totalPages: nat): (r: seq<NavButton>)
    ensures forall b :: b in r ==> || (b.Back? && page > 0 && b.target == page - 1)
                                   || (b.Forward? && page < totalPages - 1 && b.target == page + 1)
    ensures page > 0 ==> Back(page - 1) in r
    ensures page < totalPages - 1 ==> Forward(page + 1) in r
  {
    (if page > 0 then [Back(page - 1)] else []) + (if page < totalPages - 1 then [Forward(page + 1)] else [])
  }

  /** From a shown page, navigation never leads off the list of pages. */
  lemma NavStaysInRange(page: int, totalPages: nat)
    requires 0 <= page < totalPages
    ensures forall b :: b in NavButtons(page, totalPages) ==> 0 <= b.target < totalPages
  {
  }

  /** The "take" buttons: the first id of every shown group with something available. */
  function TakeButtons(groups: seq<Group>): (r: seq<int>)
    requires forall g :: g in groups ==> |g.ids| > 0
    ensures forall x :: x in r <==> exists k :: 0 <= k < |groups| && groups[k].available > 0 && groups[k].ids[0] == x
  {
    if |groups| == 0 then []
    else
      var rest := TakeButtons(groups[1..]);
      assert forall k :: 1 <= k < |groups| ==> groups[k] == groups[1..][k - 1];
      (if groups[0].available > 0 then [groups[0].ids[0]] else []) + rest
  }

  /** The callback data of page `page`. */
  function PageCallback(page: int): string
  {
    "tools_page_" + ShowInt(page)
  }

  /** The page `show_tools` opens for its callback data: 0 for `tools`, otherwise
      `int(data.split("_")[2])`; `None` where that raises. */
  function ParsePage(data: string): Option<int>
  {
    if data == "tools" then Some(0)
    else
      var parts := Split(data, '_');
      if |parts| < 3 then None else ParseInt(parts[2])
  }

  /** The page a navigation button names is the page it opens. */
  lemma ParsePageCallback(page: int)
    ensures ParsePage(PageCallback(page)) == Some(page)
  {
    var digits := ShowInt(page);
    var parts := ["tools", "page", digits];
    assert parts[1..] == ["page", digits] && parts[1..][1..] == [digits];
    assert Join(parts[1..], '_') == "page" + ['_'] + digits;
    assert Join(parts, '_') == "tools" + ['_'] + ("page" + ['_'] + digits);
    assert "tools" + ['_'] + ("page" + ['_'] + digits) == "tools_page_" + digits;
    SplitJoin(parts, '_');
    ParseShowInt(page);
  }

  /** What `show_tools` puts on screen. */
  datatype ToolsScreen = ToolsScreen(page: int, totalPages: nat, groups: seq<Group>, take: seq<int>, nav: seq<NavButton>)

  /** `show_tools` for its callback data; `None` where the page number does not parse. */
  function ShowTools(s: Store, now: int, data: string, column: nat): (r: Option<ToolsScreen>)
    requires column <= 2
    ensures ParsePage(data).None? <==> r.None?
    ensures r.Some? ==> |r.value.groups| <= TOOLS_PER_PAGE
    ensures r.Some? ==>
              var all := ShowToolsGroups(s, now, column);
              && r.value.page == ParsePage(data).value
              && r.value.groups == PageOf(all, r.value.page)
              && r.value.totalPages == TotalPages(|all|)
              && r.value.nav == NavButtons(r.value.page, r.value.totalPages)
    ensures r.Some? ==> forall g :: g in r.value.groups ==> |g.ids| > 0
    ensures r.Some? ==> forall x :: x in r.value.take <==>
              exists g :: g in r.value.groups && g.available > 0 && |g.ids| > 0 && g.ids[0] == x
  {
    match ParsePage(data)
    case None => None
    case Some(page) =>
      var all := ShowToolsGroups(s, now, column);
      var shown := PageOf(all, page);
      assert forall g :: g in shown ==> g in all;
      var total := TotalPages(|all|);
      Some(ToolsScreen(page, total, shown, TakeButtons(shown), NavButtons(page, total)))
  }
}
