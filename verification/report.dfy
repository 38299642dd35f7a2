/** The admin report of bot.py `show_admin_report` (total quantity, outstanding issues, tool
    rows per brand, largest brand first), the brand listing of `show_tools_command` with its
    buttons for free tools, and the name filter of `process_search`. */
module Report {
  import opened Base
  import opened Text
  import Sorting
  import opened Grouping
  import opened Schema
  import opened Queries
  import opened Invariants
  import opened Seeding
  import opened Catalogue

  /** The administrator's Telegram user id, fixed in the bot's source. */
  const ADMIN_ID: int := 1495719377

  predicate IsAdmin(userId: int)
  {
    userId == ADMIN_ID
  }

  /** What separates a brand from the model in a tool name. */
  const BRAND_SEP: string := " - "

  /** The brand of names without a separator. */
  const OTHER_BRAND: string := "Другое"

  // ---------------------------------------------------------------------------
  // Brands
  // ---------------------------------------------------------------------------

  /** `name.split(' - ')[0] if ' - ' in name else 'Другое'`: the text before the first
      separator, or the catch-all brand. */
  function Brand(name: string): (r: string)
    ensures Contains(name, BRAND_SEP) ==>
              && |r| + |BRAND_SEP| <= |name|
              && name[..|r|] == r
              && MatchAt(name, BRAND_SEP, |r|)
              && forall j :: 0 <= j < |r| ==> !MatchAt(name, BRAND_SEP, j)
    ensures !Contains(name, BRAND_SEP) ==> r == OTHER_BRAND
  {
    match IndexOf(name, BRAND_SEP)
    case Some(i) => name[..i]
    case None => OTHER_BRAND
  }

  /** A brand without a hyphen, followed by the separator and any model name, is read back. */
  lemma BrandOfBrandedName(brand: string, model: string)
    requires '-' !in brand
    ensures Brand(brand + BRAND_SEP + model) == brand
  {
    var name := brand + BRAND_SEP + model;
    assert MatchAt(name, BRAND_SEP, |brand|) by {
      assert name[|brand|..|brand| + |BRAND_SEP|] == BRAND_SEP;
    }
    forall j | 0 <= j < |brand| ensures !MatchAt(name, BRAND_SEP, j) {
      if j + 1 < |brand| {
        assert name[j + 1] == brand[j + 1] != '-';
      } else {
        assert name[j + 1] == ' ';
      }
    }
    assert name[..|brand|] == brand;
  }

  function RowBrand(r: ToolRow): string
  {
    Brand(r.name)
  }

  /** One line of the brand statistics. */
  datatype BrandCount = BrandCount(brand: string, count: nat)

  /** One count per dictionary entry, in dictionary order. */
  function CountsOf(bs: seq<Bucket<ToolRow>>): (r: seq<BrandCount>)
    ensures |r| == |bs|
    ensures forall k :: 0 <= k < |r| ==> r[k] == BrandCount(bs[k].key, |bs[k].members|)
  {
    if |bs| == 0 then [] else CountsOf(bs[..|bs| - 1]) + [BrandCount(bs[|bs| - 1].key, |bs[|bs| - 1].members|)]
  }

  /** The `brands` dictionary: `brands[brand] = brands.get(brand, 0) + 1` over the rows. */
  function BrandCounts(rows: seq<ToolRow>): (r: seq<BrandCount>)
    ensures forall k :: 0 <= k < |r| ==> r[k].count == |Filter(rows, RowBrand, r[k].brand)| > 0
    ensures forall k, l :: 0 <= k < l < |r| ==> r[k].brand != r[l].brand
    ensures forall x :: x in rows ==> exists k :: 0 <= k < |r| && r[k].brand == Brand(x.name)
  {
    var bs := GroupBy(rows, RowBrand);
    GroupBySpec(rows, RowBrand);
    var r := CountsOf(bs);
    assert forall x :: x in rows ==> r[FindBucket(bs, RowBrand(x)).value].brand == Brand(x.name);
    r
  }

  function SumCounts(cs: seq<BrandCount>): nat
  {
    if |cs| == 0 then 0 else SumCounts(cs[..|cs| - 1]) + cs[|cs| - 1].count
  }

  lemma {:induction false} SumCountsOf(bs: seq<Bucket<ToolRow>>)
    ensures SumCounts(CountsOf(bs)) == TotalMembers(bs)
  {
    if |bs| > 0 {
      var n := |bs| - 1;
      SumCountsOf(bs[..n]);
      assert CountsOf(bs)[..n] == CountsOf(bs[..n]);
    }
  }

  /** Every tool row is counted under exactly one brand. */
  lemma BrandCountsSum(rows: seq<ToolRow>)
    ensures SumCounts(BrandCounts(rows)) == |rows|
  {
    SumCountsOf(GroupBy(rows, RowBrand));
    GroupByTotal(rows, RowBrand);
  }

  predicate CountGe(a: BrandCount, b: BrandCount)
  {
    a.count >= b.count
  }

  /** The admin report: `sum(tool[3])`, `len(get_issued_tools())` and the brand counts sorted
      by count, largest first. */
  datatype AdminReport = AdminReport(total: int, issued: nat, brands: seq<BrandCount>)

  /** `show_admin_report`; `None` for anyone but the administrator. */
  function ShowAdminReport(s: Store, now: int, userId: int): (r: Option<AdminReport>)
    ensures r.Some? <==> IsAdmin(userId)
    ensures r.Some? ==> r.value.total == SumQuantity(GetTools(s))
    ensures r.Some? ==> r.value.issued == |GetIssuedTools(s, now)|
    ensures r.Some? ==> multiset(r.value.brands) == multiset(BrandCounts(GetTools(s)))
    ensures r.Some? ==> forall i :: 0 < i < |r.value.brands| ==> r.value.brands[i - 1].count >= r.value.brands[i].count
  {
    if !IsAdmin(userId) then None
    else
      var rows := GetTools(s);
      assert Sorting.Total(CountGe);
      Some(AdminReport(SumQuantity(rows), |GetIssuedTools(s, now)|, Sorting.Sort(CountGe, BrandCounts(rows))))
  }

  lemma {:induction false} IssuedViewsAllOpen(s: Store, rows: seq<IssueRecord>, now: int)
    requires forall i :: 0 <= i < |rows| ==> OpenJoined(s, rows[i])
    ensures |IssuedViews(s, rows, now)| == |rows|
  {
    if |rows| > 0 {
      IssuedViewsAllOpen(s, rows[1..], now);
    }
  }

  /** Under the store invariant the report's issued figure is the number of issue rows. */
  lemma ReportIssuedCountsRows(s: Store, now: int)
    requires Inv(s)
    ensures ShowAdminReport(s, now, ADMIN_ID).value.issued == |s.issued|
  {
    IssuedViewsAllOpen(s, s.issued, now);
  }

  /** Right after seeding, the report shows the 77 catalogue items, nothing issued, and brand
      counts adding up to the 77 rows. */
  lemma SeededReport(now: int)
    ensures var r := ShowAdminReport(SeededStore(Names(CATALOGUE)), now, ADMIN_ID).value;
            r.total == CATALOGUE_ITEMS && r.issued == 0
            && SumCounts(BrandCounts(GetTools(SeededStore(Names(CATALOGUE))))) == CATALOGUE_ITEMS
  {
    var s := SeededStore(Names(CATALOGUE));
    CatalogueItems();
    SeededStoreInv(Names(CATALOGUE));
    var rows := GetTools(s);
    assert forall x :: x in rows ==> x.quantity == DEFAULT_QUANTITY;
    SumQuantityOnes(rows);
    BrandCountsSum(rows);
    ReportIssuedCountsRows(s, now);
  }

  // ---------------------------------------------------------------------------
  // Brand listing and free-tool buttons
  // ---------------------------------------------------------------------------

  predicate BucketLe(a: Bucket<ToolRow>, b: Bucket<ToolRow>)
  {
    StrLe(a.key, b.key)
  }

  lemma BucketLeTotal()
    ensures Sorting.Total(BucketLe)
  {
    forall a: Bucket<ToolRow>, b: Bucket<ToolRow> ensures BucketLe(a, b) || BucketLe(b, a) {
      StrLeTotal(a.key, b.key);
    }
  }

  /** `[tool[0] for tool in issued_tools]`. */
  function IssuedIds(views: seq<IssuedView>): (r: seq<int>)
    ensures forall x :: x in r <==> exists v :: v in views && v.toolId == x
  {
    var r := seq(|views|, k requires 0 <= k < |views| => views[k].toolId);
    assert forall k :: 0 <= k < |views| ==> r[k] == views[k].toolId;
    r
  }

  /** The "take" buttons: the ids of the rows not among the issued ids, in row order. */
  function FreeTools(rows: seq<ToolRow>, issuedIds: seq<int>): (r: seq<int>)
    ensures forall x :: x in r <==> exists t :: t in rows && t.id == x && x !in issuedIds
  {
    if |rows| == 0 then []
    else
      var rest := FreeTools(rows[1..], issuedIds);
      assert forall t :: t in rows <==> t == rows[0] || t in rows[1..];
      (if rows[0].id !in issuedIds then [rows[0].id] else []) + rest
  }

  /** What `show_tools_command` shows: the tools grouped by brand in brand order, and the
      buttons for free tools. */
  datatype BrandListing = BrandListing(brands: seq<Bucket<ToolRow>>, free: seq<int>)

  function ShowBrandListing(s: Store, now: int): (r: BrandListing)
    ensures multiset(r.brands) == multiset(GroupBy(GetTools(s), RowBrand))
    ensures forall i :: 0 < i < |r.brands| ==> StrLe(r.brands[i - 1].key, r.brands[i].key)
    ensures r.free == FreeTools(GetTools(s), IssuedIds(GetIssuedTools(s, now)))
  {
    BucketLeTotal();
    BrandListing(Sorting.Sort(BucketLe, GroupBy(GetTools(s), RowBrand)),
                 FreeTools(GetTools(s), IssuedIds(GetIssuedTools(s, now))))
  }

  /** Each brand section lists exactly the rows of that brand, and each row sits in one. */
  lemma BrandListingSections(s: Store, now: int, b: Bucket<ToolRow>)
    requires b in ShowBrandListing(s, now).brands
    ensures b.members == Filter(GetTools(s), RowBrand, b.key) && |b.members| > 0
  {
    var bs := GroupBy(GetTools(s), RowBrand);
    GroupBySpec(GetTools(s), RowBrand);
    assert b in multiset(bs);
  }

  /** Under the store invariant a tool gets a button exactly when its status is `available`. */
  lemma FreeButtonIffAvailable(s: Store, now: int, x: int)
    requires Inv(s)
    ensures x in ShowBrandListing(s, now).free <==> HasTool(s, x) && FindTool(s.tools, x).value.status == Available
  {
    var rows := GetTools(s);
    var views := GetIssuedTools(s, now);
    if HasTool(s, x) {
      IssuedStatusAgreesWithQueries(s, x, now);
      var i :| 0 <= i < |s.tools| && s.tools[i] == FindTool(s.tools, x).value;
      assert rows[i].id == x;
      assert x in IssuedIds(views) <==> FirstOfTool(views, x).Some?;
    } else {
      forall t | t in rows ensures t.id != x {
        var i :| 0 <= i < |rows| && rows[i] == t;
        assert s.tools[i].id == t.id;
      }
    }
  }

  // ---------------------------------------------------------------------------
  // Search
  // ---------------------------------------------------------------------------

  /** `process_search`: the rows whose lower-cased name contains the lower-cased query, in
      row order. */
  function Search(rows: seq<ToolRow>, query: string): (r: seq<ToolRow>)
    ensures |r| <= |rows|
    ensures forall t :: t in r <==> t in rows && Contains(Lower(t.name), Lower(query))
  {
    if |rows| == 0 then []
    else
      var init := rows[..|rows| - 1];
      var last := rows[|rows| - 1];
      assert rows == init + [last];
      Search(init, query) + (if Contains(Lower(last.name), Lower(query)) then [last] else [])
  }

  /** The query's letter case does not matter. */
  lemma {:induction false} SearchIgnoresCase(rows: seq<ToolRow>, query: string)
    ensures Search(rows, Lower(query)) == Search(rows, query)
  {
    LowerIdempotent(query);
    if |rows| > 0 {
      SearchIgnoresCase(rows[..|rows| - 1], query);
    }
  }

  /** The empty query finds every tool. */
  lemma {:induction false} EmptySearchFindsAll(rows: seq<ToolRow>)
    ensures Search(rows, []) == rows
  {
    if |rows| > 0 {
      var last := rows[|rows| - 1];
      assert MatchAt(Lower(last.name), Lower([]), 0);
      EmptySearchFindsAll(rows[..|rows| - 1]);
    }
  }
}
