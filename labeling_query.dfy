/** The read side of the labelling routes: the permission scope and filters of the sample
    list, its status filter (built condition by condition), pagination, the dropdown option
    lists, and the choice of the next sample to label after an edit. The sample table is a
    sequence in storage order; a query without ORDER BY returns rows in that order. */
module LabelingQuery {
  import opened Wrappers
  import opened Text
  import opened Models
  import Cache

  const PER_PAGE := 50
  const OPTION_LIMIT := 1000

  type Table = seq<Sample>

  /** SQL `column IN (values)`: a NULL column is in no list. */
  predicate SqlIn(v: Option<string>, values: seq<string>) {
    v.Some? && v.value in values
  }

  /** The permission filters a query adds for the current user: `category IN category_arr`
      when the list is present, and likewise for the brand. */
  predicate InScope(u: User, s: Sample) {
    && (u.categoryArr.None? || SqlIn(s.category, u.categoryArr.value))
    && (u.brandArr.None? || SqlIn(s.brand, u.brandArr.value))
  }

  /** The SQL scope filters select exactly the rows the user's `has_permission` grants. */
  lemma InScopeIsPermission(u: User, s: Sample)
    ensures InScope(u, s) <==> HasPermission(u, s.category, s.brand)
  {
  }

  // ---------------------------------------------------------------- sample list filters

  /** The outcome of `strptime(text, '%Y-%m-%d')` on a date filter argument: no argument
      (empty text), a parsed day, or text that raised ValueError. */
  datatype DateArg = NoDate | Parsed(day: Date) | Malformed

  /** The query arguments of the sample list. Every list filter is the `getlist` of one
      argument; an empty list imposes no restriction. */
  datatype Filters = Filters(
    keyword: string,
    eretailer: seq<string>,
    onlineStore: seq<string>,
    brand: seq<string>,
    note: seq<string>,
    isCompetitor: seq<string>,
    startDate: DateArg,
    endDate: DateArg,
    totalComments: seq<string>,
    lastTotalComments: seq<string>,
    attr1: seq<string>,
    attr2: seq<string>,
    attr3: seq<string>,
    attr4: seq<string>,
    attr5: seq<string>,
    status: seq<string>)

  /** A non-empty list filter is an IN test; an empty one lets every row through. */
  predicate ListFilter(values: seq<string>, v: Option<string>) {
    values == [] || SqlIn(v, values)
  }

  /** The keyword filter: a substring of the description, of the decimal id or of the SKU. */
  predicate KeywordMatches(keyword: string, s: Sample) {
    || keyword == ""
    || (s.productDescription.Some? && Contains(s.productDescription.value, keyword))
    || Contains(IntToString(s.id), keyword)
    || (s.sku.Some? && Contains(s.sku.value, keyword))
  }

  /** The review-date bounds the query applies, and whether the invalid-date warning is shown. */
  datatype DateBounds = DateBounds(lower: Option<Date>, upper: Option<Date>, warning: bool)

  /** Both dates are parsed inside one `try`: a malformed start date raises before the end
      date is looked at, so neither bound applies; a malformed end date leaves the start bound. */
  function ReviewDateBounds(start: DateArg, end: DateArg): (b: DateBounds)
    ensures b.warning <==> start.Malformed? || end.Malformed?
    ensures forall d :: b.lower == Some(d) <==> start == Parsed(d)
    ensures forall d :: b.upper == Some(d) <==> end == Parsed(d) && !start.Malformed?
  {
    if start.Malformed? then DateBounds(None, None, true)
    else
      var lower := if start.Parsed? then Some(start.day) else None;
      match end
      case Malformed => DateBounds(lower, None, true)
      case Parsed(d) => DateBounds(lower, Some(d), false)
      case NoDate => DateBounds(lower, None, false)
  }

  /** `latest_review_date >= lower` and `<= upper`; a NULL date fails any bound. */
  predicate WithinBounds(b: DateBounds, d: Option<Date>) {
    && (b.lower.None? || (d.Some? && b.lower.value <= d.value))
    && (b.upper.None? || (d.Some? && d.value <= b.upper.value))
  }

  /** Both date bounds are inclusive, and a row without a review date is excluded by them. */
  lemma DateBoundsInclusive(lo: Date, hi: Date, d: Option<Date>)
    ensures WithinBounds(ReviewDateBounds(Parsed(lo), Parsed(hi)), d) <==> d.Some? && lo <= d.value <= hi
    ensures WithinBounds(ReviewDateBounds(Malformed, Parsed(hi)), d)
  {
  }

  /** The statuses the "Unlabeled" choice stands for. */
  predicate UnlabeledLike(st: Option<string>) {
    st.None? || st == Some("") || st == Some(UNLABELED)
  }

  /** What the status filter means: no restriction when empty; otherwise membership in the
      requested statuses, where "Unlabeled" also admits NULL and the empty status. */
  predicate StatusFilterMatches(filter: seq<string>, st: Option<string>) {
    filter == [] || SqlIn(st, filter) || (UNLABELED in filter && UnlabeledLike(st))
  }

  /** One OR-ed condition of the status filter. */
  datatype StatusTest = UnlabeledTest | InTest(values: seq<string>)

  predicate Holds(t: StatusTest, st: Option<string>) {
    match t
    case UnlabeledTest => UnlabeledLike(st)
    case InTest(values) => SqlIn(st, values)
  }

  /** `filter(or_(*conditions))`, skipped when there are no conditions. */
  predicate AnyHolds(conditions: seq<StatusTest>, st: Option<string>) {
    conditions == [] || exists i :: 0 <= i < |conditions| && Holds(conditions[i], st)
  }

  /** Python's `list.remove(x)`: drops the first occurrence of `x`. */
  function RemoveFirst(s: seq<string>, x: string): (r: seq<string>)
    ensures x in s ==> |r| == |s| - 1
    ensures forall y :: y in r ==> y in s
    ensures forall y :: y in s && y != x ==> y in r
  {
    if s == [] then []
    else if s[0] == x then s[1..]
    else [s[0]] + RemoveFirst(s[1..], x)
  }

  /** Builds the status conditions as the route does: an "Unlabeled" condition when that
      status is requested (removing it from the list), then an IN test on what remains. */
  method StatusConditions(statusFilter: seq<string>) returns (conditions: seq<StatusTest>)
    ensures statusFilter == [] <==> conditions == []
    ensures forall st :: AnyHolds(conditions, st) <==> StatusFilterMatches(statusFilter, st)
  {
    conditions := [];
    var remaining := statusFilter;
    if remaining != [] {
      if UNLABELED in remaining {
        conditions := conditions + [UnlabeledTest];
        remaining := RemoveFirst(remaining, UNLABELED);
      }
      if remaining != [] {
        conditions := conditions + [InTest(remaining)];
      }
    }
    forall st ensures AnyHolds(conditions, st) <==> StatusFilterMatches(statusFilter, st) {
      if statusFilter != [] {
        if StatusFilterMatches(statusFilter, st) {
          if UNLABELED in statusFilter && UnlabeledLike(st) {
            assert Holds(conditions[0], st);
          } else {
            assert st.value in remaining;
            assert Holds(conditions[|conditions| - 1], st);
          }
        }
      }
    }
  }

  /** Every filter of the list except the status filter. */
  predicate OtherFiltersMatch(u: User, f: Filters, s: Sample) {
    && InScope(u, s)
    && KeywordMatches(f.keyword, s)
    && ListFilter(f.eretailer, s.eRetailer)
    && ListFilter(f.onlineStore, s.onlineStore)
    && ListFilter(f.brand, s.brand)
    && ListFilter(f.note, s.note)
    && ListFilter(f.isCompetitor, s.isCompetitor)
    && WithinBounds(ReviewDateBounds(f.startDate, f.endDate), s.latestReviewDate)
    && ListFilter(f.totalComments, s.totalComments)
    && ListFilter(f.lastTotalComments, s.lastTotalComments)
    && ListFilter(f.attr1, s.attrs.a1)
    && ListFilter(f.attr2, s.attrs.a2)
    && ListFilter(f.attr3, s.attrs.a3)
    && ListFilter(f.attr4, s.attrs.a4)
    && ListFilter(f.attr5, s.attrs.a5)
  }

  /** The meaning of the whole sample-list query for one row. */
  predicate MatchesFilters(u: User, f: Filters, s: Sample) {
    OtherFiltersMatch(u, f, s) && StatusFilterMatches(f.status, s.status)
  }

  /** The rows the list query selects, in table order: exactly the matching rows. */
  function Select(table: Table, u: User, f: Filters): (r: Table)
    ensures |r| <= |table|
    ensures forall s :: s in r <==> s in table && MatchesFilters(u, f, s)
  {
    if table == [] then []
    else
      var rest := Select(table[1..], u, f);
      assert table == [table[0]] + table[1..];
      if MatchesFilters(u, f, table[0]) then [table[0]] + rest else rest
  }

  /** The query the route actually runs: the other filters and the built status conditions. */
  function QueryRows(table: Table, u: User, f: Filters, conditions: seq<StatusTest>): Table {
    if table == [] then []
    else
      var rest := QueryRows(table[1..], u, f, conditions);
      var s := table[0];
      if OtherFiltersMatch(u, f, s) && AnyHolds(conditions, s.status) then [s] + rest else rest
  }

  lemma {:induction false} QueryRowsIsSelect(table: Table, u: User, f: Filters, conditions: seq<StatusTest>)
    requires forall st :: AnyHolds(conditions, st) <==> StatusFilterMatches(f.status, st)
    ensures QueryRows(table, u, f, conditions) == Select(table, u, f)
  {
    if table != [] {
      QueryRowsIsSelect(table[1..], u, f, conditions);
    }
  }

  /** One page of a result: `paginate(page, per_page=50, error_out=False)`. */
  datatype Page = Page(items: Table, page: int, pages: nat, total: nat)

  /** A page number below 1 is read as page 1; a page past the end is empty. */
  function Paginate(rows: Table, page: int): (p: Page)
    ensures p.total == |rows| && p.page >= 1 && (page >= 1 ==> p.page == page)
    ensures p.pages * PER_PAGE >= |rows| && (p.pages == 0 || (p.pages - 1) * PER_PAGE < |rows|)
    ensures var lo := (p.page - 1) * PER_PAGE;
            if lo < |rows| then
              p.items == rows[lo..if lo + PER_PAGE <= |rows| then lo + PER_PAGE else |rows|]
            else p.items == []
    ensures |p.items| <= PER_PAGE
  {
    var current := if page < 1 then 1 else page;
    var lo := (current - 1) * PER_PAGE;
    var hi := if lo + PER_PAGE <= |rows| then lo + PER_PAGE else |rows|;
    var pages := (|rows| + PER_PAGE - 1) / PER_PAGE;
    Page(if lo < |rows| then rows[lo..hi] else [], current, pages, |rows|)
  }

  /** What the list page shows: the page of rows and whether the date warning is flashed. */
  datatype Listing = Listing(page: Page, dateWarning: bool)

  /** The sample list as specified by its filters. */
  function ListSamples(table: Table, u: User, f: Filters, page: int): Listing {
    Listing(Paginate(Select(table, u, f), page), ReviewDateBounds(f.startDate, f.endDate).warning)
  }

  /** The `samples` route: it builds the status conditions step by step and runs the query;
      the outcome is the specified listing. */
  method Samples(table: Table, u: User, f: Filters, page: int) returns (r: Listing)
    ensures r == ListSamples(table, u, f, page)
  {
    var conditions := StatusConditions(f.status);
    var rows := QueryRows(table, u, f, conditions);
    QueryRowsIsSelect(table, u, f, conditions);
    var bounds := ReviewDateBounds(f.startDate, f.endDate);
    r := Listing(Paginate(rows, page), bounds.warning);
  }

  /** Every row a page shows is a row of the table that the user may see and that passes
      every filter; no page leaves the user's permission scope. */
  lemma ListedRowsInScope(table: Table, u: User, f: Filters, page: int, s: Sample)
    requires s in ListSamples(table, u, f, page).page.items
    ensures s in table && HasPermission(u, s.category, s.brand) && MatchesFilters(u, f, s)
  {
    var rows := Select(table, u, f);
    var p := Paginate(rows, page);
    var lo := (p.page - 1) * PER_PAGE;
    assert lo < |rows|;
    assert s in rows;
  }

  /** With no filter arguments the list is exactly the rows in the user's scope. */
  lemma NoFiltersMeansScopeOnly(table: Table, u: User, s: Sample)
    ensures var none := Filters("", [], [], [], [], [], NoDate, NoDate, [], [], [], [], [], [], [], []);
            s in Select(table, u, none) <==> s in table && HasPermission(u, s.category, s.brand)
  {
  }

  // ---------------------------------------------------------------- next sample after an edit

  /** `status NOT IN (Labeled, Historical, Incomplete) OR status IS NULL`. */
  predicate NeedsWork(st: Option<string>) {
    st.None? || (st.value != LABELED && st.value != HISTORICAL && st.value != INCOMPLETE)
  }

  /** The next-sample query: a row after the edited id that still needs work and is in the
      user's scope; `first()` without ORDER BY, so the first such row in table order, which
      need not be the one with the lowest id. */
  function NextSample(table: Table, editedId: int, u: User): (r: Option<Sample>)
    ensures r.Some? ==> && r.value in table && r.value.id > editedId
                        && NeedsWork(r.value.status) && !IsLabeled(r.value)
                        && HasPermission(u, r.value.category, r.value.brand)
    ensures r.None? ==> forall s :: s in table && s.id > editedId && InScope(u, s) ==> IsLabeled(s)
  {
    if table == [] then None
    else
      var s := table[0];
      if s.id > editedId && NeedsWork(s.status) && InScope(u, s) then Some(s)
      else
        var r := NextSample(table[1..], editedId, u);
        assert table == [s] + table[1..];
        r
  }

  // ---------------------------------------------------------------- dropdown option lists

  /** A column a dropdown can list; its `Name` is the model attribute the route passes. */
  datatype Column =
    | ERetailer | OnlineStore | Category | Brand | IsCompetitor | ProductDescription | Url
    | SkuUrl | Sku | SkuId | RetailerProductCode | ImageUrl | Total | TotalComments
    | LastMonthTotal | LastTotalComments | Note | Attr1 | Attr2 | Attr3 | Attr4 | Attr5 | Status
  {
    function Name(): string {
      match this
      case ERetailer => "eRetailer"
      case OnlineStore => "online_store"
      case Category => "category"
      case Brand => "brand"
      case IsCompetitor => "is_competitor"
      case ProductDescription => "product_description"
      case Url => "url"
      case SkuUrl => "sku_url"
      case Sku => "sku"
      case SkuId => "sku_id"
      case RetailerProductCode => "retailer_product_code"
      case ImageUrl => "image_url"
      case Total => "total"
      case TotalComments => "total_comments"
      case LastMonthTotal => "last_month_total"
      case LastTotalComments => "last_total_comments"
      case Note => "note"
      case Attr1 => "prod_attributes1"
      case Attr2 => "prod_attributes2"
      case Attr3 => "prod_attributes3"
      case Attr4 => "prod_attributes4"
      case Attr5 => "prod_attributes5"
      case Status => "status"
    }

    function Value(s: Sample): Option<string> {
      match this
      case ERetailer => s.eRetailer
      case OnlineStore => s.onlineStore
      case Category => s.category
      case Brand => s.brand
      case IsCompetitor => s.isCompetitor
      case ProductDescription => s.productDescription
      case Url => s.url
      case SkuUrl => s.skuUrl
      case Sku => s.sku
      case SkuId => s.skuId
      case RetailerProductCode => s.retailerProductCode
      case ImageUrl => s.imageUrl
      case Total => s.total
      case TotalComments => s.totalComments
      case LastMonthTotal => s.lastMonthTotal
      case LastTotalComments => s.lastTotalComments
      case Note => s.note
      case Attr1 => s.attrs.a1
      case Attr2 => s.attrs.a2
      case Attr3 => s.attrs.a3
      case Attr4 => s.attrs.a4
      case Attr5 => s.attrs.a5
      case Status => s.status
    }
  }

  /** `prod_attributes{n}` for the attribute dropdowns; callers pass 1 to 5. */
  function AttributeColumn(n: int): (c: Column)
    requires 1 <= n <= 5
    ensures c.Name() == "prod_attributes" + IntToString(n)
  {
    if n == 1 then Attr1 else if n == 2 then Attr2 else if n == 3 then Attr3
    else if n == 4 then Attr4 else Attr5
  }

  /** The option queries filter by permission only for an authenticated user. */
  predicate OptionScope(viewer: Option<User>, s: Sample) {
    viewer.None? || InScope(viewer.value, s)
  }

  /** The non-NULL, non-empty values of a column over the rows in scope, in table order. */
  function Candidates(table: Table, c: Column, viewer: Option<User>): (r: seq<string>)
    ensures forall x :: x in r <==>
              exists i :: 0 <= i < |table| && OptionScope(viewer, table[i])
                          && c.Value(table[i]) == Some(x) && x != ""
  {
    if table == [] then []
    else
      var rest := Candidates(table[1..], c, viewer);
      var v := c.Value(table[0]);
      CandidatesShift(table, c, viewer, rest);
      if OptionScope(viewer, table[0]) && v.Some? && v.value != "" then [v.value] + rest else rest
  }
  /** The candidates of a table's tail, indexed from the tail, are the candidates from row 1 on. */
  lemma CandidatesShift(table: Table, c: Column, viewer: Option<User>, rest: seq<string>)
    requires table != []
    requires forall x :: x in rest <==>
               exists i :: 0 <= i < |table[1..]| && OptionScope(viewer, table[1..][i])
                           && c.Value(table[1..][i]) == Some(x) && x != ""
    ensures forall x :: x in rest <==>
              exists i :: 1 <= i < |table| && OptionScope(viewer, table[i])
                          && c.Value(table[i]) == Some(x) && x != ""
  {
    forall x | x in rest
      ensures exists i :: (1 <= i < |table| && OptionScope(viewer, table[i])
                           && c.Value(table[i]) == Some(x) && x != "")
    {
      var j :| 0 <= j < |table[1..]| && OptionScope(viewer, table[1..][j])
               && c.Value(table[1..][j]) == Some(x) && x != "";
      assert table[j + 1] == table[1..][j];
    }
    forall x, i | 1 <= i < |table| && OptionScope(viewer, table[i])
                  && c.Value(table[i]) == Some(x) && x != "" ensures x in rest {
      assert table[1..][i - 1] == table[i];
    }
  }


  ghost predicate NoDuplicates(s: seq<string>) {
    forall i, j :: 0 <= i < j < |s| ==> s[i] != s[j]
  }

  /** SQL DISTINCT: the first occurrence of each value, in order. */
  function Distinct(xs: seq<string>): (r: seq<string>)
    ensures NoDuplicates(r) && |r| <= |xs|
    ensures forall x :: x in r <==> x in xs
  {
    if xs == [] then []
    else
      var d := Distinct(xs[..|xs| - 1]);
      var last := xs[|xs| - 1];
      assert xs == xs[..|xs| - 1] + [last];
      if last in d then d else d + [last]
  }

  lemma {:induction false} NoDuplicatesByMultiplicity(s: seq<string>)
    requires NoDuplicates(s)
    ensures forall x :: multiset(s)[x] <= 1
  {
    if s != [] {
      var t := s[..|s| - 1];
      assert s == t + [s[|s| - 1]];
      NoDuplicatesByMultiplicity(t);
      assert s[|s| - 1] !in t;
    }
  }

  lemma RepeatedValueCountsTwice(s: seq<string>, i: nat, j: nat)
    requires i < j < |s| && s[i] == s[j]
    ensures multiset(s)[s[i]] >= 2
  {
    assert s == s[..j] + [s[j]] + s[j + 1..];
    assert s[i] in s[..j];
  }

  lemma MultiplicityGivesNoDuplicates(s: seq<string>)
    requires forall x :: multiset(s)[x] <= 1
    ensures NoDuplicates(s)
  {
    forall i, j | 0 <= i < j < |s| ensures s[i] != s[j] {
      if s[i] == s[j] {
        RepeatedValueCountsTwice(s, i, j);
        assert false;
      }
    }
  }

  /** `get_distinct_options_for_user` / `get_attribute_options_for_user` without the cache:
      `DISTINCT ... LIMIT 1000` then `sorted`. The limit keeps the first distinct values in
      table order (SQL leaves that choice to the database). */
  function DistinctOptions(table: Table, c: Column, viewer: Option<User>): (r: seq<string>)
    ensures |r| <= OPTION_LIMIT
    ensures |Distinct(Candidates(table, c, viewer))| > OPTION_LIMIT ==> |r| == OPTION_LIMIT
    ensures |Distinct(Candidates(table, c, viewer))| <= OPTION_LIMIT ==>
              |r| == |Distinct(Candidates(table, c, viewer))|
    ensures Sorted(r) && NoDuplicates(r)
    ensures forall x :: x in r ==> x in Candidates(table, c, viewer)
    ensures |Distinct(Candidates(table, c, viewer))| <= OPTION_LIMIT ==>
              forall x :: x in r <==> x in Candidates(table, c, viewer)
  {
    var d := Distinct(Candidates(table, c, viewer));
    var kept := if |d| <= OPTION_LIMIT then d else d[..OPTION_LIMIT];
    var r := Sort(kept);
    assert NoDuplicates(kept);
    NoDuplicatesByMultiplicity(kept);
    MultiplicityGivesNoDuplicates(r);
    assert forall x :: x in r <==> x in kept by {
      forall x ensures x in r <==> x in kept {
        assert x in r <==> x in multiset(r);
        assert x in kept <==> x in multiset(kept);
      }
    }
    r
  }

  /** Every option shown lies in the viewer's scope: it is a filled value of some row the
      viewer may see. */
  lemma OptionsComeFromScope(table: Table, c: Column, u: User, x: string)
    requires x in DistinctOptions(table, c, Some(u))
    ensures exists i :: 0 <= i < |table| && HasPermission(u, table[i].category, table[i].brand)
                        && c.Value(table[i]) == Some(x) && x != ""
  {
    assert x in Candidates(table, c, Some(u));
    var i :| 0 <= i < |table| && OptionScope(Some(u), table[i]) && c.Value(table[i]) == Some(x) && x != "";
    InScopeIsPermission(u, table[i]);
  }

  // ---------------------------------------------------------------- cached option lists

  /** `str(args)` of a call with one string argument, e.g. `('brand',)`. */
  function StringArgsRepr(arg: string): string {
    Cache.TupleRepr([arg])
  }

  /** `str(args)` of a call with one int argument, e.g. `(3,)`. */
  function IntArgsRepr(arg: int): string {
    "(" + IntToString(arg) + ",)"
  }

  /** The cache key of `get_distinct_options_for_user(column)`. */
  function OptionsKey(c: Column, viewer: Option<User>): string {
    Cache.CacheKey("get_distinct_options_for_user", StringArgsRepr(c.Name()), "{}", true, viewer)
  }

  /** The cache key of `get_attribute_options_for_user(n)`. */
  function AttributeOptionsKey(n: int, viewer: Option<User>): string {
    Cache.CacheKey("get_attribute_options_for_user", IntArgsRepr(n), "{}", true, viewer)
  }

  /** The lifetime, in seconds, of a cached option list. */
  const OPTIONS_TIMEOUT: int := 600

  /** `get_distinct_options_for_user(column)` with its 600-second user-scoped cache. */
  method CachedDistinctOptions(cache: Cache.MemoCache<seq<string>>, table: Table, c: Column,
                               viewer: Option<User>, now: int, computedAt: int)
    returns (options: seq<string>, hit: bool)
    requires cache.Valid()
    modifies cache
    ensures cache.Valid()
    ensures hit == Cache.Fresh(old(cache.values), old(cache.expiry), OptionsKey(c, viewer), now)
    ensures hit ==> options == old(cache.values)[OptionsKey(c, viewer)]
    ensures !hit ==> options == DistinctOptions(table, c, viewer)
    ensures hit ==> cache.values == old(cache.values) && cache.expiry == old(cache.expiry)
    ensures !hit ==> && cache.values == old(cache.values)[OptionsKey(c, viewer) := options]
                     && cache.expiry == old(cache.expiry)[OptionsKey(c, viewer) := computedAt + OPTIONS_TIMEOUT]
  {
    options, hit := cache.Call(OptionsKey(c, viewer), now, computedAt, OPTIONS_TIMEOUT, DistinctOptions(table, c, viewer));
  }

  /** `get_attribute_options_for_user(n)` with its 600-second user-scoped cache. */
  method CachedAttributeOptions(cache: Cache.MemoCache<seq<string>>, table: Table, n: int,
                                viewer: Option<User>, now: int, computedAt: int)
    returns (options: seq<string>, hit: bool)
    requires 1 <= n <= 5
    requires cache.Valid()
    modifies cache
    ensures cache.Valid()
    ensures hit == Cache.Fresh(old(cache.values), old(cache.expiry), AttributeOptionsKey(n, viewer), now)
    ensures hit ==> options == old(cache.values)[AttributeOptionsKey(n, viewer)]
    ensures !hit ==> options == DistinctOptions(table, AttributeColumn(n), viewer)
    ensures hit ==> cache.values == old(cache.values) && cache.expiry == old(cache.expiry)
    ensures !hit ==> && cache.values == old(cache.values)[AttributeOptionsKey(n, viewer) := options]
                     && cache.expiry == old(cache.expiry)[AttributeOptionsKey(n, viewer) := computedAt + OPTIONS_TIMEOUT]
  {
    options, hit := cache.Call(AttributeOptionsKey(n, viewer), now, computedAt, OPTIONS_TIMEOUT,
                               DistinctOptions(table, AttributeColumn(n), viewer));
  }
}
